/**
 packages/tui/src/layout.ts: laying out trees of lines, stacks and scroll views, and finding
 the scroll views at a point. What the layout asks of code outside (the number of lines a
 component renders, the sizes a stack allots, where a view is scrolled to) is part of the
 component.
 */
module Layout {
  import opened StableSort
  import opened Wrappers

  datatype Rect = Rect(x: int, y: int, width: int, height: int)

  function Max(a: int, b: int): int { if a < b then b else a }

  function Min(a: int, b: int): int { if a < b then a else b }

  function Intersect(a: Rect, b: Rect): Rect {
    var x, y := Max(a.x, b.x), Max(a.y, b.y);
    var right, bottom := Min(a.x + a.width, b.x + b.width), Min(a.y + a.height, b.y + b.height);
    Rect(x, y, Max(0, right - x), Max(0, bottom - y))
  }

  predicate ContainsPoint(r: Rect, x: int, y: int) {
    x >= r.x && x < r.x + r.width && y >= r.y && y < r.y + r.height
  }

  /** A rectangle holds as many columns and rows of points as it is wide and high, from its corner
      on. */
  lemma {:induction false} PointsExactly(r: Rect, dx: int, dy: int)
    ensures ContainsPoint(r, r.x + dx, r.y + dy) <==> 0 <= dx < r.width && 0 <= dy < r.height
  {
  }

  lemma {:induction false} IntersectIsBoth(a: Rect, b: Rect)
    ensures forall x, y :: ContainsPoint(Intersect(a, b), x, y) <==> ContainsPoint(a, x, y) && ContainsPoint(b, x, y)
  {
  }

  datatype Align = Stretch | Start | Center | End

  datatype Row = Row(size: nat, component: Component)

  datatype Column = Column(width: nat, naturalHeight: nat, component: Component)

  /** `before` and `after` are where a view is scrolled to before and after it has learnt its
      content's height. */
  datatype Component =
    | Lines(count: nat)
    | Scroll(view: nat, contentWidth: int, before: int, after: int, content: Component)
    | VStack(rows: seq<Row>, gap: nat)
    | HStack(columns: seq<Column>, gap: nat, align: Align)

  datatype Box = Box(rect: Rect, clip: Rect, view: Option<nat>, children: seq<Box>)

  // ---- moving and clipping ----

  /** translateBox: the rectangles move, the clips stay. */
  function Translate(b: Box, d: int): Box
    decreases b, 0
  {
    b.(rect := b.rect.(y := b.rect.y + d), children := TranslateAll(b, d, |b.children|))
  }

  function TranslateAll(b: Box, d: int, n: nat): (r: seq<Box>)
    requires n <= |b.children|
    ensures |r| == n
    decreases b, 0, n
  {
    if n == 0 then [] else TranslateAll(b, d, n - 1) + [Translate(b.children[n - 1], d)]
  }

  /** updateClips. */
  function UpdateClips(b: Box, parentClip: Rect): Box
    decreases b, 0
  {
    var clip := Intersect(parentClip, b.rect);
    b.(clip := clip, children := UpdateAll(b, clip, |b.children|))
  }

  function UpdateAll(b: Box, clip: Rect, n: nat): (r: seq<Box>)
    requires n <= |b.children|
    ensures |r| == n
    decreases b, 0, n
  {
    if n == 0 then [] else UpdateAll(b, clip, n - 1) + [UpdateClips(b.children[n - 1], clip)]
  }

  lemma {:induction false} TranslateAt(b: Box, d: int, n: nat, i: nat)
    requires i < n <= |b.children|
    ensures TranslateAll(b, d, n)[i] == Translate(b.children[i], d)
  {
    hide Translate;
    if i < n - 1 {
      TranslateAt(b, d, n - 1, i);
    }
  }

  lemma {:induction false} UpdateAt(b: Box, clip: Rect, n: nat, i: nat)
    requires i < n <= |b.children|
    ensures UpdateAll(b, clip, n)[i] == UpdateClips(b.children[i], clip)
  {
    hide UpdateClips;
    if i < n - 1 {
      UpdateAt(b, clip, n - 1, i);
    }
  }

  // ---- layoutComponent ----

  function SafeWidth(width: int): int { Max(1, width) }

  function HeightOr(height: Option<int>, natural: int): int {
    if height.None? then natural else Max(0, height.value)
  }

  /** Where row number `n` begins, below the rows before it. */
  function RowTop(rows: seq<Row>, gap: nat, n: nat): nat
    requires n <= |rows|
  {
    if n == 0 then 0 else RowTop(rows, gap, n - 1) + rows[n - 1].size + gap
  }

  function ColumnLeft(columns: seq<Column>, gap: nat, n: nat): nat
    requires n <= |columns|
  {
    if n == 0 then 0 else ColumnLeft(columns, gap, n - 1) + columns[n - 1].width + gap
  }

  function RowsHeight(rows: seq<Row>, gap: nat): nat {
    if rows == [] then 0 else RowTop(rows, gap, |rows| - 1) + rows[|rows| - 1].size
  }

  function TallestColumn(columns: seq<Column>): nat {
    if columns == [] then 0
    else
      var rest := TallestColumn(columns[..|columns| - 1]);
      if rest < columns[|columns| - 1].naturalHeight then columns[|columns| - 1].naturalHeight else rest
  }

  function ColumnHeight(align: Align, allotted: int, natural: int): int {
    if align == Stretch then allotted else Min(allotted, natural)
  }

  function ColumnDrop(align: Align, allotted: int, height: int): int {
    match align
    case Center => (allotted - height) / 2
    case End => allotted - height
    case _ => 0
  }

  function Layout(c: Component, x: int, y: int, width: int, height: Option<int>, clip: Rect): Box
    decreases c, 1
  {
    var safeWidth := SafeWidth(width);
    match c
    case Lines(count) =>
      var rect := Rect(x, y, safeWidth, HeightOr(height, count));
      Box(rect, Intersect(clip, rect), None, [])
    case Scroll(view, contentWidth, before, after, content) =>
      var child := Layout(content, x, y - before, contentWidth, None, clip);
      var rect := Rect(x, y, safeWidth, HeightOr(height, child.rect.height));
      var childClip := Intersect(clip, rect);
      Box(rect, childClip, Some(view), [UpdateClips(Translate(child, before - after), childClip)])
    case VStack(rows, gap) =>
      var rect := Rect(x, y, safeWidth, HeightOr(height, RowsHeight(rows, gap)));
      Box(rect, Intersect(clip, rect), None, LayoutRows(c, x, y, safeWidth, Intersect(clip, rect), |rows|))
    case HStack(columns, gap, align) =>
      var rect := Rect(x, y, safeWidth, HeightOr(height, TallestColumn(columns)));
      Box(rect, Intersect(clip, rect), None, LayoutColumns(c, x, y, rect.height, Intersect(clip, rect), |columns|))
  }

  function LayoutRows(c: Component, x: int, y: int, width: int, clip: Rect, n: nat): (r: seq<Box>)
    requires c.VStack? && n <= |c.rows|
    ensures |r| == n
    decreases c, 0, n
  {
    if n == 0 then []
    else
      var row := c.rows[n - 1];
      LayoutRows(c, x, y, width, clip, n - 1)
      + [Layout(row.component, x, y + RowTop(c.rows, c.gap, n - 1), width, Some(row.size), clip)]
  }

  function LayoutColumns(c: Component, x: int, y: int, allotted: int, clip: Rect, n: nat): (r: seq<Box>)
    requires c.HStack? && n <= |c.columns|
    ensures |r| == n
    decreases c, 0, n
  {
    if n == 0 then []
    else
      var column := c.columns[n - 1];
      var height := ColumnHeight(c.align, allotted, column.naturalHeight);
      var left, top := x + ColumnLeft(c.columns, c.gap, n - 1), y + ColumnDrop(c.align, allotted, height);
      LayoutColumns(c, x, y, allotted, clip, n - 1)
      + [if column.width == 0 then Box(Rect(left, top, 0, height), Rect(left, top, 0, 0), None, [])
         else Layout(column.component, left, top, column.width, Some(height), clip)]
  }

  // ---- clips ----

  /** Each box's clip is, point by point, what its rectangle and its parent's clip share. */
  ghost predicate ExactlyClipped(b: Box, parentClip: Rect)
    decreases b
  {
    && (forall x, y :: ContainsPoint(b.clip, x, y) <==> ContainsPoint(parentClip, x, y) && ContainsPoint(b.rect, x, y))
    && (forall i | 0 <= i < |b.children| :: ExactlyClipped(b.children[i], b.clip))
  }

  lemma {:induction false} UpdatedIsClipped(b: Box, parentClip: Rect)
    ensures ExactlyClipped(UpdateClips(b, parentClip), parentClip)
    decreases b
  {
    hide Intersect, ContainsPoint;
    var clip := Intersect(parentClip, b.rect);
    IntersectIsBoth(parentClip, b.rect);
    var after := UpdateClips(b, parentClip);
    forall i | 0 <= i < |after.children|
      ensures ExactlyClipped(after.children[i], clip)
    {
      UpdateAt(b, clip, |b.children|, i);
      UpdatedIsClipped(b.children[i], clip);
    }
  }

  /** In every laid-out tree, nested scroll views included, all clips are exact. */
  lemma {:induction false} LaidOutIsClipped(c: Component, x: int, y: int, width: int, height: Option<int>, clip: Rect)
    ensures ExactlyClipped(Layout(c, x, y, width, height, clip), clip)
    decreases c, 1
  {
    hide Intersect, ContainsPoint, UpdateClips, Translate, ExactlyClipped, HeightOr, SafeWidth, RowsHeight,
      TallestColumn;
    var b := Layout(c, x, y, width, height, clip);
    IntersectIsBoth(clip, b.rect);
    match c
    case Lines(_) => ClippedFromParts(b, clip);
    case Scroll(_, contentWidth, before, after, content) =>
      var child := Layout(content, x, y - before, contentWidth, None, clip);
      UpdatedIsClipped(Translate(child, before - after), b.clip);
      ClippedFromParts(b, clip);
    case VStack(rows, _) =>
      RowsAreClipped(c, x, y, SafeWidth(width), b.clip, |rows|);
      assert b.children == LayoutRows(c, x, y, SafeWidth(width), b.clip, |rows|);
      assert forall i | 0 <= i < |rows| ::
          ExactlyClipped(LayoutRows(c, x, y, SafeWidth(width), b.clip, |rows|)[i], b.clip);
      ClippedFromParts(b, clip);
    case HStack(columns, _, _) =>
      ColumnsAreClipped(c, x, y, b.rect.height, b.clip, |columns|);
      assert b.children == LayoutColumns(c, x, y, b.rect.height, b.clip, |columns|);
      ClippedFromParts(b, clip);
  }

  lemma {:induction false} ClippedFromParts(b: Box, clip: Rect)
    requires forall x, y :: ContainsPoint(b.clip, x, y) <==> ContainsPoint(clip, x, y) && ContainsPoint(b.rect, x, y)
    requires forall i | 0 <= i < |b.children| :: ExactlyClipped(b.children[i], b.clip)
    ensures ExactlyClipped(b, clip)
  {
  }

  lemma {:induction false} RowsAreClipped(c: Component, x: int, y: int, width: int, clip: Rect, n: nat)
    requires c.VStack? && n <= |c.rows|
    ensures forall i | 0 <= i < n :: ExactlyClipped(LayoutRows(c, x, y, width, clip, n)[i], clip)
    decreases c, 0, n
  {
    hide ExactlyClipped, Layout;
    if n > 0 {
      var row := c.rows[n - 1];
      RowsAreClipped(c, x, y, width, clip, n - 1);
      LaidOutIsClipped(row.component, x, y + RowTop(c.rows, c.gap, n - 1), width, Some(row.size), clip);
      assert forall i | 0 <= i < n - 1 ::
          LayoutRows(c, x, y, width, clip, n)[i] == LayoutRows(c, x, y, width, clip, n - 1)[i];
    }
  }

  lemma {:induction false} ColumnsAreClipped(c: Component, x: int, y: int, allotted: int, clip: Rect, n: nat)
    requires c.HStack? && n <= |c.columns|
    ensures forall i | 0 <= i < n :: ExactlyClipped(LayoutColumns(c, x, y, allotted, clip, n)[i], clip)
    decreases c, 0, n
  {
    hide ExactlyClipped, Layout, ColumnHeight, ColumnDrop;
    if n > 0 {
      var column := c.columns[n - 1];
      var height := ColumnHeight(c.align, allotted, column.naturalHeight);
      var left, top := x + ColumnLeft(c.columns, c.gap, n - 1), y + ColumnDrop(c.align, allotted, height);
      ColumnsAreClipped(c, x, y, allotted, clip, n - 1);
      LaidOutIsClipped(column.component, left, top, column.width, Some(height), clip);
      EmptyIsClipped(left, top, height, clip);
      assert forall i | 0 <= i < n - 1 ::
          LayoutColumns(c, x, y, allotted, clip, n)[i] == LayoutColumns(c, x, y, allotted, clip, n - 1)[i];
    }
  }

  /** A column without width has no points, and an empty clip. */
  lemma {:induction false} EmptyIsClipped(left: int, top: int, height: int, clip: Rect)
    ensures ExactlyClipped(Box(Rect(left, top, 0, height), Rect(left, top, 0, 0), None, []), clip)
  {
  }

  // ---- finding scroll views ----

  /** The pruned walk of getScrollViewsAt; deeper boxes have smaller keys. */
  function Visit(b: Box, depth: nat, x: int, y: int): seq<Keyed<nat>>
    decreases b, 1
  {
    if !ContainsPoint(b.clip, x, y) then []
    else
      (if b.view.Some? && ContainsPoint(b.rect, x, y) then [Keyed(b.view.value, -(depth as int))] else [])
      + VisitAll(b, depth, x, y, |b.children|)
  }

  function VisitAll(b: Box, depth: nat, x: int, y: int, n: nat): seq<Keyed<nat>>
    requires n <= |b.children|
    decreases b, 0, n
  {
    if n == 0 then [] else VisitAll(b, depth, x, y, n - 1) + Visit(b.children[n - 1], depth + 1, x, y)
  }

  /** The scan that leaves nothing out: the scroll views of all boxes such that they and all
      boxes around them contain the point (`inside` says it of the boxes around). */
  function Exhaustive(b: Box, depth: nat, x: int, y: int, inside: bool): seq<Keyed<nat>>
    decreases b, 1
  {
    var here := inside && ContainsPoint(b.rect, x, y);
    (if b.view.Some? && here then [Keyed(b.view.value, -(depth as int))] else [])
    + ExhaustiveAll(b, depth, x, y, here, |b.children|)
  }

  function ExhaustiveAll(b: Box, depth: nat, x: int, y: int, inside: bool, n: nat): seq<Keyed<nat>>
    requires n <= |b.children|
    decreases b, 0, n
  {
    if n == 0 then []
    else ExhaustiveAll(b, depth, x, y, inside, n - 1) + Exhaustive(b.children[n - 1], depth + 1, x, y, inside)
  }

  lemma {:induction false} OutsideIsNothing(b: Box, depth: nat, x: int, y: int)
    ensures Exhaustive(b, depth, x, y, false) == []
    decreases b, 1
  {
    NothingOutside(b, depth, x, y, |b.children|);
  }

  lemma {:induction false} NothingOutside(b: Box, depth: nat, x: int, y: int, n: nat)
    requires n <= |b.children|
    ensures ExhaustiveAll(b, depth, x, y, false, n) == []
    decreases b, 0, n
  {
    if n > 0 {
      NothingOutside(b, depth, x, y, n - 1);
      OutsideIsNothing(b.children[n - 1], depth + 1, x, y);
    }
  }

  /** Pruning by clips loses nothing. */
  lemma {:induction false} PruningIsExact(b: Box, depth: nat, x: int, y: int, parentClip: Rect)
    requires ExactlyClipped(b, parentClip)
    ensures Visit(b, depth, x, y) == Exhaustive(b, depth, x, y, ContainsPoint(parentClip, x, y))
    decreases b, 1
  {
    hide ContainsPoint;
    if ContainsPoint(b.clip, x, y) {
      PruningAllIsExact(b, depth, x, y, |b.children|);
    } else {
      NothingOutside(b, depth, x, y, |b.children|);
    }
  }

  lemma {:induction false} PruningAllIsExact(b: Box, depth: nat, x: int, y: int, n: nat)
    requires n <= |b.children| && ContainsPoint(b.clip, x, y)
    requires forall i | 0 <= i < |b.children| :: ExactlyClipped(b.children[i], b.clip)
    ensures VisitAll(b, depth, x, y, n) == ExhaustiveAll(b, depth, x, y, true, n)
    decreases b, 0, n
  {
    hide ContainsPoint, Visit, Exhaustive, ExactlyClipped;
    if n > 0 {
      PruningAllIsExact(b, depth, x, y, n - 1);
      PruningIsExact(b.children[n - 1], depth + 1, x, y, b.clip);
    }
  }

  function ViewsOf(s: seq<Keyed<nat>>): (views: seq<nat>)
    ensures |views| == |s| && forall i | 0 <= i < |s| :: views[i] == s[i].item
  {
    if s == [] then [] else ViewsOf(s[..|s| - 1]) + [s[|s| - 1].item]
  }

  /** getScrollViewsAt. */
  method GetScrollViewsAt(root: Box, x: int, y: int) returns (views: seq<nat>)
    ensures views == ViewsOf(Sort(Visit(root, 0, x, y)))
  {
    hide Visit;
    var result := VisitBox(root, 0, x, y, []);
    assert [] + Visit(root, 0, x, y) == Visit(root, 0, x, y);
    views := ViewsOf(Sort(result));
  }

  /** The inner function `visit`, which appends to the result. */
  method VisitBox(b: Box, depth: nat, x: int, y: int, before: seq<Keyed<nat>>) returns (result: seq<Keyed<nat>>)
    ensures result == before + Visit(b, depth, x, y)
    decreases b
  {
    hide ContainsPoint;
    result := before;
    if !ContainsPoint(b.clip, x, y) {
      return;
    }
    ghost var own: seq<Keyed<nat>> := [];
    if b.view.Some? && ContainsPoint(b.rect, x, y) {
      own := [Keyed(b.view.value, -(depth as int))];
      result := result + [Keyed(b.view.value, -(depth as int))];
    }
    for n := 0 to |b.children|
      invariant result == before + own + VisitAll(b, depth, x, y, n)
    {
      result := VisitBox(b.children[n], depth + 1, x, y, result);
      assert before + own + VisitAll(b, depth, x, y, n) + Visit(b.children[n], depth + 1, x, y)
          == before + own + VisitAll(b, depth, x, y, n + 1);
    }
    assert before + own + VisitAll(b, depth, x, y, |b.children|)
        == before + (own + VisitAll(b, depth, x, y, |b.children|));
  }

  /** In every laid-out frame, the search finds exactly the scroll views that an exhaustive scan
      finds around the point, deepest first, and in the scan's order at equal depth. */
  lemma {:induction false} SearchIsExhaustive(c: Component, width: int, height: int, x: int, y: int)
    ensures var clip := Rect(0, 0, SafeWidth(width), SafeWidth(height));
            var root := Layout(c, 0, 0, clip.width, Some(clip.height), clip);
            var all := Exhaustive(root, 0, x, y, ContainsPoint(clip, x, y));
            var found := Sort(Visit(root, 0, x, y));
            && Ascending(found)
            && forall key :: WithKey(found, key) == WithKey(all, key)
  {
    hide Layout, Visit, Exhaustive, Sort, Ascending, WithKey, ExactlyClipped, ContainsPoint;
    var clip := Rect(0, 0, SafeWidth(width), SafeWidth(height));
    var root := Layout(c, 0, 0, clip.width, Some(clip.height), clip);
    LaidOutIsClipped(c, 0, 0, clip.width, Some(clip.height), clip);
    PruningIsExact(root, 0, x, y, clip);
    SortIsStable(Visit(root, 0, x, y));
  }
}
