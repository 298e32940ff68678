/**
 Laying out in one pass: every scroll view's content at the place it is scrolled to, clipped
 at once. The source lays content out first where it was scrolled to before, then moves and
 clips it again; this is the simple form that it comes to.
 */
module DirectLayout {
  import opened Wrappers
  import opened Layout

  function Direct(c: Component, x: int, y: int, width: int, height: Option<int>, clip: Rect): Box
    decreases c, 1
  {
    var safeWidth := SafeWidth(width);
    match c
    case Lines(count) =>
      var rect := Rect(x, y, safeWidth, HeightOr(height, count));
      Box(rect, Intersect(clip, rect), None, [])
    case Scroll(view, contentWidth, before, after, content) =>
      var rect := Rect(x, y, safeWidth, HeightOr(height, NaturalHeight(content)));
      var childClip := Intersect(clip, rect);
      Box(rect, childClip, Some(view), [Direct(content, x, y - after, contentWidth, None, childClip)])
    case VStack(rows, gap) =>
      var rect := Rect(x, y, safeWidth, HeightOr(height, RowsHeight(rows, gap)));
      Box(rect, Intersect(clip, rect), None, DirectRows(c, x, y, safeWidth, Intersect(clip, rect), |rows|))
    case HStack(columns, gap, align) =>
      var rect := Rect(x, y, safeWidth, HeightOr(height, TallestColumn(columns)));
      Box(rect, Intersect(clip, rect), None, DirectColumns(c, x, y, rect.height, Intersect(clip, rect), |columns|))
  }

  /** The height of a component that is given none. */
  function NaturalHeight(c: Component): int {
    match c
    case Lines(count) => count
    case Scroll(_, _, _, _, content) => NaturalHeight(content)
    case VStack(rows, gap) => RowsHeight(rows, gap)
    case HStack(columns, _, _) => TallestColumn(columns)
  }

  function DirectRows(c: Component, x: int, y: int, width: int, clip: Rect, n: nat): (r: seq<Box>)
    requires c.VStack? && n <= |c.rows|
    ensures |r| == n
    decreases c, 0, n
  {
    if n == 0 then []
    else
      var row := c.rows[n - 1];
      DirectRows(c, x, y, width, clip, n - 1)
      + [Direct(row.component, x, y + RowTop(c.rows, c.gap, n - 1), width, Some(row.size), clip)]
  }

  function DirectColumns(c: Component, x: int, y: int, allotted: int, clip: Rect, n: nat): (r: seq<Box>)
    requires c.HStack? && n <= |c.columns|
    ensures |r| == n
    decreases c, 0, n
  {
    if n == 0 then []
    else
      var column := c.columns[n - 1];
      var height := ColumnHeight(c.align, allotted, column.naturalHeight);
      var left, top := x + ColumnLeft(c.columns, c.gap, n - 1), y + ColumnDrop(c.align, allotted, height);
      DirectColumns(c, x, y, allotted, clip, n - 1)
      + [if column.width == 0 then Box(Rect(left, top, 0, height), Rect(left, top, 0, 0), None, [])
         else Direct(column.component, left, top, column.width, Some(height), clip)]
  }

  // ---- trees without their clips ----

  datatype Bare = Bare(rect: Rect, view: Option<nat>, children: seq<Bare>)

  function Strip(b: Box): Bare
    decreases b, 1
  {
    Bare(b.rect, b.view, StripAll(b, |b.children|))
  }

  function StripAll(b: Box, n: nat): (r: seq<Bare>)
    requires n <= |b.children|
    ensures |r| == n
    decreases b, 0, n
  {
    if n == 0 then [] else StripAll(b, n - 1) + [Strip(b.children[n - 1])]
  }

  function StripSeq(bs: seq<Box>): (r: seq<Bare>)
    ensures |r| == |bs|
  {
    if bs == [] then [] else StripSeq(bs[..|bs| - 1]) + [Strip(bs[|bs| - 1])]
  }

  lemma {:induction false} StripSome(b: Box, n: nat)
    requires n <= |b.children|
    ensures StripAll(b, n) == StripSeq(b.children[..n])
  {
    hide Strip;
    if n > 0 {
      StripSome(b, n - 1);
      assert b.children[..n][..n - 1] == b.children[..n - 1];
    }
  }

  lemma {:induction false} StripIs(b: Box)
    ensures Strip(b) == Bare(b.rect, b.view, StripSeq(b.children))
  {
    hide StripSeq, StripAll;
    StripSome(b, |b.children|);
    assert b.children[..|b.children|] == b.children;
  }

  lemma {:induction false} StripSnoc(bs: seq<Box>, b: Box)
    ensures StripSeq(bs + [b]) == StripSeq(bs) + [Strip(b)]
  {
    hide Strip;
    assert (bs + [b])[..|bs|] == bs;
  }

  /** Clipping changes nothing but clips. */
  lemma {:induction false} UpdateStrips(b: Box, clip: Rect)
    ensures Strip(UpdateClips(b, clip)) == Strip(b)
    decreases b, 1
  {
    hide Intersect, StripSeq;
    var own := Intersect(clip, b.rect);
    StripIs(b);
    StripIs(UpdateClips(b, clip));
    UpdateAllStrips(b, own, |b.children|);
    assert b.children[..|b.children|] == b.children;
  }

  lemma {:induction false} UpdateAllStrips(b: Box, clip: Rect, n: nat)
    requires n <= |b.children|
    ensures StripSeq(UpdateAll(b, clip, n)) == StripSeq(b.children[..n])
    decreases b, 0, n
  {
    hide Strip, UpdateClips, StripSeq;
    if n == 0 {
      assert UpdateAll(b, clip, n) == b.children[..n];
    } else {
      UpdateAllStrips(b, clip, n - 1);
      UpdateStrips(b.children[n - 1], clip);
      StripSnoc(UpdateAll(b, clip, n - 1), UpdateClips(b.children[n - 1], clip));
      StripSnoc(b.children[..n - 1], b.children[n - 1]);
      assert b.children[..n] == b.children[..n - 1] + [b.children[n - 1]];
    }
  }

  /** Moving depends on nothing but the rectangles. */
  lemma {:induction false} TranslateStrips(a: Box, b: Box, d: int)
    requires Strip(a) == Strip(b)
    ensures Strip(Translate(a, d)) == Strip(Translate(b, d))
    decreases a, 1
  {
    hide StripSeq;
    StripIs(a);
    StripIs(b);
    StripIs(Translate(a, d));
    StripIs(Translate(b, d));
    assert a.children[..|a.children|] == a.children && b.children[..|b.children|] == b.children;
    TranslateAllStrips(a, b, d, |a.children|);
  }

  lemma {:induction false} StripSeqAt(bs: seq<Box>, i: nat)
    requires i < |bs|
    ensures StripSeq(bs)[i] == Strip(bs[i])
    ensures StripSeq(bs[..i]) == StripSeq(bs)[..i]
  {
    hide Strip;
    if i < |bs| - 1 {
      StripSeqAt(bs[..|bs| - 1], i);
      assert bs[..|bs| - 1][..i] == bs[..i];
    }
  }

  lemma {:induction false} TranslateAllStrips(a: Box, b: Box, d: int, n: nat)
    requires n <= |a.children| && n <= |b.children| && StripSeq(a.children[..n]) == StripSeq(b.children[..n])
    ensures StripSeq(TranslateAll(a, d, n)) == StripSeq(TranslateAll(b, d, n))
    decreases a, 0, n
  {
    hide Strip, Translate, StripSeq;
    if n > 0 {
      StripSeqAt(a.children[..n], n - 1);
      StripSeqAt(b.children[..n], n - 1);
      assert a.children[..n][..n - 1] == a.children[..n - 1] && b.children[..n][..n - 1] == b.children[..n - 1];
      TranslateAllStrips(a, b, d, n - 1);
      TranslateStrips(a.children[n - 1], b.children[n - 1], d);
      StripSnoc(TranslateAll(a, d, n - 1), Translate(a.children[n - 1], d));
      StripSnoc(TranslateAll(b, d, n - 1), Translate(b.children[n - 1], d));
    }
  }

  lemma {:induction false} TranslateTwice(b: Box, d: int, e: int)
    ensures Translate(Translate(b, d), e) == Translate(b, d + e)
    decreases b, 1
  {
    TranslateAllTwice(b, d, e, |b.children|);
  }

  lemma {:induction false} TranslateAllTwice(b: Box, d: int, e: int, n: nat)
    requires n <= |b.children|
    ensures TranslateAll(Translate(b, d), e, n) == TranslateAll(b, d + e, n)
    decreases b, 0, n
  {
    if n > 0 {
      hide TranslateAll;
      TranslateAllTwice(b, d, e, n - 1);
      TranslateTwice(b.children[n - 1], d, e);
      TranslateAt(b, d, |b.children|, n - 1);
      OneMoreTranslated(Translate(b, d), e, n);
      OneMoreTranslated(b, d + e, n);
    }
  }

  lemma {:induction false} OneMoreTranslated(b: Box, d: int, n: nat)
    requires 0 < n <= |b.children|
    ensures TranslateAll(b, d, n) == TranslateAll(b, d, n - 1) + [Translate(b.children[n - 1], d)]
  {
    hide Translate;
  }

  // ---- the same rectangles ----

  lemma {:induction false} LaidOutHeight(c: Component, x: int, y: int, width: int, clip: Rect)
    ensures Layout.Layout(c, x, y, width, None, clip).rect.height == NaturalHeight(c)
  {
    hide Translate, UpdateClips, RowsHeight, TallestColumn, LayoutRows, LayoutColumns;
    if c.Scroll? {
      LaidOutHeight(c.content, x, y - c.before, c.contentWidth, clip);
    }
  }

  /** Laying out and then moving is laying out elsewhere, whatever the clips. */
  lemma {:induction false} MovedIsDirect(c: Component, x: int, y: int, width: int, height: Option<int>,
                                         clip: Rect, d: int, other: Rect)
    ensures Strip(Translate(Layout.Layout(c, x, y, width, height, clip), d)) ==
            Strip(Direct(c, x, y + d, width, height, other))
    decreases c, 1
  {
    hide Strip, Intersect, StripSeq, UpdateClips, HeightOr, RowsHeight, TallestColumn, SafeWidth, NaturalHeight,
      TranslateAll, LayoutRows, LayoutColumns, DirectRows, DirectColumns;
    var laid, direct := Layout.Layout(c, x, y, width, height, clip), Direct(c, x, y + d, width, height, other);
    StripIs(Translate(laid, d));
    StripIs(direct);
    match c
    case Lines(_) => NothingTranslated(laid, d);
    case Scroll(_, contentWidth, before, after, content) =>
      var child := Layout.Layout(content, x, y - before, contentWidth, None, clip);
      LaidOutHeight(content, x, y - before, contentWidth, clip);
      var moved := Translate(child, before - after);
      UpdateStrips(moved, laid.clip);
      TranslateStrips(UpdateClips(moved, laid.clip), moved, d);
      TranslateTwice(child, before - after, d);
      MovedIsDirect(content, x, y - before, contentWidth, None, clip, before - after + d, direct.clip);
      OneTranslated(laid, d);
      StripOne(Translate(laid.children[0], d));
      StripOne(direct.children[0]);
    case VStack(rows, _) =>
      RowsAreDirect(laid, c, x, y, SafeWidth(width), laid.clip, d, direct.clip, |rows|);
    case HStack(columns, _, _) =>
      ColumnsAreDirect(laid, c, x, y, laid.rect.height, laid.clip, d, direct.clip, |columns|);
  }

  lemma {:induction false} NothingTranslated(b: Box, d: int)
    requires b.children == []
    ensures Translate(b, d).children == [] && StripSeq([]) == []
  {
  }

  lemma {:induction false} OneTranslated(b: Box, d: int)
    requires |b.children| == 1
    ensures Translate(b, d).children == [Translate(b.children[0], d)]
  {
    TranslateAt(b, d, 1, 0);
  }

  lemma {:induction false} StripOne(b: Box)
    ensures StripSeq([b]) == [Strip(b)]
  {
    StripSnoc([], b);
    assert [] + [b] == [b];
  }

  lemma {:induction false} RowsAreDirect(laid: Box, c: Component, x: int, y: int, width: int, clip: Rect,
                                         d: int, other: Rect, n: nat)
    requires c.VStack? && n <= |c.rows| && laid.children == LayoutRows(c, x, y, width, clip, |c.rows|)
    ensures StripSeq(TranslateAll(laid, d, n)) == StripSeq(DirectRows(c, x, y + d, width, other, n))
    decreases c, 0, n
  {
    hide Strip, Translate, Direct, Layout.Layout;
    if n > 0 {
      var row := c.rows[n - 1];
      RowsAreDirect(laid, c, x, y, width, clip, d, other, n - 1);
      var top := RowTop(c.rows, c.gap, n - 1);
      var moved := Layout.Layout(row.component, x, y + top, width, Some(row.size), clip);
      var direct := Direct(row.component, x, y + top + d, width, Some(row.size), other);
      MovedIsDirect(row.component, x, y + top, width, Some(row.size), clip, d, other);
      RowAt(c, x, y, width, clip, |c.rows|, n - 1);
      OneMoreTranslated(laid, d, n);
      StripSnoc(TranslateAll(laid, d, n - 1), Translate(moved, d));
      StripSnoc(DirectRows(c, x, y + d, width, other, n - 1), direct);
    }
  }

  lemma {:induction false} RowAt(c: Component, x: int, y: int, width: int, clip: Rect, n: nat, i: nat)
    requires c.VStack? && i < n <= |c.rows|
    ensures LayoutRows(c, x, y, width, clip, n)[i] ==
            Layout.Layout(c.rows[i].component, x, y + RowTop(c.rows, c.gap, i), width, Some(c.rows[i].size), clip)
  {
    hide Layout.Layout;
    if i < n - 1 {
      RowAt(c, x, y, width, clip, n - 1, i);
    }
  }

  lemma {:induction false} ColumnAt(c: Component, x: int, y: int, allotted: int, clip: Rect, n: nat, i: nat)
    requires c.HStack? && i < n <= |c.columns|
    ensures var column := c.columns[i];
            var height := ColumnHeight(c.align, allotted, column.naturalHeight);
            var left, top := x + ColumnLeft(c.columns, c.gap, i), y + ColumnDrop(c.align, allotted, height);
            LayoutColumns(c, x, y, allotted, clip, n)[i] ==
            if column.width == 0 then Box(Rect(left, top, 0, height), Rect(left, top, 0, 0), None, [])
            else Layout.Layout(column.component, left, top, column.width, Some(height), clip)
  {
    hide Layout.Layout, ColumnHeight, ColumnDrop;
    if i < n - 1 {
      ColumnAt(c, x, y, allotted, clip, n - 1, i);
    }
  }

  lemma {:induction false} EmptyMoves(left: int, top: int, height: int, d: int)
    ensures Translate(Box(Rect(left, top, 0, height), Rect(left, top, 0, 0), None, []), d) ==
            Box(Rect(left, top + d, 0, height), Rect(left, top, 0, 0), None, [])
    ensures Strip(Box(Rect(left, top + d, 0, height), Rect(left, top, 0, 0), None, [])) ==
            Strip(Box(Rect(left, top + d, 0, height), Rect(left, top + d, 0, 0), None, []))
  {
  }

  function DirectColumn(column: Column, left: int, top: int, height: int, clip: Rect): Box {
    if column.width == 0 then Box(Rect(left, top, 0, height), Rect(left, top, 0, 0), None, [])
    else Direct(column.component, left, top, column.width, Some(height), clip)
  }

  lemma {:induction false} ColumnMoves(column: Column, left: int, top: int, height: int, clip: Rect, d: int,
                                       other: Rect)
    ensures var laid := if column.width == 0 then Box(Rect(left, top, 0, height), Rect(left, top, 0, 0), None, [])
                        else Layout.Layout(column.component, left, top, column.width, Some(height), clip);
            Strip(Translate(laid, d)) == Strip(DirectColumn(column, left, top + d, height, other))
    decreases column, 2
  {
    hide Strip, Translate, Direct, Layout.Layout;
    EmptyMoves(left, top, height, d);
    MovedIsDirect(column.component, left, top, column.width, Some(height), clip, d, other);
  }

  lemma {:induction false} OneMoreColumn(c: Component, x: int, y: int, allotted: int, clip: Rect, n: nat)
    requires c.HStack? && 0 < n <= |c.columns|
    ensures var column := c.columns[n - 1];
            var height := ColumnHeight(c.align, allotted, column.naturalHeight);
            DirectColumns(c, x, y, allotted, clip, n) ==
            DirectColumns(c, x, y, allotted, clip, n - 1)
            + [DirectColumn(column, x + ColumnLeft(c.columns, c.gap, n - 1),
                            y + ColumnDrop(c.align, allotted, height), height, clip)]
  {
    hide Direct, ColumnHeight, ColumnDrop, ColumnLeft;
  }

  lemma {:induction false} ColumnsAreDirect(laid: Box, c: Component, x: int, y: int, allotted: int, clip: Rect,
                                            d: int, other: Rect, n: nat)
    requires c.HStack? && n <= |c.columns| && laid.children == LayoutColumns(c, x, y, allotted, clip, |c.columns|)
    ensures StripSeq(TranslateAll(laid, d, n)) == StripSeq(DirectColumns(c, x, y + d, allotted, other, n))
    decreases c, 0, n
  {
    hide Strip, Translate, Direct, Layout.Layout, ColumnHeight, ColumnDrop, ColumnLeft, StripSeq, TranslateAll,
      LayoutColumns, DirectColumns, DirectColumn;
    if n > 0 {
      var column := c.columns[n - 1];
      var height := ColumnHeight(c.align, allotted, column.naturalHeight);
      var left, top := x + ColumnLeft(c.columns, c.gap, n - 1), y + ColumnDrop(c.align, allotted, height);
      ColumnsAreDirect(laid, c, x, y, allotted, clip, d, other, n - 1);
      ColumnAt(c, x, y, allotted, clip, |c.columns|, n - 1);
      ColumnMoves(column, left, top, height, clip, d, other);
      OneMoreTranslated(laid, d, n);
      OneMoreColumn(c, x, y + d, allotted, other, n);
      StripSnoc(TranslateAll(laid, d, n - 1), Translate(laid.children[n - 1], d));
      StripSnoc(DirectColumns(c, x, y + d, allotted, other, n - 1), DirectColumn(column, left, top + d, height, other));
    }
  }

  // ---- the same boxes ----

  /** The same rectangles and views, and clips with the same points. */
  ghost predicate SameBoxes(a: Box, b: Box)
    decreases a
  {
    && a.rect == b.rect && a.view == b.view && |a.children| == |b.children|
    && (forall x, y :: ContainsPoint(a.clip, x, y) <==> ContainsPoint(b.clip, x, y))
    && (forall i | 0 <= i < |a.children| :: SameBoxes(a.children[i], b.children[i]))
  }

  lemma {:induction false} ClipsFollow(a: Box, p: Rect, b: Box, q: Rect)
    requires Strip(a) == Strip(b) && ExactlyClipped(a, p) && ExactlyClipped(b, q)
    requires forall x, y :: ContainsPoint(p, x, y) <==> ContainsPoint(q, x, y)
    ensures SameBoxes(a, b)
    decreases a
  {
    hide Strip, StripSeq, ContainsPoint;
    StripIs(a);
    StripIs(b);
    forall i | 0 <= i < |a.children|
      ensures SameBoxes(a.children[i], b.children[i])
    {
      StripSeqAt(a.children, i);
      StripSeqAt(b.children, i);
      ClipsFollow(a.children[i], a.clip, b.children[i], b.clip);
    }
  }

  lemma {:induction false} TranslateNothing(b: Box)
    ensures Translate(b, 0) == b
    decreases b, 1
  {
    TranslateAllNothing(b, |b.children|);
    assert b.children[..|b.children|] == b.children;
  }

  lemma {:induction false} TranslateAllNothing(b: Box, n: nat)
    requires n <= |b.children|
    ensures TranslateAll(b, 0, n) == b.children[..n]
    decreases b, 0, n
  {
    hide Translate;
    if n > 0 {
      TranslateAllNothing(b, n - 1);
      TranslateNothing(b.children[n - 1]);
    }
  }

  lemma {:induction false} DirectIsClipped(c: Component, x: int, y: int, width: int, height: Option<int>, clip: Rect)
    ensures ExactlyClipped(Direct(c, x, y, width, height, clip), clip)
    decreases c, 1
  {
    hide Intersect, ContainsPoint, ExactlyClipped, HeightOr, SafeWidth, RowsHeight, TallestColumn, NaturalHeight;
    var b := Direct(c, x, y, width, height, clip);
    IntersectIsBoth(clip, b.rect);
    match c
    case Lines(_) => ClippedFromParts(b, clip);
    case Scroll(_, contentWidth, _, after, content) =>
      DirectIsClipped(content, x, y - after, contentWidth, None, b.clip);
      ClippedFromParts(b, clip);
    case VStack(rows, _) =>
      DirectRowsAreClipped(c, x, y, SafeWidth(width), b.clip, |rows|);
      assert b.children == DirectRows(c, x, y, SafeWidth(width), b.clip, |rows|);
      assert forall i | 0 <= i < |rows| ::
          ExactlyClipped(DirectRows(c, x, y, SafeWidth(width), b.clip, |rows|)[i], b.clip);
      ClippedFromParts(b, clip);
    case HStack(columns, _, _) =>
      DirectColumnsAreClipped(c, x, y, b.rect.height, b.clip, |columns|);
      assert b.children == DirectColumns(c, x, y, b.rect.height, b.clip, |columns|);
      ClippedFromParts(b, clip);
  }

  lemma {:induction false} DirectRowsAreClipped(c: Component, x: int, y: int, width: int, clip: Rect, n: nat)
    requires c.VStack? && n <= |c.rows|
    ensures forall i | 0 <= i < n :: ExactlyClipped(DirectRows(c, x, y, width, clip, n)[i], clip)
    decreases c, 0, n
  {
    hide ExactlyClipped, Direct;
    if n > 0 {
      var row := c.rows[n - 1];
      DirectRowsAreClipped(c, x, y, width, clip, n - 1);
      DirectIsClipped(row.component, x, y + RowTop(c.rows, c.gap, n - 1), width, Some(row.size), clip);
      assert forall i | 0 <= i < n - 1 ::
          DirectRows(c, x, y, width, clip, n)[i] == DirectRows(c, x, y, width, clip, n - 1)[i];
    }
  }

  lemma {:induction false} DirectColumnsAreClipped(c: Component, x: int, y: int, allotted: int, clip: Rect, n: nat)
    requires c.HStack? && n <= |c.columns|
    ensures forall i | 0 <= i < n :: ExactlyClipped(DirectColumns(c, x, y, allotted, clip, n)[i], clip)
    decreases c, 0, n
  {
    hide ExactlyClipped, Direct, ColumnHeight, ColumnDrop;
    if n > 0 {
      var column := c.columns[n - 1];
      var height := ColumnHeight(c.align, allotted, column.naturalHeight);
      var left, top := x + ColumnLeft(c.columns, c.gap, n - 1), y + ColumnDrop(c.align, allotted, height);
      DirectColumnsAreClipped(c, x, y, allotted, clip, n - 1);
      DirectIsClipped(column.component, left, top, column.width, Some(height), clip);
      EmptyIsClipped(left, top, height, clip);
      assert forall i | 0 <= i < n - 1 ::
          DirectColumns(c, x, y, allotted, clip, n)[i] == DirectColumns(c, x, y, allotted, clip, n - 1)[i];
    }
  }

  /** The source's layout, with its moves and its second clipping, is the direct one. */
  lemma {:induction false} LayoutIsDirect(c: Component, x: int, y: int, width: int, height: Option<int>, clip: Rect)
    ensures SameBoxes(Layout.Layout(c, x, y, width, height, clip), Direct(c, x, y, width, height, clip))
  {
    hide Layout.Layout, Direct, Strip, SameBoxes, ExactlyClipped, ContainsPoint;
    var laid := Layout.Layout(c, x, y, width, height, clip);
    MovedIsDirect(c, x, y, width, height, clip, 0, clip);
    TranslateNothing(laid);
    LaidOutIsClipped(c, x, y, width, height, clip);
    DirectIsClipped(c, x, y, width, height, clip);
    ClipsFollow(laid, clip, Direct(c, x, y, width, height, clip), clip);
  }
}
