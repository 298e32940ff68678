/**
 Where a layout puts things: rows follow one another without overlapping, columns too and aligned
 as asked, content is shifted by what its view is scrolled, and what is given no height is as high
 as what it holds.
 */
module Arrangement {
  import opened Wrappers
  import opened Layout
  import opened DirectLayout

  /** The children follow one another downwards, each `gap` below the one before. */
  predicate Stacked(children: seq<Box>, top: int, gap: nat) {
    && (children != [] ==> children[0].rect.y == top)
    && forall i | 0 < i < |children| ::
         children[i].rect.y == children[i - 1].rect.y + children[i - 1].rect.height + gap
  }

  /** The children follow one another to the right. */
  predicate Lined(children: seq<Box>, left: int, gap: nat) {
    && (children != [] ==> children[0].rect.x == left)
    && forall i | 0 < i < |children| ::
         children[i].rect.x == children[i - 1].rect.x + children[i - 1].rect.width + gap
  }

  /** A column's height and place: as high as the box, or as high as it is by nature but no higher
      than the box, at its top, at its bottom, or in the middle, where a line too many is below. */
  predicate Aligned(child: Rect, around: Rect, align: Align, natural: nat) {
    var above := child.y - around.y;
    var below := (around.y + around.height) - (child.y + child.height);
    && child.height == (if align == Stretch || around.height < natural then around.height else natural)
    && match align
       case Stretch => above == 0 && below == 0
       case Start => above == 0
       case End => below == 0
       case Center => above <= below <= above + 1
  }

  /** The height of a box that is given none: its lines, its content's, up to the bottom of its last
      row, or that of its tallest column. */
  predicate Natural(b: Box, c: Component) {
    match c
    case Lines(count) => b.rect.height == count
    case Scroll(_, _, _, _, _) => |b.children| == 1 && b.rect.height == b.children[0].rect.height
    case VStack(rows, _) =>
      if b.children == [] then b.rect.height == 0
      else
        var last := b.children[|b.children| - 1].rect;
        b.rect.y + b.rect.height == last.y + last.height
    case HStack(columns, _, _) =>
      && (forall i | 0 <= i < |columns| :: columns[i].naturalHeight <= b.rect.height)
      && (if columns == [] then b.rect.height == 0
          else exists i | 0 <= i < |columns| :: columns[i].naturalHeight == b.rect.height)
  }

  /** A box and all below it are arranged as their component says. */
  predicate Arranged(b: Box, c: Component)
    decreases c
  {
    match c
    case Lines(_) => b.view == None && b.children == []
    case Scroll(view, contentWidth, _, after, content) =>
      && b.view == Some(view) && |b.children| == 1
      && b.children[0].rect.x == b.rect.x && b.children[0].rect.y == b.rect.y - after
      && b.children[0].rect.width == Max(1, contentWidth)
      && Arranged(b.children[0], content) && Natural(b.children[0], content)
    case VStack(rows, gap) =>
      && b.view == None && |b.children| == |rows| && Stacked(b.children, b.rect.y, gap)
      && forall i | 0 <= i < |rows| ::
           && b.children[i].rect.x == b.rect.x && b.children[i].rect.width == b.rect.width
           && b.children[i].rect.height == rows[i].size
           && Arranged(b.children[i], rows[i].component)
    case HStack(columns, gap, align) =>
      && b.view == None && |b.children| == |columns| && Lined(b.children, b.rect.x, gap)
      && forall i | 0 <= i < |columns| ::
           && b.children[i].rect.width == columns[i].width
           && Aligned(b.children[i].rect, b.rect, align, columns[i].naturalHeight)
           && (if columns[i].width == 0 then b.children[i].view == None && b.children[i].children == []
               else Arranged(b.children[i], columns[i].component))
  }

  lemma {:induction false} DirectRowAt(c: Component, x: int, y: int, width: int, clip: Rect, n: nat, i: nat)
    requires c.VStack? && i < n <= |c.rows|
    ensures DirectRows(c, x, y, width, clip, n)[i] ==
            Direct(c.rows[i].component, x, y + RowTop(c.rows, c.gap, i), width, Some(c.rows[i].size), clip)
  {
    hide Direct;
    if i < n - 1 {
      DirectRowAt(c, x, y, width, clip, n - 1, i);
    }
  }

  /** The place of a column, and what is in it. */
  function PlacedColumn(c: Component, x: int, y: int, allotted: int, clip: Rect, i: nat): Box
    requires c.HStack? && i < |c.columns|
  {
    var column := c.columns[i];
    var height := ColumnHeight(c.align, allotted, column.naturalHeight);
    var left, top := x + ColumnLeft(c.columns, c.gap, i), y + ColumnDrop(c.align, allotted, height);
    if column.width == 0 then Box(Rect(left, top, 0, height), Rect(left, top, 0, 0), None, [])
    else Direct(column.component, left, top, column.width, Some(height), clip)
  }

  lemma {:induction false} DirectColumnAt(c: Component, x: int, y: int, allotted: int, clip: Rect, n: nat, i: nat)
    requires c.HStack? && i < n <= |c.columns|
    ensures DirectColumns(c, x, y, allotted, clip, n)[i] == PlacedColumn(c, x, y, allotted, clip, i)
  {
    hide Direct;
    if i < n - 1 {
      DirectColumnAt(c, x, y, allotted, clip, n - 1, i);
    }
  }

  lemma {:induction false} DirectRect(c: Component, x: int, y: int, width: int, height: Option<int>, clip: Rect)
    ensures var b := Direct(c, x, y, width, height, clip);
            && b.rect.x == x && b.rect.y == y && b.rect.width == Max(1, width)
            && (height.Some? ==> b.rect.height == Max(0, height.value))
            && (height.None? ==> b.rect.height == NaturalHeight(c))
  {
  }

  lemma {:induction false} Tallest(columns: seq<Column>)
    ensures forall i | 0 <= i < |columns| :: columns[i].naturalHeight <= TallestColumn(columns)
    ensures if columns == [] then TallestColumn(columns) == 0
            else exists i | 0 <= i < |columns| :: columns[i].naturalHeight == TallestColumn(columns)
  {
    if columns != [] {
      var k := |columns| - 1;
      Tallest(columns[..k]);
      assert forall i | 0 <= i < k :: columns[..k][i] == columns[i];
      if TallestColumn(columns) != columns[k].naturalHeight {
        var i :| 0 <= i < k && columns[..k][i].naturalHeight == TallestColumn(columns);
        assert columns[i].naturalHeight == TallestColumn(columns);
      } else {
        assert columns[k].naturalHeight == TallestColumn(columns);
      }
    }
  }

  /** A layout in one pass is arranged as its component says; without a height it has its natural
      one. */
  lemma {:induction false} DirectIsArranged(c: Component, x: int, y: int, width: int, height: Option<int>, clip: Rect)
    ensures var b := Direct(c, x, y, width, height, clip);
            Arranged(b, c) && (height.None? ==> Natural(b, c))
    decreases c
  {
    hide Intersect;
    DirectRect(c, x, y, width, height, clip);
    match c
    case Lines(_) =>
    case Scroll(_, contentWidth, _, after, content) =>
      var childClip := Intersect(clip, Direct(c, x, y, width, height, clip).rect);
      DirectRect(content, x, y - after, contentWidth, None, childClip);
      DirectIsArranged(content, x, y - after, contentWidth, None, childClip);
    case VStack(rows, _) => RowsAreArranged(c, x, y, width, height, clip);
    case HStack(columns, _, _) => ColumnsAreArranged(c, x, y, width, height, clip);
  }

  lemma {:induction false} RowsAreArranged(c: Component, x: int, y: int, width: int, height: Option<int>, clip: Rect)
    requires c.VStack?
    ensures var b := Direct(c, x, y, width, height, clip);
            Arranged(b, c) && (height.None? ==> Natural(b, c))
    decreases c, 0
  {
    hide Intersect, Direct, Arranged;
    DirectRect(c, x, y, width, height, clip);
    var b := Direct(c, x, y, width, height, clip);
    var own := b.clip;
    StackIs(c, x, y, width, height, clip);
    forall i | 0 <= i < |c.rows|
      ensures && b.children[i].rect == Rect(x, y + RowTop(c.rows, c.gap, i), b.rect.width, c.rows[i].size)
              && Arranged(b.children[i], c.rows[i].component)
    {
      var row := c.rows[i];
      DirectRowAt(c, x, y, SafeWidth(width), own, |c.rows|, i);
      DirectRect(row.component, x, y + RowTop(c.rows, c.gap, i), SafeWidth(width), Some(row.size), own);
      DirectIsArranged(row.component, x, y + RowTop(c.rows, c.gap, i), SafeWidth(width), Some(row.size), own);
    }
    RowsTogether(b, c);
  }

  lemma {:induction false} StackIs(c: Component, x: int, y: int, width: int, height: Option<int>, clip: Rect)
    requires c.VStack? || c.HStack?
    ensures var b := Direct(c, x, y, width, height, clip);
            && b.view == None
            && b.children == if c.VStack? then DirectRows(c, x, y, SafeWidth(width), b.clip, |c.rows|)
                             else DirectColumns(c, x, y, b.rect.height, b.clip, |c.columns|)
  {
    hide Intersect, DirectRows, DirectColumns;
  }

  lemma {:induction false} RowsTogether(b: Box, c: Component)
    requires c.VStack? && b.view == None && |b.children| == |c.rows|
    requires forall i | 0 <= i < |c.rows| ::
               && b.children[i].rect ==
                  Rect(b.rect.x, b.rect.y + RowTop(c.rows, c.gap, i), b.rect.width, c.rows[i].size)
               && Arranged(b.children[i], c.rows[i].component)
    ensures Arranged(b, c) && (b.rect.height == RowsHeight(c.rows, c.gap) ==> Natural(b, c))
  {
    forall i | 0 < i < |b.children|
      ensures b.children[i].rect.y == b.children[i - 1].rect.y + b.children[i - 1].rect.height + c.gap
    {
      assert b.children[i].rect.y == b.rect.y + RowTop(c.rows, c.gap, i);
      assert b.children[i - 1].rect.y == b.rect.y + RowTop(c.rows, c.gap, i - 1);
    }
  }

  lemma {:induction false} ColumnsAreArranged(c: Component, x: int, y: int, width: int, height: Option<int>, clip: Rect)
    requires c.HStack?
    ensures var b := Direct(c, x, y, width, height, clip);
            Arranged(b, c) && (height.None? ==> Natural(b, c))
    decreases c, 0
  {
    hide Intersect, Direct, Arranged, Aligned;
    DirectRect(c, x, y, width, height, clip);
    var b := Direct(c, x, y, width, height, clip);
    StackIs(c, x, y, width, height, clip);
    Tallest(c.columns);
    forall i | 0 <= i < |c.columns|
      ensures ColumnArranged(b, c, i)
    {
      DirectColumnAt(c, x, y, b.rect.height, b.clip, |c.columns|, i);
      var column := c.columns[i];
      if column.width > 0 {
        var h := ColumnHeight(c.align, b.rect.height, column.naturalHeight);
        var left, top := x + ColumnLeft(c.columns, c.gap, i), y + ColumnDrop(c.align, b.rect.height, h);
        DirectRect(column.component, left, top, column.width, Some(h), b.clip);
        DirectIsArranged(column.component, left, top, column.width, Some(h), b.clip);
      }
      ColumnInPlace(b, c, i, PlacedColumn(c, x, y, b.rect.height, b.clip, i));
    }
    ColumnsTogether(b, c);
  }

  predicate ColumnArranged(b: Box, c: Component, i: nat)
    requires c.HStack? && i < |c.columns|
  {
    && |b.children| == |c.columns|
    && b.children[i].rect.x == b.rect.x + ColumnLeft(c.columns, c.gap, i)
    && b.children[i].rect.width == c.columns[i].width
    && Aligned(b.children[i].rect, b.rect, c.align, c.columns[i].naturalHeight)
    && (if c.columns[i].width == 0 then b.children[i].view == None && b.children[i].children == []
        else Arranged(b.children[i], c.columns[i].component))
  }

  lemma {:induction false} ColumnInPlace(b: Box, c: Component, i: nat, child: Box)
    requires c.HStack? && i < |c.columns| && |b.children| == |c.columns| && child == b.children[i]
    requires 0 <= b.rect.height
    requires var h := ColumnHeight(c.align, b.rect.height, c.columns[i].naturalHeight);
             child.rect == Rect(b.rect.x + ColumnLeft(c.columns, c.gap, i),
                                b.rect.y + ColumnDrop(c.align, b.rect.height, h), c.columns[i].width, h)
    requires if c.columns[i].width == 0 then child.view == None && child.children == []
             else Arranged(child, c.columns[i].component)
    ensures ColumnArranged(b, c, i)
  {
    hide Arranged, ColumnLeft;
  }

  lemma {:induction false} ColumnsTogether(b: Box, c: Component)
    requires c.HStack? && b.view == None && |b.children| == |c.columns|
    requires forall i | 0 <= i < |c.columns| :: ColumnArranged(b, c, i)
    ensures Arranged(b, c)
  {
    hide Aligned;
    assert b.children != [] ==> ColumnArranged(b, c, 0);
    forall i | 0 < i < |b.children|
      ensures b.children[i].rect.x == b.children[i - 1].rect.x + b.children[i - 1].rect.width + c.gap
    {
      assert ColumnArranged(b, c, i) && ColumnArranged(b, c, i - 1);
    }
    forall i | 0 <= i < |c.columns|
      ensures && b.children[i].rect.width == c.columns[i].width
              && Aligned(b.children[i].rect, b.rect, c.align, c.columns[i].naturalHeight)
              && (if c.columns[i].width == 0 then b.children[i].view == None && b.children[i].children == []
                  else Arranged(b.children[i], c.columns[i].component))
    {
      assert ColumnArranged(b, c, i);
    }
  }

  // ---- the layout of the source ----

  /** Arrangement is a matter of rectangles and views only. */
  lemma {:induction false} SameIsArranged(a: Box, b: Box, c: Component)
    requires SameBoxes(a, b) && Arranged(b, c)
    ensures Arranged(a, c)
    decreases c
  {
    match c
    case Lines(_) =>
    case Scroll(_, _, _, _, content) =>
      SameIsArranged(a.children[0], b.children[0], content);
      SameIsNatural(a.children[0], b.children[0], content);
    case VStack(rows, _) =>
      forall i | 0 <= i < |rows|
        ensures Arranged(a.children[i], rows[i].component)
      {
        SameIsArranged(a.children[i], b.children[i], rows[i].component);
      }
    case HStack(columns, _, _) =>
      forall i | 0 <= i < |columns| && columns[i].width > 0
        ensures Arranged(a.children[i], columns[i].component)
      {
        SameIsArranged(a.children[i], b.children[i], columns[i].component);
      }
  }

  lemma {:induction false} SameIsNatural(a: Box, b: Box, c: Component)
    requires SameBoxes(a, b) && Natural(b, c)
    ensures Natural(a, c)
  {
    assert a.rect == b.rect && |a.children| == |b.children|;
    assert forall i | 0 <= i < |a.children| :: SameBoxes(a.children[i], b.children[i]);
  }

  /** Every laid-out tree, with its scroll views laid out where they were and moved afterwards, is at
      the place and in the size that it is given, and arranged as its component says. */
  lemma {:induction false} LayoutIsArranged(c: Component, x: int, y: int, width: int, height: Option<int>, clip: Rect)
    ensures var b := Layout.Layout(c, x, y, width, height, clip);
            && b.rect.x == x && b.rect.y == y && b.rect.width == Max(1, width)
            && (height.Some? ==> b.rect.height == Max(0, height.value))
            && (height.None? ==> Natural(b, c))
            && Arranged(b, c)
  {
    hide Layout.Layout, Direct, Arranged, Intersect;
    LayoutIsDirect(c, x, y, width, height, clip);
    DirectRect(c, x, y, width, height, clip);
    DirectIsArranged(c, x, y, width, height, clip);
    var laid, direct := Layout.Layout(c, x, y, width, height, clip), Direct(c, x, y, width, height, clip);
    SameIsArranged(laid, direct, c);
    if height.None? {
      SameIsNatural(laid, direct, c);
    }
  }
}
