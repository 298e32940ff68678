/**
 The boxes of a layout as objects, moved and clipped in place: translateBox and updateClips of
 packages/tui/src/layout.ts. The way a box is linked to its children never changes; its parent
 link is not modelled.
 */
module LayoutBoxes {
  import opened Wrappers
  import opened Layout

  class LayoutBox {
    var rect: Rect
    var clip: Rect
    const view: Option<nat>
    const children: seq<LayoutBox>
    /** The box and all boxes below it. */
    ghost const Repr: set<LayoutBox>

    constructor (rect: Rect, clip: Rect, view: Option<nat>, children: seq<LayoutBox>)
      requires forall i | 0 <= i < |children| :: children[i].Tree()
      requires forall i, j | 0 <= i < j < |children| :: children[i].Repr !! children[j].Repr
      ensures Tree() && this.rect == rect && this.clip == clip && this.view == view && this.children == children
      ensures Repr == {this} + Union(children)
    {
      this.rect, this.clip, this.view, this.children := rect, clip, view, children;
      Repr := {this} + Union(children);
      new;
      UnionHolds(children);
      assert Tree();
    }

    /** The boxes form a tree. */
    ghost predicate Tree()
      decreases Repr
    {
      && this in Repr
      && (forall i | 0 <= i < |children| ::
            children[i].Repr < Repr && this !in children[i].Repr && children[i].Tree())
      && (forall i, j | 0 <= i < j < |children| :: children[i].Repr !! children[j].Repr)
    }

    ghost function Value(): Box
      requires Tree()
      reads Repr
      decreases Repr, 1
    {
      Box(rect, clip, view, Values(|children|))
    }

    ghost function Values(n: nat): (r: seq<Box>)
      requires Tree() && n <= |children|
      reads Repr
      ensures |r| == n && forall i | 0 <= i < n :: r[i] == children[i].Value()
      decreases Repr, 0, n
    {
      if n == 0 then [] else Values(n - 1) + [children[n - 1].Value()]
    }
  }

  ghost function Union(boxes: seq<LayoutBox>): set<LayoutBox> {
    if boxes == [] then {} else Union(boxes[..|boxes| - 1]) + boxes[|boxes| - 1].Repr
  }

  lemma {:induction false} UnionHolds(boxes: seq<LayoutBox>)
    ensures forall i | 0 <= i < |boxes| :: boxes[i].Repr <= Union(boxes)
  {
    if boxes != [] {
      UnionHolds(boxes[..|boxes| - 1]);
      assert forall i | 0 <= i < |boxes| - 1 :: boxes[..|boxes| - 1][i] == boxes[i];
    }
  }

  /** translateBox. */
  method TranslateBox(box: LayoutBox, deltaY: int)
    requires box.Tree()
    modifies box.Repr
    ensures box.Value() == Translate(old(box.Value()), deltaY)
    decreases box.Repr
  {
    hide Translate;
    ghost var was := box.Value();
    box.rect := box.rect.(y := box.rect.y + deltaY);
    for i := 0 to |box.children|
      invariant box.rect == was.rect.(y := was.rect.y + deltaY) && box.clip == was.clip
      invariant forall j | 0 <= j < i :: box.children[j].Value() == Translate(was.children[j], deltaY)
      invariant forall j | i <= j < |box.children| :: box.children[j].Value() == was.children[j]
    {
      TranslateBox(box.children[i], deltaY);
    }
    TranslatedValue(was, deltaY, box.Value());
  }

  lemma {:induction false} TranslatedValue(was: Box, d: int, now: Box)
    requires now.rect == was.rect.(y := was.rect.y + d) && now.clip == was.clip && now.view == was.view
    requires |now.children| == |was.children|
    requires forall i | 0 <= i < |was.children| :: now.children[i] == Translate(was.children[i], d)
    ensures now == Translate(was, d)
  {
    forall i | 0 <= i < |was.children|
      ensures now.children[i] == TranslateAll(was, d, |was.children|)[i]
    {
      TranslateAt(was, d, |was.children|, i);
    }
  }

  /** updateClips. */
  method UpdateBoxClips(box: LayoutBox, parentClip: Rect)
    requires box.Tree()
    modifies box.Repr
    ensures box.Value() == UpdateClips(old(box.Value()), parentClip)
    decreases box.Repr
  {
    hide UpdateClips, Intersect;
    ghost var was := box.Value();
    box.clip := Intersect(parentClip, box.rect);
    for i := 0 to |box.children|
      invariant box.rect == was.rect && box.clip == Intersect(parentClip, was.rect)
      invariant forall j | 0 <= j < i :: box.children[j].Value() == UpdateClips(was.children[j], box.clip)
      invariant forall j | i <= j < |box.children| :: box.children[j].Value() == was.children[j]
    {
      UpdateBoxClips(box.children[i], box.clip);
    }
    UpdatedValue(was, parentClip, box.Value());
  }

  lemma {:induction false} UpdatedValue(was: Box, parentClip: Rect, now: Box)
    requires now.rect == was.rect && now.clip == Intersect(parentClip, was.rect) && now.view == was.view
    requires |now.children| == |was.children|
    requires forall i | 0 <= i < |was.children| :: now.children[i] == UpdateClips(was.children[i], now.clip)
    ensures now == UpdateClips(was, parentClip)
  {
    hide Intersect;
    forall i | 0 <= i < |was.children|
      ensures now.children[i] == UpdateAll(was, now.clip, |was.children|)[i]
    {
      UpdateAt(was, now.clip, |was.children|, i);
    }
  }
}
