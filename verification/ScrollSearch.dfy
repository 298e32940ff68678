/**
 Which scroll views getScrollViewsAt of packages/tui/src/layout.ts finds, and in which order, said
 of the paths from the root of a frame to its boxes.
 */
module ScrollSearch {
  import opened Wrappers
  import opened StableSort
  import opened Layout

  /** A path to a box: at each step the number of a child. */
  type Path = seq<nat>

  predicate Leads(b: Box, p: Path)
    decreases |p|
  {
    p == [] || (p[0] < |b.children| && Leads(b.children[p[0]], p[1..]))
  }

  function At(b: Box, p: Path): Box
    requires Leads(b, p)
    decreases |p|
  {
    if p == [] then b else At(b.children[p[0]], p[1..])
  }

  /** The path leads to a scroll view, and all boxes on it contain the point. */
  predicate Found(b: Box, p: Path, x: int, y: int) {
    Leads(b, p) && At(b, p).view.Some? && forall n | 0 <= n <= |p| :: HoldsAt(b, p, n, x, y)
  }

  predicate HoldsAt(b: Box, p: Path, n: nat, x: int, y: int)
    requires n <= |p|
  {
    Leads(b, p[..n]) && ContainsPoint(At(b, p[..n]).rect, x, y)
  }

  /** The order of a document: a box comes before what is in it, and that before its next sibling. */
  predicate Before(p: Path, q: Path) {
    q != [] && (p == [] || p[0] < q[0] || (p[0] == q[0] && Before(p[1..], q[1..])))
  }

  lemma {:induction false} FoundBelow(b: Box, i: nat, q: Path, x: int, y: int)
    ensures Found(b, [i] + q, x, y) <==>
            i < |b.children| && ContainsPoint(b.rect, x, y) && Found(b.children[i], q, x, y)
    ensures Found(b, [i] + q, x, y) ==> At(b, [i] + q) == At(b.children[i], q)
  {
    hide ContainsPoint;
    var p := [i] + q;
    assert p[1..] == q;
    if i < |b.children| {
      forall n | 0 <= n <= |q|
        ensures HoldsAt(b, p, n + 1, x, y) <==> HoldsAt(b.children[i], q, n, x, y)
      {
        assert p[..n + 1] == [i] + q[..n] && p[..n + 1][1..] == q[..n];
      }
      assert HoldsAt(b, p, 0, x, y) <==> ContainsPoint(b.rect, x, y) by { assert p[..0] == []; }
      if ContainsPoint(b.rect, x, y) && Found(b.children[i], q, x, y) {
        forall n | 0 <= n <= |p|
          ensures HoldsAt(b, p, n, x, y)
        {
          assert n > 0 ==> HoldsAt(b.children[i], q, n - 1, x, y);
        }
      }
    }
  }

  lemma {:induction false} FoundHere(b: Box, x: int, y: int)
    ensures Found(b, [], x, y) <==> b.view.Some? && ContainsPoint(b.rect, x, y)
  {
    hide ContainsPoint;
    var p: Path := [];
    assert p[..0] == [] && (HoldsAt(b, p, 0, x, y) <==> ContainsPoint(b.rect, x, y));
  }

  lemma {:induction false} FoundInside(b: Box, p: Path, x: int, y: int)
    requires Found(b, p, x, y)
    ensures ContainsPoint(b.rect, x, y)
  {
    hide ContainsPoint;
    assert HoldsAt(b, p, 0, x, y) && p[..0] == [];
  }

  // ---- the paths that a scan finds ----

  function Under(i: nat, qs: seq<Path>): (ps: seq<Path>)
    ensures |ps| == |qs| && forall k | 0 <= k < |ps| :: ps[k] == [i] + qs[k]
  {
    if qs == [] then [] else Under(i, qs[..|qs| - 1]) + [[i] + qs[|qs| - 1]]
  }

  /** The paths found below a box, in the order of the scan. */
  ghost function Paths(b: Box, x: int, y: int): seq<Path>
    decreases b, 1
  {
    if !ContainsPoint(b.rect, x, y) then []
    else (if b.view.Some? then [[]] else []) + PathsAmong(b, x, y, |b.children|)
  }

  ghost function PathsAmong(b: Box, x: int, y: int, n: nat): seq<Path>
    requires n <= |b.children|
    decreases b, 0, n
  {
    if n == 0 then [] else PathsAmong(b, x, y, n - 1) + Under(n - 1, Paths(b.children[n - 1], x, y))
  }

  predicate Increasing(ps: seq<Path>) { forall i, j | 0 <= i < j < |ps| :: Before(ps[i], ps[j]) }

  lemma {:induction false} PathsAreFound(b: Box, x: int, y: int, p: Path)
    ensures p in Paths(b, x, y) <==> Found(b, p, x, y)
    ensures Increasing(Paths(b, x, y))
    decreases b, 1
  {
    hide ContainsPoint, Found, Before;
    if !ContainsPoint(b.rect, x, y) {
      if Found(b, p, x, y) {
        FoundInside(b, p, x, y);
      }
    } else {
      PathsAmongAreFound(b, x, y, |b.children|, p);
      FoundHere(b, x, y);
      if p != [] {
        assert p == [p[0]] + p[1..];
        FoundBelow(b, p[0], p[1..], x, y);
      }
      HereFirst(PathsAmong(b, x, y, |b.children|));
    }
  }

  lemma {:induction false} HereFirst(ps: seq<Path>)
    requires Increasing(ps) && [] !in ps
    ensures Increasing([[]] + ps) && [] + ps == ps
  {
    hide Before;
    var all := [[]] + ps;
    forall i, j | 0 <= i < j < |all|
      ensures Before(all[i], all[j])
    {
      assert all[j] == ps[j - 1] && all[j] in ps;
      if i > 0 {
        assert all[i] == ps[i - 1];
      } else {
        RootFirst(all[j]);
      }
    }
  }

  lemma {:induction false} RootFirst(p: Path)
    requires p != []
    ensures Before([], p)
  {
  }

  lemma {:induction false} PathsAmongAreFound(b: Box, x: int, y: int, n: nat, p: Path)
    requires n <= |b.children| && ContainsPoint(b.rect, x, y)
    ensures p in PathsAmong(b, x, y, n) <==> p != [] && p[0] < n && Found(b.children[p[0]], p[1..], x, y)
    ensures Increasing(PathsAmong(b, x, y, n)) && [] !in PathsAmong(b, x, y, n)
    ensures forall q | q in PathsAmong(b, x, y, n) :: q != [] && q[0] < n
    decreases b, 0, n
  {
    hide ContainsPoint, Found, Before, Increasing;
    if n == 0 {
      assert Increasing([]) by { NoneIncreasing(); }
    } else {
      var qs := Paths(b.children[n - 1], x, y);
      PathsAmongAreFound(b, x, y, n - 1, p);
      PathsAreFound(b.children[n - 1], x, y, if p == [] then [] else p[1..]);
      UnderHas(n - 1, qs, p);
      OneAfterTheOther(PathsAmong(b, x, y, n - 1), n - 1, qs);
    }
  }

  lemma {:induction false} NoneIncreasing()
    ensures Increasing([])
  {
  }

  lemma {:induction false} UnderHas(i: nat, qs: seq<Path>, p: Path)
    ensures p in Under(i, qs) <==> p != [] && p[0] == i && p[1..] in qs
  {
    if p in Under(i, qs) {
      var k :| 0 <= k < |qs| && Under(i, qs)[k] == p;
      assert p[1..] == qs[k];
    }
    if p != [] && p[0] == i && p[1..] in qs {
      var k :| 0 <= k < |qs| && qs[k] == p[1..];
      assert Under(i, qs)[k] == p;
    }
  }

  lemma {:induction false} OneAfterTheOther(ps: seq<Path>, i: nat, qs: seq<Path>)
    requires Increasing(ps) && Increasing(qs) && forall q | q in ps :: q != [] && q[0] < i
    ensures Increasing(ps + Under(i, qs)) && forall q | q in ps + Under(i, qs) :: q != [] && q[0] <= i
  {
    var under := Under(i, qs);
    var all := ps + under;
    forall j, k | 0 <= j < k < |all|
      ensures Before(all[j], all[k])
    {
      if j < |ps| {
        assert all[j] in ps;
      } else {
        assert all[j] == [i] + qs[j - |ps|] && all[k] == [i] + qs[k - |ps|];
        assert all[j][1..] == qs[j - |ps|] && all[k][1..] == qs[k - |ps|];
      }
    }
  }

  /** What a path is found as: its view, the deeper the smaller. */
  function KeyedAt(b: Box, depth: nat, p: Path): Keyed<nat>
    requires Leads(b, p) && At(b, p).view.Some?
  {
    Keyed(At(b, p).view.value, -((depth + |p|) as int))
  }

  predicate Shows(b: Box, depth: nat, ps: seq<Path>, s: seq<Keyed<nat>>) {
    && |s| == |ps|
    && forall k | 0 <= k < |ps| ::
         Leads(b, ps[k]) && At(b, ps[k]).view.Some? && s[k] == KeyedAt(b, depth, ps[k])
  }

  lemma {:induction false} ScanShows(b: Box, depth: nat, x: int, y: int)
    ensures Shows(b, depth, Paths(b, x, y), Exhaustive(b, depth, x, y, true))
    decreases b, 1
  {
    hide ContainsPoint;
    if ContainsPoint(b.rect, x, y) {
      ScanShowsAmong(b, depth, x, y, |b.children|);
      ShowsHere(b, depth, PathsAmong(b, x, y, |b.children|), ExhaustiveAll(b, depth, x, y, true, |b.children|));
    } else {
      NothingOutside(b, depth, x, y, |b.children|);
    }
  }

  lemma {:induction false} ShowsHere(b: Box, depth: nat, ps: seq<Path>, s: seq<Keyed<nat>>)
    requires Shows(b, depth, ps, s)
    ensures b.view.Some? ==> Shows(b, depth, [[]] + ps, [Keyed(b.view.value, -(depth as int))] + s)
    ensures [] + ps == ps && [] + s == s
  {
    var all := [[]] + ps;
    assert forall k | 0 < k < |all| :: all[k] == ps[k - 1];
  }

  lemma {:induction false} ScanShowsAmong(b: Box, depth: nat, x: int, y: int, n: nat)
    requires n <= |b.children|
    ensures Shows(b, depth, PathsAmong(b, x, y, n), ExhaustiveAll(b, depth, x, y, true, n))
    decreases b, 0, n
  {
    hide ContainsPoint, Shows, Paths, Exhaustive;
    if n == 0 {
      ShowsNone(b, depth);
    } else {
      ScanShowsAmong(b, depth, x, y, n - 1);
      ScanShows(b.children[n - 1], depth + 1, x, y);
      ShowsUnder(b, depth, n - 1, Paths(b.children[n - 1], x, y), Exhaustive(b.children[n - 1], depth + 1, x, y, true));
      ShowsBoth(b, depth, PathsAmong(b, x, y, n - 1), ExhaustiveAll(b, depth, x, y, true, n - 1),
                Under(n - 1, Paths(b.children[n - 1], x, y)), Exhaustive(b.children[n - 1], depth + 1, x, y, true));
    }
  }

  lemma {:induction false} ShowsNone(b: Box, depth: nat)
    ensures Shows(b, depth, [], [])
  {
  }

  lemma {:induction false} ShowsUnder(b: Box, depth: nat, i: nat, qs: seq<Path>, s: seq<Keyed<nat>>)
    requires i < |b.children| && Shows(b.children[i], depth + 1, qs, s)
    ensures Shows(b, depth, Under(i, qs), s)
  {
    forall k | 0 <= k < |qs|
      ensures var p := Under(i, qs)[k];
              Leads(b, p) && At(b, p).view.Some? && s[k] == KeyedAt(b, depth, p)
    {
      assert ([i] + qs[k])[1..] == qs[k];
    }
  }

  lemma {:induction false} ShowsBoth(b: Box, depth: nat, ps: seq<Path>, s: seq<Keyed<nat>>,
                                     qs: seq<Path>, t: seq<Keyed<nat>>)
    requires Shows(b, depth, ps, s) && Shows(b, depth, qs, t)
    ensures Shows(b, depth, ps + qs, s + t)
  {
  }

  // ---- the order of the result ----

  /** Deeper boxes first, and at equal depth in the order of the document. */
  predicate Earlier(p: Path, q: Path) { |p| > |q| || (|p| == |q| && Before(p, q)) }

  predicate InOrder(ps: seq<Path>) { forall i, j | 0 <= i < j < |ps| :: Earlier(ps[i], ps[j]) }

  /** `x` behind all paths that are not less deep, as the sort puts it. */
  ghost function InsertPath(ps: seq<Path>, x: Path): seq<Path> {
    if ps == [] || |ps[|ps| - 1]| >= |x| then ps + [x]
    else InsertPath(ps[..|ps| - 1], x) + [ps[|ps| - 1]]
  }

  ghost function SortPaths(ps: seq<Path>): seq<Path> {
    if ps == [] then [] else InsertPath(SortPaths(ps[..|ps| - 1]), ps[|ps| - 1])
  }

  lemma {:induction false} InsertShows(b: Box, ps: seq<Path>, s: seq<Keyed<nat>>, p: Path)
    requires Shows(b, 0, ps, s) && Leads(b, p) && At(b, p).view.Some?
    ensures Shows(b, 0, InsertPath(ps, p), Insert(s, KeyedAt(b, 0, p)))
  {
    if ps != [] && |ps[|ps| - 1]| < |p| {
      InsertShows(b, ps[..|ps| - 1], s[..|s| - 1], p);
    }
  }

  lemma {:induction false} SortShows(b: Box, ps: seq<Path>, s: seq<Keyed<nat>>)
    requires Shows(b, 0, ps, s)
    ensures Shows(b, 0, SortPaths(ps), Sort(s))
  {
    if ps != [] {
      SortShows(b, ps[..|ps| - 1], s[..|s| - 1]);
      InsertShows(b, SortPaths(ps[..|ps| - 1]), Sort(s[..|s| - 1]), ps[|ps| - 1]);
    }
  }

  lemma {:induction false} InsertHas(ps: seq<Path>, x: Path, p: Path)
    ensures p in InsertPath(ps, x) <==> p == x || p in ps
  {
    if ps != [] {
      var k := |ps| - 1;
      assert ps == ps[..k] + [ps[k]];
      if |ps[k]| < |x| {
        InsertHas(ps[..k], x, p);
      }
    }
  }

  lemma {:induction false} SortHas(ps: seq<Path>, p: Path)
    ensures p in SortPaths(ps) <==> p in ps
  {
    if ps != [] {
      var k := |ps| - 1;
      assert ps == ps[..k] + [ps[k]];
      SortHas(ps[..k], p);
      InsertHas(SortPaths(ps[..k]), ps[k], p);
    }
  }

  lemma {:induction false} InsertOrders(ps: seq<Path>, x: Path)
    requires InOrder(ps) && forall p | p in ps :: Before(p, x)
    ensures InOrder(InsertPath(ps, x))
  {
    hide Before;
    if ps != [] {
      var k := |ps| - 1;
      if |ps[k]| < |x| {
        InsertOrders(ps[..k], x);
        var all := InsertPath(ps[..k], x);
        forall i | 0 <= i < |all|
          ensures Earlier(all[i], ps[k])
        {
          InsertHas(ps[..k], x, all[i]);
          assert all[i] in all;
        }
      } else {
        forall i | 0 <= i < |ps|
          ensures Earlier(ps[i], x)
        {
          assert i < k ==> Earlier(ps[i], ps[k]);
          assert ps[i] in ps;
        }
      }
    }
  }

  lemma {:induction false} SortOrders(ps: seq<Path>)
    requires Increasing(ps)
    ensures InOrder(SortPaths(ps))
  {
    hide Before;
    if ps != [] {
      var k := |ps| - 1;
      SortOrders(ps[..k]);
      forall p | p in SortPaths(ps[..k])
        ensures Before(p, ps[k])
      {
        SortHas(ps[..k], p);
      }
      InsertOrders(SortPaths(ps[..k]), ps[k]);
    }
  }

  /** The views that the paths lead to, one by one. */
  predicate Views(b: Box, ps: seq<Path>, views: seq<nat>) {
    |views| == |ps| && forall k | 0 <= k < |ps| :: Leads(b, ps[k]) && At(b, ps[k]).view == Some(views[k])
  }

  /** In every laid-out frame, the search gives exactly the scroll views that contain the point and
      whose surrounding boxes all do, each of them once: the deepest first, and at equal depth in the
      order of the document. Without a point on the screen there are none. */
  lemma {:induction false} SearchExactly(c: Component, width: int, height: int, x: int, y: int)
    returns (paths: seq<Path>)
    ensures var clip := Rect(0, 0, SafeWidth(width), SafeWidth(height));
            var root := Layout.Layout(c, 0, 0, clip.width, Some(clip.height), clip);
            && Views(root, paths, ViewsOf(Sort(Visit(root, 0, x, y))))
            && (forall p :: p in paths <==> ContainsPoint(clip, x, y) && Found(root, p, x, y))
            && InOrder(paths)
  {
    hide Layout.Layout, Visit, Exhaustive, Sort, ExactlyClipped, ContainsPoint, Paths, Found, SortPaths, Shows, InOrder,
      Increasing, Views;
    var clip := Rect(0, 0, SafeWidth(width), SafeWidth(height));
    var root := Layout.Layout(c, 0, 0, clip.width, Some(clip.height), clip);
    LaidOutIsClipped(c, 0, 0, clip.width, Some(clip.height), clip);
    PruningIsExact(root, 0, x, y, clip);
    var unsorted: seq<Path> := [];
    if ContainsPoint(clip, x, y) {
      unsorted := Paths(root, x, y);
      ScanShows(root, 0, x, y);
      PathsAreFound(root, x, y, []);
    } else {
      OutsideIsNothing(root, 0, x, y);
      ShowsNone(root, 0);
      NoneIncreasing();
    }
    paths := SortPaths(unsorted);
    SortShows(root, unsorted, Visit(root, 0, x, y));
    forall p: Path
      ensures p in paths <==> ContainsPoint(clip, x, y) && Found(root, p, x, y)
    {
      SortHas(unsorted, p);
      PathsAreFound(root, x, y, p);
    }
    SortOrders(unsorted);
    ShowsViews(root, paths, Sort(Visit(root, 0, x, y)));
  }

  lemma {:induction false} ShowsViews(b: Box, ps: seq<Path>, s: seq<Keyed<nat>>)
    requires Shows(b, 0, ps, s)
    ensures Views(b, ps, ViewsOf(s))
  {
  }
}
