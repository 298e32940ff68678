/**
 sanitizeProtocolDetails of packages/server/src/protocol.ts: what it makes of any object graph
 is a protocol value, and a fixed point of the strict copy, unless a property called
 `__proto__` gets in the way. The copies are new objects behind those that exist.
 */
module SanitizedDetails {
  import opened Wrappers
  import opened ObjectGraph
  import opened JsonCopies

  const CIRCULAR := "[Circular]"

  function SanitizedLeaf(v: Value): Option<Json>
    requires !v.Ref?
  {
    match v
    case Null => Some(JNull)
    case Flag(b) => Some(JFlag(b))
    case Number(n) => Some(JNumber(n))
    case Text(s) => Some(JText(s))
    case NonFinite(text) => Some(JText(text))
    case Big(text) => Some(JText(text))
    case _ => None
  }

  function Sanitize(g: Graph, v: Value, seen: set<nat>): Option<Json>
    requires Closed(g) && ValueIn(g, v)
    decreases Fresh(g, seen), 0
  {
    if !v.Ref? then SanitizedLeaf(v)
    else if g[v.node].Date? then Some(JText(g[v.node].iso))
    else if v.node in seen then Some(JText(CIRCULAR))
    else
      FreshLess(g, seen, v.node);
      if g[v.node].Array? then Some(JArray(SanitizeItems(g, g[v.node].items, seen + {v.node})))
      else Some(SanitizeEntries(g, g[v.node].entries, seen + {v.node}))
  }

  function SanitizeItems(g: Graph, items: seq<Value>, seen: set<nat>): seq<Json>
    requires Closed(g) && forall i | 0 <= i < |items| :: ValueIn(g, items[i])
    decreases Fresh(g, seen), 1, |items|
  {
    if items == [] then []
    else
      var k := |items| - 1;
      SanitizeItems(g, items[..k], seen) + [Sanitize(g, items[k], seen).GetOr(JNull)]
  }

  function SanitizeEntries(g: Graph, entries: seq<Entry>, seen: set<nat>): (o: Json)
    requires Closed(g) && forall i | 0 <= i < |entries| :: ValueIn(g, entries[i].value)
    ensures o.JObject?
    decreases Fresh(g, seen), 1, |entries|
  {
    if entries == [] then JObject(Plain, [])
    else
      var k := |entries| - 1;
      var before := SanitizeEntries(g, entries[..k], seen);
      var normalized := Sanitize(g, entries[k].value, seen);
      if normalized.None? then before else Assign(before, entries[k].key, normalized.value)
  }

  // ---- what is kept ----

  /** What the strict copy accepts is sanitized to the same tree. */
  lemma {:induction false} CopiedIsSanitized(g: Graph, v: Value, seen: set<nat>)
    requires Closed(g) && ValueIn(g, v) && Convert(g, v, seen).Ok?
    ensures Sanitize(g, v, seen) == Some(Convert(g, v, seen).value)
    decreases Fresh(g, seen), 0
  {
    hide Closed, Fresh, ConvertItems, ConvertEntries, SanitizeItems, SanitizeEntries;
    if v.Ref? {
      FreshLess(g, seen, v.node);
      ChildrenIn(g, v.node);
      if g[v.node].Array? {
        CopiedItems(g, g[v.node].items, seen + {v.node});
      } else {
        CopiedEntries(g, g[v.node].entries, seen + {v.node});
      }
    }
  }

  lemma {:induction false} CopiedItems(g: Graph, items: seq<Value>, seen: set<nat>)
    requires Closed(g) && forall i | 0 <= i < |items| :: ValueIn(g, items[i])
    requires ConvertItems(g, items, seen).Ok?
    ensures SanitizeItems(g, items, seen) == ConvertItems(g, items, seen).value
    decreases Fresh(g, seen), 1, |items|
  {
    hide Closed, Fresh, Convert, Sanitize;
    if items != [] {
      CopiedItems(g, items[..|items| - 1], seen);
      CopiedIsSanitized(g, items[|items| - 1], seen);
    }
  }

  lemma {:induction false} CopiedEntries(g: Graph, entries: seq<Entry>, seen: set<nat>)
    requires Closed(g) && forall i | 0 <= i < |entries| :: ValueIn(g, entries[i].value)
    requires ConvertEntries(g, entries, seen).Ok?
    ensures SanitizeEntries(g, entries, seen) == ConvertEntries(g, entries, seen).value
    decreases Fresh(g, seen), 1, |entries|
  {
    hide Closed, Fresh, Convert, Sanitize, Assign;
    if entries != [] {
      CopiedEntries(g, entries[..|entries| - 1], seen);
      CopiedIsSanitized(g, entries[|entries| - 1].value, seen);
    }
  }

  /** Values that JSON has nothing for. */
  predicate Unshown(v: Value) { v.Undefined? || v.Function? || v.Symbol? }

  /** The properties that the copy of an object has: those that show anything, but `__proto__`. */
  function ShownEntries(entries: seq<Entry>): (shown: seq<Entry>)
    ensures forall i | 0 <= i < |shown| :: shown[i] in entries
  {
    if entries == [] then []
    else
      var last := entries[|entries| - 1];
      ShownEntries(entries[..|entries| - 1]) + if Unshown(last.value) || last.key == PROTO then [] else [last]
  }

  /** The tree shows the value: all its leaves, arrays item by item with null where nothing can be
      shown, records property by property without those, and objects of the path as such. */
  predicate Shows(g: Graph, v: Value, j: Json, seen: set<nat>)
    decreases j
  {
    match v
    case Null => j == JNull
    case Flag(b) => j == JFlag(b)
    case Number(n) => j == JNumber(n)
    case Text(s) => j == JText(s)
    case NonFinite(printed) => j == JText(printed)
    case Big(printed) => j == JText(printed)
    case Ref(n) => n < |g| && ShowsNode(g, n, j, seen)
    case _ => false
  }

  predicate ShowsNode(g: Graph, n: nat, j: Json, seen: set<nat>)
    requires n < |g|
    decreases j, 0
  {
    if g[n].Date? then j == JText(g[n].iso)
    else if n in seen then j == JText(CIRCULAR)
    else if g[n].Array? then
      && j.JArray? && |j.items| == |g[n].items|
      && forall i | 0 <= i < |j.items| ::
           if Unshown(g[n].items[i]) then j.items[i] == JNull else Shows(g, g[n].items[i], j.items[i], seen + {n})
    else
      var shown := ShownEntries(g[n].entries);
      && j.JObject? && |j.members| == |shown|
      && forall i | 0 <= i < |shown| ::
           j.members[i].key == shown[i].key && Shows(g, shown[i].value, j.members[i].value, seen + {n})
  }

  /** The sanitizer makes nothing of the values that JSON has nothing for, and of every other one a
      tree that shows it. */
  lemma {:induction false} SanitizedShows(g: Graph, v: Value, seen: set<nat>)
    requires Closed(g) && ValueIn(g, v)
    ensures Sanitize(g, v, seen).None? <==> Unshown(v)
    ensures !Unshown(v) ==> Shows(g, v, Sanitize(g, v, seen).value, seen)
    decreases Fresh(g, seen), 0
  {
    hide Closed, Fresh, SanitizeItems, SanitizeEntries, ShownEntries;
    if v.Ref? && !g[v.node].Date? && v.node !in seen {
      FreshLess(g, seen, v.node);
      ChildrenIn(g, v.node);
      if g[v.node].Array? {
        ItemsShown(g, g[v.node].items, seen + {v.node});
      } else {
        EntriesShown(g, g[v.node].entries, seen + {v.node});
      }
    }
  }

  lemma {:induction false} ItemsShown(g: Graph, items: seq<Value>, seen: set<nat>)
    requires Closed(g) && forall i | 0 <= i < |items| :: ValueIn(g, items[i])
    ensures var r := SanitizeItems(g, items, seen);
            |r| == |items| && forall i | 0 <= i < |items| ::
              if Unshown(items[i]) then r[i] == JNull else Shows(g, items[i], r[i], seen)
    decreases Fresh(g, seen), 1, |items|
  {
    hide Closed, Fresh, Sanitize, Shows, Unshown;
    if items != [] {
      var k := |items| - 1;
      ItemsShown(g, items[..k], seen);
      SanitizedShows(g, items[k], seen);
      assert forall i | 0 <= i < k :: items[..k][i] == items[i];
    }
  }

  lemma {:induction false} EntriesShown(g: Graph, entries: seq<Entry>, seen: set<nat>)
    requires Closed(g) && forall i | 0 <= i < |entries| :: ValueIn(g, entries[i].value)
    ensures var o, shown := SanitizeEntries(g, entries, seen), ShownEntries(entries);
            |o.members| == |shown| && forall i | 0 <= i < |shown| ::
              o.members[i].key == shown[i].key && Shows(g, shown[i].value, o.members[i].value, seen)
    decreases Fresh(g, seen), 1, |entries|
  {
    hide Closed, Fresh, Sanitize, Shows, Unshown;
    if entries != [] {
      var k := |entries| - 1;
      EntriesShown(g, entries[..k], seen);
      SanitizedShows(g, entries[k].value, seen);
      assert forall i | 0 <= i < k :: entries[..k][i] == entries[i];
    }
  }

  // ---- what becomes of prototypes ----

  /** Assigned to `__proto__`, the copy of this value replaces a prototype: null does, which leaves
      an object without one, and so does an array or record that is not on the path already. */
  predicate Replaces(g: Graph, v: Value, path: set<nat>, strictly: bool) {
    (strictly && v.Null?) || (v.Ref? && v.node < |g| && !g[v.node].Date? && v.node !in path)
  }

  predicate MakesPrototype(j: Json, strictly: bool) { j.JArray? || j.JObject? || (strictly && j.JNull?) }

  predicate Overwrites(g: Graph, n: Node, path: set<nat>, strictly: bool) {
    n.Record? && exists i | 0 <= i < |n.entries| ::
                   n.entries[i].key == PROTO && Replaces(g, n.entries[i].value, path, strictly)
  }

  function Elements(p: seq<nat>): (all: set<nat>)
    ensures forall n :: n in all <==> n in p
  {
    if p == [] then {} else Elements(p[..|p| - 1]) + {p[|p| - 1]}
  }

  /** A path that the sanitizer follows: it stops at dates and at what it has on its path. */
  predicate Followed(g: Graph, p: seq<nat>, seen: set<nat>)
    requires Path(g, p)
  {
    && (forall i | 0 <= i < |p| :: p[i] !in seen && !g[p[i]].Date?)
    && (forall i, j | 0 <= i < j < |p| :: p[i] != p[j])
  }

  predicate KeptAt(g: Graph, p: seq<nat>, seen: set<nat>, strictly: bool)
    requires Path(g, p)
  {
    p != [] ==> !Overwrites(g, g[p[|p| - 1]], seen + Elements(p), strictly)
  }

  /** No object that the sanitizer meets has a property of its own that is called `__proto__` and
      replaces the prototype of its copy. */
  ghost predicate Keeps(g: Graph, v: Value, seen: set<nat>, strictly: bool) {
    forall p | Walk(g, v, p) && Followed(g, p, seen) :: KeptAt(g, p, seen, strictly)
  }

  lemma {:induction false} ElementsMore(n: nat, q: seq<nat>)
    ensures Elements([n] + q) == {n} + Elements(q)
  {
  }

  /** Following a path from an object is following its rest from what the object holds. */
  lemma {:induction false} FollowedMore(g: Graph, n: nat, q: seq<nat>, seen: set<nat>)
    requires n < |g| && Path(g, q) && Path(g, [n] + q)
    ensures Followed(g, [n] + q, seen) <==> n !in seen && !g[n].Date? && Followed(g, q, seen + {n})
  {
    hide Child, Path;
    var p := [n] + q;
    assert p[0] == n && p[1..] == q;
    if Followed(g, p, seen) {
      assert forall i | 0 <= i < |q| :: p[i + 1] == q[i] && p[i + 1] != p[0];
    }
    if n !in seen && !g[n].Date? && Followed(g, q, seen + {n}) {
      FollowedFrom(g, n, q, seen);
    }
  }

  lemma {:induction false} FollowedFrom(g: Graph, n: nat, q: seq<nat>, seen: set<nat>)
    requires n < |g| && Path(g, q) && Path(g, [n] + q)
    requires n !in seen && !g[n].Date? && Followed(g, q, seen + {n})
    ensures Followed(g, [n] + q, seen)
  {
    hide Child, Path;
    var p := [n] + q;
    assert p[0] == n && forall i | 0 < i < |p| :: p[i] == q[i - 1];
  }

  lemma {:induction false} KeptMore(g: Graph, n: nat, q: seq<nat>, seen: set<nat>, strictly: bool)
    requires n < |g| && Path(g, q) && Path(g, [n] + q) && q != []
    ensures KeptAt(g, [n] + q, seen, strictly) <==> KeptAt(g, q, seen + {n}, strictly)
  {
    hide Child, Path, Overwrites, Elements;
    var p := [n] + q;
    assert p[|p| - 1] == q[|q| - 1];
    ElementsMore(n, q);
    assert seen + Elements(p) == seen + {n} + Elements(q);
  }

  lemma {:induction false} NodeKeeps(g: Graph, n: nat, seen: set<nat>, strictly: bool)
    requires n < |g| && n !in seen && !g[n].Date?
    ensures Keeps(g, Ref(n), seen, strictly)
            <==> !Overwrites(g, g[n], seen + {n}, strictly)
                 && forall c | Child(g[n], c) :: Keeps(g, c, seen + {n}, strictly)
  {
    hide Child, Overwrites;
    if Keeps(g, Ref(n), seen, strictly) {
      assert Walk(g, Ref(n), [n]) && Followed(g, [n], seen);
      assert KeptAt(g, [n], seen, strictly) && [n][0] == n && Elements([n]) == {n};
      forall c | Child(g[n], c)
        ensures Keeps(g, c, seen + {n}, strictly)
      {
        KeepsBelow(g, n, c, seen, strictly);
      }
    }
    if !Overwrites(g, g[n], seen + {n}, strictly) && forall c | Child(g[n], c) :: Keeps(g, c, seen + {n}, strictly) {
      hide Followed, KeptAt;
      forall p | Walk(g, Ref(n), p) && Followed(g, p, seen)
        ensures KeptAt(g, p, seen, strictly)
      {
        KeptFromBelow(g, n, p, seen, strictly);
      }
    }
  }

  lemma {:induction false} KeepsBelow(g: Graph, n: nat, c: Value, seen: set<nat>, strictly: bool)
    requires n < |g| && n !in seen && !g[n].Date? && Child(g[n], c) && Keeps(g, Ref(n), seen, strictly)
    ensures Keeps(g, c, seen + {n}, strictly)
  {
    hide Child, Overwrites, Followed;
    forall q | Walk(g, c, q) && Followed(g, q, seen + {n})
      ensures KeptAt(g, q, seen + {n}, strictly)
    {
      if q != [] {
        PathMore(g, n, q);
        FollowedMore(g, n, q, seen);
        KeptMore(g, n, q, seen, strictly);
        assert Walk(g, Ref(n), [n] + q);
      }
    }
  }

  lemma {:induction false} KeptFromBelow(g: Graph, n: nat, p: seq<nat>, seen: set<nat>, strictly: bool)
    requires n < |g| && n !in seen && !g[n].Date? && Walk(g, Ref(n), p) && Followed(g, p, seen)
    requires !Overwrites(g, g[n], seen + {n}, strictly)
    requires forall c | Child(g[n], c) :: Keeps(g, c, seen + {n}, strictly)
    ensures KeptAt(g, p, seen, strictly)
  {
    hide Child, Overwrites, Followed;
    if p != [] {
      PathLess(g, p);
      var q := p[1..];
      assert p == [n] + q;
      FollowedMore(g, n, q, seen);
      if q == [] {
        assert Elements(p) == {n};
      } else {
        KeptMore(g, n, q, seen, strictly);
        assert Child(g[n], Ref(q[0])) && Walk(g, Ref(q[0]), q);
      }
    }
  }

  lemma {:induction false} NothingFollowed(g: Graph, v: Value, seen: set<nat>, strictly: bool)
    requires v.Ref? && v.node < |g| ==> v.node in seen || g[v.node].Date?
    ensures Keeps(g, v, seen, strictly)
  {
    forall p | Walk(g, v, p) && Followed(g, p, seen)
      ensures KeptAt(g, p, seen, strictly)
    {
      if p != [] {
        FirstFollowed(g, v, p, seen);
      }
    }
  }

  lemma {:induction false} FirstFollowed(g: Graph, v: Value, p: seq<nat>, seen: set<nat>)
    requires Walk(g, v, p) && p != [] && Followed(g, p, seen)
    ensures v.Ref? && v.node < |g| && v.node !in seen && !g[v.node].Date?
  {
    assert p[0] !in seen;
  }

  /** The copy keeps standard prototypes exactly when nothing the sanitizer meets replaces one;
      and it never has a property called `__proto__`. */
  lemma {:induction false} SanitizedTree(g: Graph, v: Value, seen: set<nat>, strictly: bool)
    requires Closed(g) && ValueIn(g, v)
    ensures var r := Sanitize(g, v, seen);
            if r.Some? then CleanTree(r.value) && (AllStandard(r.value, strictly) <==> Keeps(g, v, seen, strictly))
            else Keeps(g, v, seen, strictly)
    ensures Replaces(g, v, seen, strictly)
            <==> Sanitize(g, v, seen).Some? && MakesPrototype(Sanitize(g, v, seen).value, strictly)
    decreases Fresh(g, seen), 0
  {
    hide Fresh, Keeps, SanitizeItems, SanitizeEntries;
    if v.Ref? && !g[v.node].Date? && v.node !in seen {
      FreshLess(g, seen, v.node);
      ChildrenIn(g, v.node);
      NodeKeeps(g, v.node, seen, strictly);
      if g[v.node].Array? {
        SanitizedItems(g, g[v.node].items, seen + {v.node}, strictly);
      } else {
        SanitizedEntries(g, g[v.node].entries, seen + {v.node}, strictly);
      }
    } else {
      NothingFollowed(g, v, seen, strictly);
    }
  }

  lemma {:induction false} SanitizedItems(g: Graph, items: seq<Value>, seen: set<nat>, strictly: bool)
    requires Closed(g) && forall i | 0 <= i < |items| :: ValueIn(g, items[i])
    ensures var r := JArray(SanitizeItems(g, items, seen));
            CleanTree(r)
            && (AllStandard(r, strictly) <==> forall i | 0 <= i < |items| :: Keeps(g, items[i], seen, strictly))
    decreases Fresh(g, seen), 1, |items|
  {
    hide Closed, Fresh, Keeps, Sanitize;
    if items != [] {
      var k := |items| - 1;
      SanitizedItems(g, items[..k], seen, strictly);
      SanitizedTree(g, items[k], seen, strictly);
      assert forall i | 0 <= i < k :: items[..k][i] == items[i];
      ItemAdded(SanitizeItems(g, items[..k], seen), Sanitize(g, items[k], seen).GetOr(JNull), strictly);
    }
  }

  lemma {:induction false} ItemAdded(items: seq<Json>, j: Json, strictly: bool)
    requires CleanTree(JArray(items)) && CleanTree(j)
    ensures CleanTree(JArray(items + [j]))
    ensures AllStandard(JArray(items + [j]), strictly)
            <==> AllStandard(JArray(items), strictly) && AllStandard(j, strictly)
  {
    var more := items + [j];
    assert more[|items|] == j && forall i | 0 <= i < |items| :: more[i] == items[i];
  }

  lemma {:induction false} SanitizedEntries(g: Graph, entries: seq<Entry>, seen: set<nat>, strictly: bool)
    requires Closed(g) && forall i | 0 <= i < |entries| :: ValueIn(g, entries[i].value)
    ensures var o := SanitizeEntries(g, entries, seen);
            CleanTree(o)
            && (AllStandard(o, strictly) <==>
                (forall i | 0 <= i < |entries| ::
                   && Keeps(g, entries[i].value, seen, strictly)
                   && !(entries[i].key == PROTO && Replaces(g, entries[i].value, seen, strictly))))
    decreases Fresh(g, seen), 1, |entries|
  {
    hide Closed, Fresh, Keeps, Sanitize, Replaces;
    if entries != [] {
      var k := |entries| - 1;
      SanitizedEntries(g, entries[..k], seen, strictly);
      assert forall i | 0 <= i < k :: entries[..k][i] == entries[i];
      var normalized := Sanitize(g, entries[k].value, seen);
      SanitizedTree(g, entries[k].value, seen, strictly);
      if normalized.Some? {
        AssignKeeps(SanitizeEntries(g, entries[..k], seen), entries[k].key, normalized.value, strictly);
      }
    }
  }

  lemma {:induction false} AssignKeeps(o: Json, key: string, value: Json, strictly: bool)
    requires o.JObject? && CleanTree(o) && CleanTree(value)
    ensures CleanTree(Assign(o, key, value))
    ensures key != PROTO ==>
              (AllStandard(Assign(o, key, value), strictly) <==>
               AllStandard(o, strictly) && AllStandard(value, strictly))
    ensures key == PROTO ==>
              (AllStandard(Assign(o, key, value), strictly) <==>
               AllStandard(o, strictly) && !MakesPrototype(value, strictly))
    ensures !MakesPrototype(value, strictly) ==> AllStandard(value, strictly)
  {
    var more := o.members + [Member(key, value)];
    assert more[|o.members|] == Member(key, value) && forall i | 0 <= i < |o.members| :: more[i] == o.members[i];
  }

  // ---- copies in the heap ----

  /** The heap with a new tree in it, and the tree's root. */
  function Build(g: Graph, j: Json): (r: (Graph, Value))
    decreases j
  {
    match j
    case JNull => (g, Null)
    case JFlag(b) => (g, Flag(b))
    case JNumber(n) => (g, Number(n))
    case JText(s) => (g, Text(s))
    case JArray(items) =>
      var (h, vs) := BuildItems(g, j, |items|);
      (h + [Array(vs)], Ref(|h|))
    case JObject(prototype, members) =>
      var (h, es) := BuildMembers(g, j, |members|);
      (h + [Record(prototype, es)], Ref(|h|))
  }

  function BuildItems(g: Graph, j: Json, n: nat): (r: (Graph, seq<Value>))
    requires j.JArray? && n <= |j.items|
    decreases j, n
  {
    if n == 0 then (g, [])
    else
      var (h, vs) := BuildItems(g, j, n - 1);
      var (h', v) := Build(h, j.items[n - 1]);
      (h', vs + [v])
  }

  function BuildMembers(g: Graph, j: Json, n: nat): (r: (Graph, seq<Entry>))
    requires j.JObject? && n <= |j.members|
    decreases j, n
  {
    if n == 0 then (g, [])
    else
      var (h, es) := BuildMembers(g, j, n - 1);
      var (h', v) := Build(h, j.members[n - 1].value);
      (h', es + [Entry(j.members[n - 1].key, v)])
  }

  lemma {:induction false} HoldsLater(g: Graph, h: Graph, v: Value, j: Json)
    requires g <= h && Holds(g, v, j, true)
    ensures Holds(h, v, j, true)
    decreases j
  {
    match j
    case JArray(items) =>
      forall i | 0 <= i < |items|
        ensures Holds(h, g[v.node].items[i], items[i], true)
      {
        HoldsLater(g, h, g[v.node].items[i], items[i]);
      }
    case JObject(_, members) =>
      forall i | 0 <= i < |members|
        ensures Holds(h, g[v.node].entries[i].value, members[i].value, true)
      {
        HoldsLater(g, h, g[v.node].entries[i].value, members[i].value);
      }
    case _ =>
  }

  lemma {:induction false} ClosedMore(g: Graph, h: Graph, n: Node)
    requires Closed(g) && g <= h && Closed(h) && NodeIn(h, n)
    ensures Closed(h + [n]) && g <= h + [n]
  {
    var after := h + [n];
    forall i | 0 <= i < |after|
      ensures NodeIn(after, after[i])
    {
      if i < |h| {
        assert NodeIn(h, h[i]);
      }
    }
  }

  /** The new objects hold the tree, and the old ones are as they were. */
  lemma {:induction false} BuiltHolds(g: Graph, j: Json)
    requires Closed(g)
    ensures var (h, v) := Build(g, j);
            g <= h && Closed(h) && ValueIn(h, v) && Holds(h, v, j, true)
    decreases j
  {
    hide Closed, NodeIn;
    match j
    case JArray(items) =>
      BuiltItems(g, j, |items|);
      var (h, vs) := BuildItems(g, j, |items|);
      ItemsIn(h, vs);
      ClosedMore(g, h, Array(vs));
      forall i | 0 <= i < |items|
        ensures Holds(h + [Array(vs)], vs[i], items[i], true)
      {
        HoldsLater(h, h + [Array(vs)], vs[i], items[i]);
      }
    case JObject(prototype, members) =>
      BuiltMembers(g, j, |members|);
      var (h, es) := BuildMembers(g, j, |members|);
      var n := Record(prototype, es);
      EntriesIn(h, n);
      ClosedMore(g, h, n);
      forall i | 0 <= i < |members|
        ensures es[i].key == members[i].key && Holds(h + [n], es[i].value, members[i].value, true)
      {
        HoldsLater(h, h + [n], es[i].value, members[i].value);
      }
    case _ =>
  }

  lemma {:induction false} ItemsIn(h: Graph, vs: seq<Value>)
    requires forall i | 0 <= i < |vs| :: ValueIn(h, vs[i])
    ensures NodeIn(h, Array(vs))
  {
  }

  lemma {:induction false} EntriesIn(h: Graph, n: Node)
    requires n.Record? && forall i | 0 <= i < |n.entries| :: ValueIn(h, n.entries[i].value)
    ensures NodeIn(h, n)
  {
  }

  lemma {:induction false} BuiltItems(g: Graph, j: Json, n: nat)
    requires Closed(g) && j.JArray? && n <= |j.items|
    ensures var (h, vs) := BuildItems(g, j, n);
            && g <= h && Closed(h) && |vs| == n
            && forall i | 0 <= i < n :: ValueIn(h, vs[i]) && Holds(h, vs[i], j.items[i], true)
    decreases j, n
  {
    hide Closed, Holds, Build;
    if n > 0 {
      BuiltItems(g, j, n - 1);
      var (h, vs) := BuildItems(g, j, n - 1);
      BuiltHolds(h, j.items[n - 1]);
      var (h', v) := Build(h, j.items[n - 1]);
      forall i | 0 <= i < n - 1
        ensures ValueIn(h', vs[i]) && Holds(h', vs[i], j.items[i], true)
      {
        HoldsLater(h, h', vs[i], j.items[i]);
      }
    }
  }

  lemma {:induction false} BuiltMembers(g: Graph, j: Json, n: nat)
    requires Closed(g) && j.JObject? && n <= |j.members|
    ensures var (h, es) := BuildMembers(g, j, n);
            && g <= h && Closed(h) && |es| == n
            && forall i | 0 <= i < n ::
                 es[i].key == j.members[i].key && ValueIn(h, es[i].value)
                 && Holds(h, es[i].value, j.members[i].value, true)
    decreases j, n
  {
    hide Closed, Holds, Build;
    if n > 0 {
      BuiltMembers(g, j, n - 1);
      var (h, es) := BuildMembers(g, j, n - 1);
      BuiltHolds(h, j.members[n - 1].value);
      var (h', v) := Build(h, j.members[n - 1].value);
      forall i | 0 <= i < n - 1
        ensures es[i].key == j.members[i].key && ValueIn(h', es[i].value)
        ensures Holds(h', es[i].value, j.members[i].value, true)
      {
        HoldsLater(h, h', es[i].value, j.members[i].value);
      }
    }
  }

  // ---- sanitized values ----

  /** A loosely held tree is held strictly by its own copy, and the other way round. */
  lemma {:induction false} StrictIsLoose(g: Graph, v: Value, j: Json)
    requires Holds(g, v, j, true) && AllStandard(j, true)
    ensures Holds(g, v, j, false)
    decreases j
  {
    match j
    case JArray(items) =>
      forall i | 0 <= i < |items|
        ensures Holds(g, g[v.node].items[i], items[i], false)
      {
        StrictIsLoose(g, g[v.node].items[i], items[i]);
      }
    case JObject(_, members) =>
      forall i | 0 <= i < |members|
        ensures Holds(g, g[v.node].entries[i].value, members[i].value, false)
      {
        StrictIsLoose(g, g[v.node].entries[i].value, members[i].value);
      }
    case _ =>
  }

  /** Whatever the sanitizer is given, with cycles, functions or foreign prototypes: what it makes
      is accepted as a protocol value, and copied strictly to itself, if and only if no object it
      meets has a property `__proto__` that holds null, an array or a record not on the path; and
      it can be copied at all if and only if none holds such an array or record. */
  lemma {:induction false} SanitizedIsAccepted(g: Graph, v: Value)
    requires Closed(g) && ValueIn(g, v) && Sanitize(g, v, {}).Some?
    ensures var j := Sanitize(g, v, {}).value;
            var (heap, copy) := Build(g, j);
            && Closed(heap) && ValueIn(heap, copy)
            && (IsProtocolValue(heap, copy, false, {}) <==> Keeps(g, v, {}, true))
            && (Convert(heap, copy, {}) == Ok(j) <==> Keeps(g, v, {}, true))
            && (Convert(heap, copy, {}).Ok? <==> Keeps(g, v, {}, false))
  {
    hide Sanitize, Build, Holds, AllStandard, CleanTree, IsProtocolValue, Convert, Clean, Closed, Keeps;
    var j := Sanitize(g, v, {}).value;
    var (heap, copy) := Build(g, j);
    BuiltHolds(g, j);
    SanitizedTree(g, v, {}, true);
    SanitizedTree(g, v, {}, false);
    AcceptedExactly(heap, copy, j);
    CopiedExactly(heap, copy, j);
    HeldIsClean(heap, copy, j, true);
    UnfoldingIsCopy(heap, copy, j);
    if AllStandard(j, true) {
      StrictIsLoose(heap, copy, j);
    }
  }

  /** So it is accepted whenever no reachable object has a property called `__proto__` at all. */
  lemma {:induction false} CleanIsAccepted(g: Graph, v: Value)
    requires Closed(g) && ValueIn(g, v) && Sanitize(g, v, {}).Some? && Clean(g, v)
    ensures var (heap, copy) := Build(g, Sanitize(g, v, {}).value);
            Closed(heap) && ValueIn(heap, copy) && IsProtocolValue(heap, copy, false, {})
  {
    hide Sanitize, Build, IsProtocolValue, Closed;
    SanitizedIsAccepted(g, v);
    forall p | Walk(g, v, p) && Followed(g, p, {})
      ensures KeptAt(g, p, {}, true)
    {
      assert p != [] ==> CleanNode(g[p[|p| - 1]]);
    }
  }

  /** A property called `__proto__` that holds null, as JSON text can make it, gives an object that
      is no protocol value although it can be copied; one that holds an array gives an object that
      can not even be copied. */
  lemma {:induction false} ProtoIsRejected()
    ensures var g := [Record(Plain, [Entry(PROTO, Null)])];
            && Closed(g) && Sanitize(g, Ref(0), {}) == Some(JObject(NoPrototype, []))
            && !Keeps(g, Ref(0), {}, true) && Keeps(g, Ref(0), {}, false)
    ensures var g := [Record(Plain, [Entry(PROTO, Ref(1))]), Array([])];
            && Closed(g) && Sanitize(g, Ref(0), {}) == Some(JObject(Foreign, []))
            && !Keeps(g, Ref(0), {}, true) && !Keeps(g, Ref(0), {}, false)
  {
    hide Keeps;
    assert Sanitize([Record(Plain, [Entry(PROTO, Null)])], Null, {0}) == Some(JNull);
    SingleProto([Record(Plain, [Entry(PROTO, Null)])], Null, JNull);
    var g := [Record(Plain, [Entry(PROTO, Ref(1))]), Array([])];
    assert NodeIn(g, g[0]) && NodeIn(g, g[1]);
    assert SanitizeItems(g, [], {0} + {1}) == [];
    SingleProto(g, Ref(1), JArray([]));
  }

  lemma {:induction false} SingleProto(g: Graph, v: Value, j: Json)
    requires g != [] && g[0] == Record(Plain, [Entry(PROTO, v)]) && Closed(g) && ValueIn(g, v)
    requires Sanitize(g, v, {0}) == Some(j) && (j == JNull || j == JArray([]))
    ensures Sanitize(g, Ref(0), {}) == Some(JObject(if j.JNull? then NoPrototype else Foreign, []))
    ensures !Keeps(g, Ref(0), {}, true) && (Keeps(g, Ref(0), {}, false) <==> j.JNull?)
  {
    hide Keeps, Closed;
    var entries := [Entry(PROTO, v)];
    assert entries[..0] == [] && entries[0] == Entry(PROTO, v);
    assert {} + {0} == {0};
    assert SanitizeEntries(g, [], {0}) == JObject(Plain, []);
    assert SanitizeEntries(g, entries, {0}) ==
           Assign(JObject(Plain, []), PROTO, j);
    SanitizedTree(g, Ref(0), {}, true);
    SanitizedTree(g, Ref(0), {}, false);
  }
}
