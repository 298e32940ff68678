/**
 What copying gives: the tree unfolding of the graph, lossily or not, and how the copies look
 to isProtocolValue of packages/protocol/src/codec.ts.
 */
module JsonCopies {
  import opened Wrappers
  import opened ObjectGraph

  /** The prototype a tree shows: a copy takes an object without prototype for a plain one. */
  function Shown(prototype: Prototype, strictly: bool): Prototype {
    if strictly || prototype == Foreign then prototype else Plain
  }

  /** The value holds the tree: the tree is its unfolding, with the prototypes as they are or as a
      copy takes them. */
  predicate Holds(g: Graph, v: Value, j: Json, strictly: bool)
    decreases j
  {
    match j
    case JNull => v == Null
    case JFlag(b) => v == Flag(b)
    case JNumber(n) => v == Number(n)
    case JText(s) => v == Text(s)
    case JArray(items) =>
      && v.Ref? && v.node < |g| && g[v.node].Array? && |g[v.node].items| == |items|
      && forall i | 0 <= i < |items| :: Holds(g, g[v.node].items[i], items[i], strictly)
    case JObject(prototype, members) =>
      && v.Ref? && v.node < |g| && g[v.node].Record? && |g[v.node].entries| == |members|
      && prototype == Shown(g[v.node].prototype, strictly)
      && forall i | 0 <= i < |members| ::
           && g[v.node].entries[i].key == members[i].key
           && Holds(g, g[v.node].entries[i].value, members[i].value, strictly)
  }

  /** A value holds at most one tree. */
  lemma {:induction false} HeldOnce(g: Graph, v: Value, j: Json, k: Json, strictly: bool)
    requires Holds(g, v, j, strictly) && Holds(g, v, k, strictly)
    ensures j == k
    decreases j
  {
    match j
    case JArray(items) =>
      forall i | 0 <= i < |items|
        ensures items[i] == k.items[i]
      {
        HeldOnce(g, g[v.node].items[i], items[i], k.items[i], strictly);
      }
    case JObject(_, members) =>
      forall i | 0 <= i < |members|
        ensures members[i] == k.members[i]
      {
        HeldOnce(g, g[v.node].entries[i].value, members[i].value, k.members[i].value, strictly);
      }
    case _ =>
  }

  // ---- clean keys ----

  predicate CleanNode(n: Node) {
    n.Record? ==> forall i | 0 <= i < |n.entries| :: n.entries[i].key != PROTO
  }

  /** No reachable object has a property of its own that is called `__proto__`. */
  ghost predicate Clean(g: Graph, v: Value) {
    forall p | Walk(g, v, p) :: forall i | 0 <= i < |p| :: CleanNode(g[p[i]])
  }

  lemma {:induction false} NodeClean(g: Graph, n: nat)
    requires n < |g|
    ensures Clean(g, Ref(n)) <==> CleanNode(g[n]) && forall c | Child(g[n], c) :: Clean(g, c)
  {
    hide Child, CleanNode;
    if Clean(g, Ref(n)) {
      assert Walk(g, Ref(n), [n]) && [n][0] == n;
      forall c | Child(g[n], c)
        ensures Clean(g, c)
      {
        forall q | Walk(g, c, q)
          ensures forall i | 0 <= i < |q| :: CleanNode(g[q[i]])
        {
          PathMore(g, n, q);
          assert Walk(g, Ref(n), [n] + q);
          assert forall i | 0 <= i < |q| :: ([n] + q)[i + 1] == q[i];
        }
      }
    }
    if CleanNode(g[n]) && forall c | Child(g[n], c) :: Clean(g, c) {
      forall p | Walk(g, Ref(n), p)
        ensures forall i | 0 <= i < |p| :: CleanNode(g[p[i]])
      {
        if p != [] {
          PathLess(g, p);
          var q := p[1..];
          if q != [] {
            assert Child(g[n], Ref(q[0])) && Walk(g, Ref(q[0]), q);
            assert forall i | 0 < i < |p| :: p[i] == q[i - 1];
          }
        }
      }
    }
  }

  lemma {:induction false} LeafClean(g: Graph, v: Value)
    requires !v.Ref?
    ensures Clean(g, v)
  {
    assert forall p | Walk(g, v, p) :: p == [];
  }

  // ---- the copy is the unfolding ----

  lemma {:induction false} ItemsShape(g: Graph, items: seq<Value>, seen: set<nat>)
    requires Closed(g) && forall i | 0 <= i < |items| :: ValueIn(g, items[i])
    requires ConvertItems(g, items, seen).Ok?
    ensures var r := ConvertItems(g, items, seen).value;
            |r| == |items| && forall i | 0 <= i < |items| :: Convert(g, items[i], seen) == Ok(r[i])
    decreases |items|
  {
    hide Convert, Closed, Fresh;
    if items != [] {
      var k := |items| - 1;
      ItemsShape(g, items[..k], seen);
      assert forall i | 0 <= i < k :: items[..k][i] == items[i];
    }
  }

  /** Entries are copied one by one, except those that `__proto__` swallows. */
  lemma {:induction false} EntriesShape(g: Graph, entries: seq<Entry>, seen: set<nat>)
    requires Closed(g) && forall i | 0 <= i < |entries| :: ValueIn(g, entries[i].value)
    requires ConvertEntries(g, entries, seen).Ok?
    ensures var o := ConvertEntries(g, entries, seen).value;
            && |o.members| <= |entries|
            && (forall i | 0 <= i < |entries| :: Convert(g, entries[i].value, seen).Ok?)
            && if forall i | 0 <= i < |entries| :: entries[i].key != PROTO then
                 && o.prototype == Plain && |o.members| == |entries|
                 && forall i | 0 <= i < |entries| ::
                      o.members[i] == Member(entries[i].key, Convert(g, entries[i].value, seen).value)
               else |o.members| < |entries|
    decreases |entries|
  {
    hide Convert, Closed, Fresh;
    if entries != [] {
      var k := |entries| - 1;
      EntriesShape(g, entries[..k], seen);
      assert forall i | 0 <= i < k :: entries[..k][i] == entries[i];
    }
  }

  /** A copy is the unfolding of what it copies if and only if no reachable object has a property
      called `__proto__`, which the copy would lose. */
  lemma {:induction false} CopyIsUnfolding(g: Graph, v: Value, seen: set<nat>)
    requires Closed(g) && ValueIn(g, v) && Convert(g, v, seen).Ok?
    ensures Holds(g, v, Convert(g, v, seen).value, false) <==> Clean(g, v)
    decreases Fresh(g, seen)
  {
    hide Clean, Closed, Fresh, CleanNode, ConvertItems, ConvertEntries;
    if !v.Ref? {
      LeafClean(g, v);
    } else {
      var n := v.node;
      FreshLess(g, seen, n);
      NodeClean(g, n);
      ChildrenIn(g, n);
      if g[n].Array? {
        ArrayIsUnfolding(g, n, seen);
      } else {
        RecordIsUnfolding(g, n, seen);
      }
    }
  }

  lemma {:induction false} ArrayIsUnfolding(g: Graph, n: nat, seen: set<nat>)
    requires Closed(g) && n < |g| && n !in seen && g[n].Array? && Convert(g, Ref(n), seen).Ok?
    ensures Holds(g, Ref(n), Convert(g, Ref(n), seen).value, false) <==> forall c | Child(g[n], c) :: Clean(g, c)
    ensures CleanNode(g[n])
    decreases Fresh(g, seen), 0
  {
    hide Clean, Closed, Fresh;
    var items := g[n].items;
    ChildrenIn(g, n);
    FreshLess(g, seen, n);
    ItemsShape(g, items, seen + {n});
    forall i | 0 <= i < |items|
      ensures Holds(g, items[i], Convert(g, items[i], seen + {n}).value, false) <==> Clean(g, items[i])
    {
      CopyIsUnfolding(g, items[i], seen + {n});
    }
    assert forall i | 0 <= i < |items| :: Child(g[n], items[i]);
  }

  lemma {:induction false} RecordIsUnfolding(g: Graph, n: nat, seen: set<nat>)
    requires Closed(g) && n < |g| && n !in seen && g[n].Record? && Convert(g, Ref(n), seen).Ok?
    ensures Holds(g, Ref(n), Convert(g, Ref(n), seen).value, false) <==>
            CleanNode(g[n]) && forall c | Child(g[n], c) :: Clean(g, c)
    decreases Fresh(g, seen), 0
  {
    hide Clean, Closed, Fresh;
    var entries := g[n].entries;
    ChildrenIn(g, n);
    FreshLess(g, seen, n);
    EntriesShape(g, entries, seen + {n});
    forall i | 0 <= i < |entries|
      ensures Holds(g, entries[i].value, Convert(g, entries[i].value, seen + {n}).value, false) <==>
              Clean(g, entries[i].value)
    {
      CopyIsUnfolding(g, entries[i].value, seen + {n});
    }
    assert forall i | 0 <= i < |entries| :: Child(g[n], entries[i].value);
  }

  // ---- the unfolding is the copy ----

  function Max(a: nat, b: nat): nat { if a < b then b else a }

  function Height(j: Json): nat {
    match j
    case JArray(items) => 1 + ItemsHeight(items)
    case JObject(_, members) => 1 + MembersHeight(members)
    case _ => 0
  }

  function ItemsHeight(items: seq<Json>): nat {
    if items == [] then 0 else Max(ItemsHeight(items[..|items| - 1]), Height(items[|items| - 1]))
  }

  function MembersHeight(members: seq<Member>): nat {
    if members == [] then 0 else Max(MembersHeight(members[..|members| - 1]), Height(members[|members| - 1].value))
  }

  lemma {:induction false} ItemHeight(items: seq<Json>, i: nat)
    requires i < |items|
    ensures Height(items[i]) <= ItemsHeight(items)
  {
    hide Height;
    if i < |items| - 1 {
      ItemHeight(items[..|items| - 1], i);
    }
  }

  lemma {:induction false} MemberHeight(members: seq<Member>, i: nat)
    requires i < |members|
    ensures Height(members[i].value) <= MembersHeight(members)
  {
    hide Height;
    if i < |members| - 1 {
      MemberHeight(members[..|members| - 1], i);
    }
  }

  /** All objects of the tree have the standard prototype or, unless `strictly`, none. */
  predicate AllStandard(j: Json, strictly: bool)
    decreases j
  {
    match j
    case JArray(items) => forall i | 0 <= i < |items| :: AllStandard(items[i], strictly)
    case JObject(prototype, members) =>
      && (prototype == Plain || (!strictly && prototype == NoPrototype))
      && forall i | 0 <= i < |members| :: AllStandard(members[i].value, strictly)
    case _ => true
  }

  /** No object of the tree has a property called `__proto__`. */
  predicate CleanTree(j: Json) {
    match j
    case JArray(items) => forall i | 0 <= i < |items| :: CleanTree(items[i])
    case JObject(_, members) => forall i | 0 <= i < |members| :: members[i].key != PROTO && CleanTree(members[i].value)
    case _ => true
  }

  /** What a held child holds, one level down. */
  lemma {:induction false} ChildHolds(g: Graph, n: nat, j: Json, c: Value, strictly: bool) returns (t: Json)
    requires n < |g| && Holds(g, Ref(n), j, strictly) && Child(g[n], c)
    ensures Holds(g, c, t, strictly) && Height(t) < Height(j)
    ensures (AllStandard(j, false) ==> AllStandard(t, false)) && (CleanTree(j) ==> CleanTree(t))
  {
    match j
    case JArray(items) =>
      var i :| 0 <= i < |items| && g[n].items[i] == c;
      ItemHeight(items, i);
      t := items[i];
    case JObject(_, members) =>
      var i :| 0 <= i < |members| && g[n].entries[i].value == c;
      MemberHeight(members, i);
      t := members[i].value;
  }

  /** What the object at place `i` of a path holds: `i` levels down at least. */
  lemma {:induction false} Descend(g: Graph, v: Value, j: Json, strictly: bool, p: seq<nat>, i: nat) returns (t: Json)
    requires Holds(g, v, j, strictly) && Walk(g, v, p) && i < |p|
    ensures Holds(g, Ref(p[i]), t, strictly) && Height(t) + i <= Height(j)
    ensures (AllStandard(j, false) ==> AllStandard(t, false)) && (CleanTree(j) ==> CleanTree(t))
  {
    hide Holds, Height, AllStandard, CleanTree, Child;
    if i == 0 {
      t := j;
    } else {
      var s := Descend(g, v, j, strictly, p, i - 1);
      t := ChildHolds(g, p[i - 1], s, Ref(p[i]), strictly);
    }
  }

  lemma {:induction false} HeldIsGood(g: Graph, n: nat, t: Json, strictly: bool)
    requires n < |g| && Holds(g, Ref(n), t, strictly)
    ensures AllStandard(t, false) ==> GoodNode(g[n])
    ensures CleanTree(t) ==> CleanNode(g[n])
  {
    match t
    case JArray(items) =>
      forall i | 0 <= i < |items|
        ensures GoodLeaf(g[n].items[i])
      {
        HeldLeaf(g, g[n].items[i], items[i], strictly);
      }
    case JObject(_, members) =>
      forall i | 0 <= i < |members|
        ensures GoodLeaf(g[n].entries[i].value)
      {
        HeldLeaf(g, g[n].entries[i].value, members[i].value, strictly);
      }
  }

  lemma {:induction false} HeldLeaf(g: Graph, v: Value, j: Json, strictly: bool)
    requires Holds(g, v, j, strictly)
    ensures GoodLeaf(v)
  {
  }

  lemma {:induction false} WalkRest(g: Graph, p: seq<nat>, a: nat)
    requires Path(g, p) && a < |p|
    ensures Walk(g, Ref(p[a]), p[a..])
  {
    hide Child;
    var q := p[a..];
    forall i | 0 < i < |q|
      ensures Child(g[q[i - 1]], Ref(q[i]))
    {
      assert q[i - 1] == p[a + i - 1] && q[i] == p[a + i];
    }
  }

  /** A value that holds a tree of standard objects is sound: a cycle would hold a tree within
      itself. */
  lemma {:induction false} HeldIsSound(g: Graph, v: Value, j: Json, strictly: bool)
    requires Holds(g, v, j, strictly) && AllStandard(j, false)
    ensures Sound(g, v, {})
  {
    hide Holds, Height, AllStandard, CleanTree, Child, GoodNode;
    HeldLeaf(g, v, j, strictly);
    forall p | Walk(g, v, p)
      ensures GoodPath(g, p, {})
    {
      forall i | 0 <= i < |p|
        ensures GoodNode(g[p[i]])
      {
        var t := Descend(g, v, j, strictly, p, i);
        HeldIsGood(g, p[i], t, strictly);
      }
      forall a, b | 0 <= a < b < |p|
        ensures p[a] != p[b]
      {
        NoReturn(g, v, j, strictly, p, a, b);
      }
    }
  }

  lemma {:induction false} NoReturn(g: Graph, v: Value, j: Json, strictly: bool, p: seq<nat>, a: nat, b: nat)
    requires Holds(g, v, j, strictly) && Walk(g, v, p) && a < b < |p|
    ensures p[a] != p[b]
  {
    hide Holds, Height, AllStandard, CleanTree, Path;
    var s := Descend(g, v, j, strictly, p, a);
    WalkRest(g, p, a);
    var t := Descend(g, Ref(p[a]), s, strictly, p[a..], b - a);
    assert p[a..][b - a] == p[b];
    if p[a] == p[b] {
      HeldOnce(g, Ref(p[a]), s, t, strictly);
    }
  }

  lemma {:induction false} HeldIsClean(g: Graph, v: Value, j: Json, strictly: bool)
    requires Holds(g, v, j, strictly) && CleanTree(j)
    ensures Clean(g, v)
  {
    hide Holds, Height, AllStandard, CleanTree, CleanNode;
    forall p | Walk(g, v, p)
      ensures forall i | 0 <= i < |p| :: CleanNode(g[p[i]])
    {
      forall i | 0 <= i < |p|
        ensures CleanNode(g[p[i]])
      {
        var t := Descend(g, v, j, strictly, p, i);
        HeldIsGood(g, p[i], t, strictly);
      }
    }
  }

  /** A copy that loses nothing has standard objects only. */
  lemma {:induction false} ConvertedIsStandard(g: Graph, v: Value, seen: set<nat>, j: Json)
    requires Closed(g) && ValueIn(g, v) && Convert(g, v, seen) == Ok(j) && Holds(g, v, j, false)
    ensures AllStandard(j, true)
    decreases j
  {
    hide Closed, Fresh;
    if v.Ref? {
      var n := v.node;
      FreshLess(g, seen, n);
      ChildrenIn(g, n);
      match j
      case JArray(items) =>
        ItemsShape(g, g[n].items, seen + {n});
        forall i | 0 <= i < |items|
          ensures AllStandard(items[i], true)
        {
          ConvertedIsStandard(g, g[n].items[i], seen + {n}, items[i]);
        }
      case JObject(_, members) =>
        EntriesShape(g, g[n].entries, seen + {n});
        forall i | 0 <= i < |members|
          ensures AllStandard(members[i].value, true)
        {
          ConvertedIsStandard(g, g[n].entries[i].value, seen + {n}, members[i].value);
        }
    }
  }

  lemma {:induction false} StandardIsLoose(j: Json)
    requires AllStandard(j, true)
    ensures AllStandard(j, false)
    decreases j
  {
    match j
    case JArray(items) =>
      forall i | 0 <= i < |items|
        ensures AllStandard(items[i], false)
      {
        StandardIsLoose(items[i]);
      }
    case JObject(_, members) =>
      forall i | 0 <= i < |members|
        ensures AllStandard(members[i].value, false)
      {
        StandardIsLoose(members[i].value);
      }
    case _ =>
  }

  /** For clean graphs, copying a value gives a tree exactly when the tree is its unfolding and has
      standard objects only, even if objects are shared. */
  lemma {:induction false} UnfoldingIsCopy(g: Graph, v: Value, j: Json)
    requires Closed(g) && ValueIn(g, v) && Clean(g, v)
    ensures Convert(g, v, {}) == Ok(j) <==> Holds(g, v, j, false) && AllStandard(j, true)
  {
    hide Clean, Convert, Holds, Sound, AllStandard;
    if Holds(g, v, j, false) && AllStandard(j, true) {
      StandardIsLoose(j);
      HeldIsSound(g, v, j, false);
      ConvertExactly(g, v, {});
    }
    if Convert(g, v, {}).Ok? {
      CopyIsUnfolding(g, v, {});
      ConvertedIsStandard(g, v, {}, Convert(g, v, {}).value);
      if Holds(g, v, j, false) {
        HeldOnce(g, v, j, Convert(g, v, {}).value, false);
      }
    }
  }

  /** What can be copied has no foreign prototypes. */
  lemma {:induction false} ConvertedIsLoose(g: Graph, v: Value, seen: set<nat>, j: Json)
    requires Closed(g) && ValueIn(g, v) && Convert(g, v, seen).Ok? && Holds(g, v, j, true)
    ensures AllStandard(j, false)
    decreases j
  {
    hide Closed, Fresh;
    if v.Ref? {
      var n := v.node;
      FreshLess(g, seen, n);
      ChildrenIn(g, n);
      match j
      case JArray(items) =>
        ItemsShape(g, g[n].items, seen + {n});
        forall i | 0 <= i < |items|
          ensures AllStandard(items[i], false)
        {
          ConvertedIsLoose(g, g[n].items[i], seen + {n}, items[i]);
        }
      case JObject(_, members) =>
        EntriesShape(g, g[n].entries, seen + {n});
        forall i | 0 <= i < |members|
          ensures AllStandard(members[i].value, false)
        {
          ConvertedIsLoose(g, g[n].entries[i].value, seen + {n}, members[i].value);
        }
    }
  }

  /** A tree in the heap can be copied exactly when none of its objects has a foreign prototype. */
  lemma {:induction false} CopiedExactly(g: Graph, v: Value, j: Json)
    requires Closed(g) && ValueIn(g, v) && Holds(g, v, j, true)
    ensures Convert(g, v, {}).Ok? <==> AllStandard(j, false)
  {
    hide Holds, AllStandard, Convert, Sound;
    if AllStandard(j, false) {
      HeldIsSound(g, v, j, true);
      ConvertExactly(g, v, {});
    }
    if Convert(g, v, {}).Ok? {
      ConvertedIsLoose(g, v, {}, j);
    }
  }

  // ---- isProtocolValue ----

  predicate IsProtocolValue(g: Graph, v: Value, optionalProperty: bool, ancestors: set<nat>)
    requires Closed(g) && ValueIn(g, v)
    decreases Fresh(g, ancestors)
  {
    match v
    case Undefined => optionalProperty
    case Ref(n) =>
      if n in ancestors then false
      else
        FreshLess(g, ancestors, n);
        ChildrenIn(g, n);
        (match g[n]
         case Array(items) => forall i | 0 <= i < |items| :: IsProtocolValue(g, items[i], false, ancestors + {n})
         case Record(prototype, entries) =>
           prototype == Plain
           && forall i | 0 <= i < |entries| :: IsProtocolValue(g, entries[i].value, true, ancestors + {n})
         case Date(_) => false)
    case Big(_) => false
    case Function => false
    case Symbol => false
    case _ => true
  }

  /** Sound values that are held strictly are accepted. */
  lemma {:induction false} HeldIsAccepted(g: Graph, v: Value, j: Json, optional: bool, ancestors: set<nat>)
    requires Closed(g) && ValueIn(g, v) && Holds(g, v, j, true) && AllStandard(j, true) && Sound(g, v, ancestors)
    ensures IsProtocolValue(g, v, optional, ancestors)
    decreases j
  {
    hide Sound, Fresh, NodeIn;
    if v.Ref? {
      var n := v.node;
      NodeSound(g, n, ancestors);
      FreshLess(g, ancestors, n);
      ChildrenIn(g, n);
      match j
      case JArray(items) =>
        forall i | 0 <= i < |items|
          ensures IsProtocolValue(g, g[n].items[i], false, ancestors + {n})
        {
          assert Child(g[n], g[n].items[i]);
          HeldIsAccepted(g, g[n].items[i], items[i], false, ancestors + {n});
        }
      case JObject(_, members) =>
        forall i | 0 <= i < |members|
          ensures IsProtocolValue(g, g[n].entries[i].value, true, ancestors + {n})
        {
          assert Child(g[n], g[n].entries[i].value);
          HeldIsAccepted(g, g[n].entries[i].value, members[i].value, true, ancestors + {n});
        }
    }
  }

  lemma {:induction false} AcceptedIsStandard(g: Graph, v: Value, j: Json, optional: bool, ancestors: set<nat>)
    requires Closed(g) && ValueIn(g, v) && Holds(g, v, j, true) && IsProtocolValue(g, v, optional, ancestors)
    ensures AllStandard(j, true)
    decreases j
  {
    hide Fresh, NodeIn;
    if v.Ref? {
      var n := v.node;
      FreshLess(g, ancestors, n);
      ChildrenIn(g, n);
      match j
      case JArray(items) =>
        forall i | 0 <= i < |items|
          ensures AllStandard(items[i], true)
        {
          AcceptedIsStandard(g, g[n].items[i], items[i], false, ancestors + {n});
        }
      case JObject(_, members) =>
        forall i | 0 <= i < |members|
          ensures AllStandard(members[i].value, true)
        {
          AcceptedIsStandard(g, g[n].entries[i].value, members[i].value, true, ancestors + {n});
        }
    }
  }

  /** A tree in the heap is a protocol value exactly when all its objects are standard. */
  lemma {:induction false} AcceptedExactly(g: Graph, v: Value, j: Json)
    requires Closed(g) && ValueIn(g, v) && Holds(g, v, j, true)
    ensures IsProtocolValue(g, v, false, {}) <==> AllStandard(j, true)
  {
    hide Holds, AllStandard, IsProtocolValue, Sound;
    if AllStandard(j, true) {
      StandardIsLoose(j);
      HeldIsSound(g, v, j, true);
      HeldIsAccepted(g, v, j, false, {});
    }
    if IsProtocolValue(g, v, false, {}) {
      AcceptedIsStandard(g, v, j, false, {});
    }
  }

  // ---- isProtocolValue on any graph ----

  /** A number that is not finite counts as any number. */
  function Tame(v: Value): Value { if v.NonFinite? then Number(0) else v }

  function TameEntries(entries: seq<Entry>): seq<Entry> {
    if entries == [] then []
    else
      var last := entries[|entries| - 1];
      TameEntries(entries[..|entries| - 1]) + if last.value.Undefined? then [] else [Entry(last.key, Tame(last.value))]
  }

  /** The object without its undefined properties; a missing prototype counts as a foreign one. */
  function TameNode(n: Node): Node {
    match n
    case Array(items) => Array(seq(|items|, i requires 0 <= i < |items| => Tame(items[i])))
    case Record(prototype, entries) => Record(if prototype == Plain then Plain else Foreign, TameEntries(entries))
    case Date(_) => n
  }

  function TameGraph(g: Graph): (h: Graph)
    ensures |h| == |g| && forall i | 0 <= i < |g| :: h[i] == TameNode(g[i])
  {
    seq(|g|, i requires 0 <= i < |g| => TameNode(g[i]))
  }

  lemma {:induction false} TameChildren(entries: seq<Entry>, prototype: Prototype, c: Value)
    ensures Child(Record(prototype, TameEntries(entries)), c) <==>
            exists i | 0 <= i < |entries| :: !entries[i].value.Undefined? && c == Tame(entries[i].value)
  {
    hide Tame;
    if entries != [] {
      var k := |entries| - 1;
      TameChildren(entries[..k], prototype, c);
      var before := Record(prototype, TameEntries(entries[..k]));
      var after := Record(prototype, TameEntries(entries));
      if Child(before, c) {
        var i :| 0 <= i < |before.entries| && before.entries[i].value == c;
        assert after.entries[i].value == c;
      }
      if !entries[k].value.Undefined? && c == Tame(entries[k].value) {
        assert after.entries[|after.entries| - 1].value == c;
      }
    }
  }

  /** A value is a protocol value exactly when what is reachable from it, without the undefined
      properties, is acyclic and holds allowed leaves, arrays and standard objects only. */
  lemma {:induction false} ProtocolExactly(g: Graph, v: Value, optional: bool, ancestors: set<nat>)
    requires Closed(g) && ValueIn(g, v)
    ensures IsProtocolValue(g, v, optional, ancestors) <==>
            (optional && v.Undefined?) || Sound(TameGraph(g), Tame(v), ancestors)
    decreases Fresh(g, ancestors)
  {
    hide Sound, Fresh, NodeIn, TameGraph, TameEntries, Child;
    var h := TameGraph(g);
    if !v.Ref? {
      LeafSound(h, Tame(v), ancestors);
    } else {
      var n := v.node;
      NodeSound(h, n, ancestors);
      if n !in ancestors {
        FreshLess(g, ancestors, n);
        ChildrenIn(g, n);
        match g[n]
        case Array(items) => ProtocolArray(g, n, ancestors);
        case Record(prototype, entries) => ProtocolRecord(g, n, ancestors);
        case Date(_) =>
      }
    }
  }

  lemma {:induction false} ProtocolArray(g: Graph, n: nat, ancestors: set<nat>)
    requires Closed(g) && n < |g| && g[n].Array? && n !in ancestors
    ensures IsProtocolValue(g, Ref(n), false, ancestors) <==>
            forall c | Child(TameNode(g[n]), c) :: Sound(TameGraph(g), c, ancestors + {n})
    decreases Fresh(g, ancestors), 0
  {
    hide Sound, Fresh, NodeIn, TameGraph, Tame;
    var items := g[n].items;
    FreshLess(g, ancestors, n);
    ChildrenIn(g, n);
    forall i | 0 <= i < |items|
      ensures IsProtocolValue(g, items[i], false, ancestors + {n}) <==>
              Sound(TameGraph(g), Tame(items[i]), ancestors + {n})
      ensures Child(TameNode(g[n]), Tame(items[i]))
    {
      ProtocolExactly(g, items[i], false, ancestors + {n});
      assert TameNode(g[n]).items[i] == Tame(items[i]);
    }
  }

  lemma {:induction false} ProtocolRecord(g: Graph, n: nat, ancestors: set<nat>)
    requires Closed(g) && n < |g| && g[n].Record? && n !in ancestors
    ensures IsProtocolValue(g, Ref(n), false, ancestors) <==>
            g[n].prototype == Plain
            && forall c | Child(TameNode(g[n]), c) :: Sound(TameGraph(g), c, ancestors + {n})
    decreases Fresh(g, ancestors), 0
  {
    hide Sound, Fresh, NodeIn, TameGraph, TameEntries, Child;
    var entries := g[n].entries;
    FreshLess(g, ancestors, n);
    ChildrenIn(g, n);
    forall i | 0 <= i < |entries|
      ensures IsProtocolValue(g, entries[i].value, true, ancestors + {n}) <==>
              entries[i].value.Undefined? || Sound(TameGraph(g), Tame(entries[i].value), ancestors + {n})
      ensures !entries[i].value.Undefined? ==> Child(TameNode(g[n]), Tame(entries[i].value))
    {
      ProtocolExactly(g, entries[i].value, true, ancestors + {n});
      TameChildren(entries, TameNode(g[n]).prototype, Tame(entries[i].value));
    }
    forall c | Child(TameNode(g[n]), c)
      ensures exists i | 0 <= i < |entries| :: !entries[i].value.Undefined? && c == Tame(entries[i].value)
    {
      TameChildren(entries, TameNode(g[n]).prototype, c);
    }
  }
}
