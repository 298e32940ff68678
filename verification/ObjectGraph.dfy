/**
 Copying object graphs into JSON: toProtocolJsonValue of packages/server/src/protocol.ts and
 isProtocolValue of packages/protocol/src/codec.ts. Objects are numbered, and may be shared
 and cyclic. Property getters and holes in arrays are not modelled.
 */
module ObjectGraph {
  import opened Wrappers

  /** A JavaScript value. `NonFinite` numbers and `Big` integers carry their printed form. */
  datatype Value =
    | Null
    | Undefined
    | Flag(flag: bool)
    | Number(number: int)
    | NonFinite(text: string)
    | Big(text: string)
    | Text(text: string)
    | Function
    | Symbol
    | Ref(node: nat)

  datatype Prototype = Plain | NoPrototype | Foreign

  datatype Entry = Entry(key: string, value: Value)

  /** An object: an array, a valid date, or properties under some prototype. */
  datatype Node = Array(items: seq<Value>) | Date(iso: string) | Record(prototype: Prototype, entries: seq<Entry>)

  type Graph = seq<Node>

  predicate ValueIn(g: Graph, v: Value) { v.Ref? ==> v.node < |g| }

  predicate NodeIn(g: Graph, n: Node) {
    && (n.Array? ==> forall i | 0 <= i < |n.items| :: ValueIn(g, n.items[i]))
    && (n.Record? ==> forall i | 0 <= i < |n.entries| :: ValueIn(g, n.entries[i].value))
  }

  predicate Closed(g: Graph) { forall i | 0 <= i < |g| :: NodeIn(g, g[i]) }

  /** What the copies make: fresh trees. Assigning to the property `__proto__` gives a fresh object
      no prototype when the value is null and a foreign one when it is an object, and else does
      nothing. The keys of an object are distinct, so that this happens to it at most once. */
  datatype Json =
    | JNull
    | JFlag(flag: bool)
    | JNumber(number: int)
    | JText(text: string)
    | JArray(items: seq<Json>)
    | JObject(prototype: Prototype, members: seq<Member>)

  datatype Member = Member(key: string, value: Json)

  const PROTO := "__proto__"

  function Assign(o: Json, key: string, value: Json): Json
    requires o.JObject?
  {
    if key != PROTO then o.(members := o.members + [Member(key, value)])
    else if value.JNull? && o.prototype == Plain then o.(prototype := NoPrototype)
    else if value.JArray? || value.JObject? then o.(prototype := Foreign)
    else o
  }

  // ---- toProtocolJsonValue ----

  datatype ConvertError = Unsupported | Infinite | Circular | NotPlain

  function Leaf(v: Value): Result<Json, ConvertError>
    requires !v.Ref?
  {
    match v
    case Null => Ok(JNull)
    case Flag(b) => Ok(JFlag(b))
    case Number(n) => Ok(JNumber(n))
    case Text(s) => Ok(JText(s))
    case NonFinite(_) => Err(Infinite)
    case _ => Err(Unsupported)
  }

  predicate IsPlain(n: Node) { n.Array? || (n.Record? && n.prototype != Foreign) }

  function Below(n: nat): (all: set<nat>)
    ensures forall i :: i in all <==> 0 <= i < n
  {
    if n == 0 then {} else Below(n - 1) + {n - 1}
  }

  /** How many objects may still come on a path that holds each of them at most once. */
  function Fresh(g: Graph, seen: set<nat>): nat { |Below(|g|) - seen| }

  lemma {:induction false} FreshLess(g: Graph, seen: set<nat>, n: nat)
    requires n < |g| && n !in seen
    ensures Fresh(g, seen + {n}) < Fresh(g, seen)
  {
    assert Below(|g|) - (seen + {n}) == (Below(|g|) - seen) - {n};
  }

  function Convert(g: Graph, v: Value, seen: set<nat>): Result<Json, ConvertError>
    requires Closed(g) && ValueIn(g, v)
    decreases Fresh(g, seen), 0
  {
    if !v.Ref? then Leaf(v)
    else if v.node in seen then Err(Circular)
    else if !IsPlain(g[v.node]) then Err(NotPlain)
    else
      FreshLess(g, seen, v.node);
      if g[v.node].Array? then
        var items := ConvertItems(g, g[v.node].items, seen + {v.node});
        if items.Err? then Err(items.error) else Ok(JArray(items.value))
      else ConvertEntries(g, g[v.node].entries, seen + {v.node})
  }

  function ConvertItems(g: Graph, items: seq<Value>, seen: set<nat>): (r: Result<seq<Json>, ConvertError>)
    requires Closed(g) && forall i | 0 <= i < |items| :: ValueIn(g, items[i])
    decreases Fresh(g, seen), 1, |items|
  {
    if items == [] then Ok([])
    else
      var k := |items| - 1;
      var before := ConvertItems(g, items[..k], seen);
      if before.Err? then before
      else
        var last := Convert(g, items[k], seen);
        if last.Err? then Err(last.error) else Ok(before.value + [last.value])
  }

  function ConvertEntries(g: Graph, entries: seq<Entry>, seen: set<nat>): (r: Result<Json, ConvertError>)
    requires Closed(g) && forall i | 0 <= i < |entries| :: ValueIn(g, entries[i].value)
    ensures r.Ok? ==> r.value.JObject?
    decreases Fresh(g, seen), 1, |entries|
  {
    if entries == [] then Ok(JObject(Plain, []))
    else
      var k := |entries| - 1;
      var before := ConvertEntries(g, entries[..k], seen);
      if before.Err? then before
      else
        var last := Convert(g, entries[k].value, seen);
        if last.Err? then Err(last.error) else Ok(Assign(before.value, entries[k].key, last.value))
  }

  // ---- when it succeeds ----

  /** The values an object holds. */
  predicate Child(n: Node, v: Value) {
    match n
    case Array(items) => exists i | 0 <= i < |items| :: items[i] == v
    case Record(_, entries) => exists i | 0 <= i < |entries| :: entries[i].value == v
    case Date(_) => false
  }

  /** A path through objects, each held by the one before. */
  predicate Path(g: Graph, p: seq<nat>) {
    && (forall i | 0 <= i < |p| :: p[i] < |g|)
    && (forall i | 0 < i < |p| :: Child(g[p[i - 1]], Ref(p[i])))
  }

  /** A path that starts at the value. */
  predicate Walk(g: Graph, v: Value, p: seq<nat>) { Path(g, p) && (p != [] ==> v == Ref(p[0])) }

  predicate GoodLeaf(v: Value) { v.Null? || v.Flag? || v.Number? || v.Text? || v.Ref? }

  predicate GoodNode(n: Node) {
    && IsPlain(n)
    && (n.Array? ==> forall i | 0 <= i < |n.items| :: GoodLeaf(n.items[i]))
    && (n.Record? ==> forall i | 0 <= i < |n.entries| :: GoodLeaf(n.entries[i].value))
  }

  /** A path of good objects that meets none of them twice, nor any of `seen`. */
  predicate GoodPath(g: Graph, p: seq<nat>, seen: set<nat>)
    requires Path(g, p)
  {
    && (forall i | 0 <= i < |p| :: p[i] !in seen && GoodNode(g[p[i]]))
    && (forall i, j | 0 <= i < j < |p| :: p[i] != p[j])
  }

  /** The reachable part is acyclic, with allowed leaves and plain containers only, and does not
      meet `seen`. */
  ghost predicate Sound(g: Graph, v: Value, seen: set<nat>) {
    GoodLeaf(v) && forall p | Walk(g, v, p) :: GoodPath(g, p, seen)
  }

  lemma {:induction false} PathMore(g: Graph, n: nat, q: seq<nat>)
    requires n < |g| && Path(g, q) && (q != [] ==> Child(g[n], Ref(q[0])))
    ensures Path(g, [n] + q)
  {
    hide Child;
    var p := [n] + q;
    forall i | 0 < i < |p|
      ensures Child(g[p[i - 1]], Ref(p[i]))
    {
      if i > 1 {
        assert p[i - 1] == q[i - 2] && p[i] == q[i - 1];
      }
    }
  }

  lemma {:induction false} PathLess(g: Graph, p: seq<nat>)
    requires Path(g, p) && p != []
    ensures Path(g, p[1..]) && (|p| > 1 ==> Child(g[p[0]], Ref(p[1])))
  {
    hide Child;
    var q := p[1..];
    forall i | 0 < i < |q|
      ensures Child(g[q[i - 1]], Ref(q[i]))
    {
      assert p[i] == q[i - 1] && p[i + 1] == q[i];
    }
  }

  /** An object is sound if it is new and plain and what it holds is sound below it. */
  lemma {:induction false} NodeSound(g: Graph, n: nat, seen: set<nat>)
    requires n < |g|
    ensures Sound(g, Ref(n), seen) <==>
            n !in seen && IsPlain(g[n]) && forall c | Child(g[n], c) :: Sound(g, c, seen + {n})
  {
    hide Child, GoodNode;
    if Sound(g, Ref(n), seen) {
      assert Walk(g, Ref(n), [n]);
      assert [n][0] == n && GoodNode(g[n]);
      GoodIsPlain(g[n]);
      forall c | Child(g[n], c)
        ensures Sound(g, c, seen + {n})
      {
        ChildrenAreGood(g[n], c);
        forall q | Walk(g, c, q)
          ensures GoodPath(g, q, seen + {n})
        {
          PathMore(g, n, q);
          assert Walk(g, Ref(n), [n] + q);
          GoodTail(g, n, q, seen);
        }
      }
    }
    if n !in seen && IsPlain(g[n]) && forall c | Child(g[n], c) :: Sound(g, c, seen + {n}) {
      GoodFromChildren(g, n, seen + {n});
      forall p | Walk(g, Ref(n), p)
        ensures GoodPath(g, p, seen)
      {
        if p != [] {
          PathLess(g, p);
          var q := p[1..];
          if q != [] {
            assert Child(g[n], Ref(q[0])) && Walk(g, Ref(q[0]), q);
          }
          assert p == [n] + q;
          GoodHead(g, n, q, seen);
        }
      }
    }
  }

  lemma {:induction false} GoodIsPlain(n: Node)
    requires GoodNode(n)
    ensures IsPlain(n)
  {
  }

  lemma {:induction false} ChildrenAreGood(n: Node, c: Value)
    requires GoodNode(n) && Child(n, c)
    ensures GoodLeaf(c)
  {
  }

  lemma {:induction false} GoodFromChildren(g: Graph, n: nat, seen: set<nat>)
    requires n < |g| && IsPlain(g[n]) && forall c | Child(g[n], c) :: Sound(g, c, seen)
    ensures GoodNode(g[n])
  {
    match g[n]
    case Array(items) =>
      forall i | 0 <= i < |items|
        ensures GoodLeaf(items[i])
      {
        assert Child(g[n], items[i]);
      }
    case Record(_, entries) =>
      forall i | 0 <= i < |entries|
        ensures GoodLeaf(entries[i].value)
      {
        assert Child(g[n], entries[i].value);
      }
    case Date(_) =>
  }

  lemma {:induction false} GoodTail(g: Graph, n: nat, q: seq<nat>, seen: set<nat>)
    requires Path(g, q) && Path(g, [n] + q) && GoodPath(g, [n] + q, seen)
    ensures GoodPath(g, q, seen + {n})
  {
    hide GoodNode, Child;
    var p := [n] + q;
    forall i | 0 <= i < |q|
      ensures q[i] !in seen + {n} && GoodNode(g[q[i]])
    {
      assert p[i + 1] == q[i] && p[0] == n;
    }
    forall i, j | 0 <= i < j < |q|
      ensures q[i] != q[j]
    {
      assert p[i + 1] == q[i] && p[j + 1] == q[j];
    }
  }

  lemma {:induction false} GoodHead(g: Graph, n: nat, q: seq<nat>, seen: set<nat>)
    requires Path(g, [n] + q) && n < |g| && GoodNode(g[n]) && n !in seen
    requires Path(g, q) && GoodPath(g, q, seen + {n})
    ensures GoodPath(g, [n] + q, seen)
  {
    hide GoodNode, Child;
    var p := [n] + q;
    forall i | 0 <= i < |p|
      ensures p[i] !in seen && GoodNode(g[p[i]])
    {
      if i > 0 {
        assert p[i] == q[i - 1];
      }
    }
    forall i, j | 0 <= i < j < |p|
      ensures p[i] != p[j]
    {
      assert p[j] == q[j - 1];
      if i > 0 {
        assert p[i] == q[i - 1];
      }
    }
  }

  lemma {:induction false} LeafSound(g: Graph, v: Value, seen: set<nat>)
    requires !v.Ref?
    ensures Sound(g, v, seen) <==> Leaf(v).Ok?
  {
    assert forall p | Walk(g, v, p) :: p == [];
  }

  /** The copy succeeds exactly when the reachable part of the graph is acyclic, with allowed
      leaves and plain containers only; objects may be shared. */
  lemma {:induction false} ConvertExactly(g: Graph, v: Value, seen: set<nat>)
    requires Closed(g) && ValueIn(g, v)
    ensures Convert(g, v, seen).Ok? <==> Sound(g, v, seen)
    decreases Fresh(g, seen), 0
  {
    hide Sound, Leaf, Fresh, NodeIn, ConvertItems, ConvertEntries;
    if !v.Ref? {
      LeafSound(g, v, seen);
    } else {
      var n := v.node;
      NodeSound(g, n, seen);
      if n !in seen && IsPlain(g[n]) {
        FreshLess(g, seen, n);
        ChildrenIn(g, n);
        if g[n].Array? {
          ItemsExactly(g, g[n].items, seen + {n});
        } else {
          EntriesExactly(g, g[n].entries, seen + {n});
        }
      }
    }
  }

  lemma {:induction false} ChildrenIn(g: Graph, n: nat)
    requires Closed(g) && n < |g|
    ensures g[n].Array? ==> forall i | 0 <= i < |g[n].items| :: ValueIn(g, g[n].items[i])
    ensures g[n].Record? ==> forall i | 0 <= i < |g[n].entries| :: ValueIn(g, g[n].entries[i].value)
  {
    assert NodeIn(g, g[n]);
  }

  lemma {:induction false} ItemsExactly(g: Graph, items: seq<Value>, seen: set<nat>)
    requires Closed(g) && forall i | 0 <= i < |items| :: ValueIn(g, items[i])
    ensures ConvertItems(g, items, seen).Ok? <==> forall i | 0 <= i < |items| :: Sound(g, items[i], seen)
    decreases Fresh(g, seen), 1, |items|
  {
    hide Sound, Convert, Closed, Fresh;
    if items != [] {
      var k := |items| - 1;
      ItemsExactly(g, items[..k], seen);
      ConvertExactly(g, items[k], seen);
      assert forall i | 0 <= i < k :: items[..k][i] == items[i];
    }
  }

  lemma {:induction false} EntriesExactly(g: Graph, entries: seq<Entry>, seen: set<nat>)
    requires Closed(g) && forall i | 0 <= i < |entries| :: ValueIn(g, entries[i].value)
    ensures ConvertEntries(g, entries, seen).Ok? <==>
            forall i | 0 <= i < |entries| :: Sound(g, entries[i].value, seen)
    decreases Fresh(g, seen), 1, |entries|
  {
    hide Sound, Convert, Closed, Fresh, Assign;
    if entries != [] {
      var k := |entries| - 1;
      EntriesExactly(g, entries[..k], seen);
      ConvertExactly(g, entries[k].value, seen);
      assert forall i | 0 <= i < k :: entries[..k][i] == entries[i];
    }
  }
}
