/**
 The copying walk as it runs: one set of the objects on the current path, to which each call
 adds its object and from which it takes it again on every way out.
 */
module JsonCopier {
  import opened Wrappers
  import opened ObjectGraph

  class Copier {
    var seen: set<nat>

    constructor ()
      ensures seen == {}
    {
      seen := {};
    }

    /** toProtocolJsonValue; a thrown TypeError is an Err result. */
    method ToProtocolJsonValue(g: Graph, v: Value) returns (r: Result<Json, ConvertError>)
      requires Closed(g) && ValueIn(g, v)
      modifies this
      ensures r == Convert(g, v, old(seen)) && seen == old(seen)
      decreases Fresh(g, seen), 0
    {
      hide Closed, Fresh;
      if !v.Ref? {
        return Leaf(v);
      }
      var n := v.node;
      if n in seen {
        return Err(Circular);
      }
      if !IsPlain(g[n]) {
        return Err(NotPlain);
      }
      FreshLess(g, seen, n);
      ChildrenIn(g, n);
      seen := seen + {n};
      if g[n].Array? {
        r := CopyItems(g, g[n].items);
      } else {
        r := CopyEntries(g, g[n].entries);
      }
      seen := seen - {n};
      assert old(seen) + {n} - {n} == old(seen);
    }

    method CopyItems(g: Graph, items: seq<Value>) returns (r: Result<Json, ConvertError>)
      requires Closed(g) && forall i | 0 <= i < |items| :: ValueIn(g, items[i])
      modifies this
      ensures var c := ConvertItems(g, items, old(seen));
              r == if c.Err? then Err(c.error) else Ok(JArray(c.value))
      ensures seen == old(seen)
      decreases Fresh(g, seen), 1
    {
      hide Closed, Fresh, Convert;
      var copies: seq<Json> := [];
      var k := 0;
      while k < |items|
        invariant k <= |items| && seen == old(seen)
        invariant ConvertItems(g, items[..k], seen) == Ok(copies)
      {
        ItemsSnoc(g, items, k, seen);
        var copy := ToProtocolJsonValue(g, items[k]);
        k := k + 1;
        if copy.Err? {
          ItemsFail(g, items, k, seen);
          return Err(copy.error);
        }
        copies := copies + [copy.value];
      }
      assert items[..|items|] == items;
      return Ok(JArray(copies));
    }

    method CopyEntries(g: Graph, entries: seq<Entry>) returns (r: Result<Json, ConvertError>)
      requires Closed(g) && forall i | 0 <= i < |entries| :: ValueIn(g, entries[i].value)
      modifies this
      ensures r == ConvertEntries(g, entries, old(seen)) && seen == old(seen)
      decreases Fresh(g, seen), 1
    {
      hide Closed, Fresh, Convert, Assign;
      var result := JObject(Plain, []);
      var k := 0;
      while k < |entries|
        invariant k <= |entries| && seen == old(seen) && result.JObject?
        invariant ConvertEntries(g, entries[..k], seen) == Ok(result)
      {
        EntriesSnoc(g, entries, k, seen);
        var copy := ToProtocolJsonValue(g, entries[k].value);
        if copy.Err? {
          EntriesFail(g, entries, k + 1, seen);
          return Err(copy.error);
        }
        result := Assign(result, entries[k].key, copy.value);
        k := k + 1;
      }
      assert entries[..|entries|] == entries;
      return Ok(result);
    }
  }

  lemma {:induction false} ItemsSnoc(g: Graph, items: seq<Value>, k: nat, seen: set<nat>)
    requires Closed(g) && k < |items| && forall i | 0 <= i < |items| :: ValueIn(g, items[i])
    requires ConvertItems(g, items[..k], seen).Ok?
    ensures var last := Convert(g, items[k], seen);
            ConvertItems(g, items[..k + 1], seen) ==
            if last.Err? then Err(last.error) else Ok(ConvertItems(g, items[..k], seen).value + [last.value])
  {
    hide Convert, Closed;
    assert items[..k + 1][..k] == items[..k];
  }

  /** An item that fails makes the whole array fail in the same way. */
  lemma {:induction false} ItemsFail(g: Graph, items: seq<Value>, k: nat, seen: set<nat>)
    requires Closed(g) && k <= |items| && forall i | 0 <= i < |items| :: ValueIn(g, items[i])
    requires ConvertItems(g, items[..k], seen).Err?
    ensures ConvertItems(g, items, seen) == ConvertItems(g, items[..k], seen)
    decreases |items| - k
  {
    hide Convert, Closed;
    if k == |items| {
      assert items[..k] == items;
    } else {
      assert items[..k + 1][..k] == items[..k];
      ItemsFail(g, items, k + 1, seen);
    }
  }

  lemma {:induction false} EntriesSnoc(g: Graph, entries: seq<Entry>, k: nat, seen: set<nat>)
    requires Closed(g) && k < |entries| && forall i | 0 <= i < |entries| :: ValueIn(g, entries[i].value)
    requires ConvertEntries(g, entries[..k], seen).Ok?
    ensures var last := Convert(g, entries[k].value, seen);
            ConvertEntries(g, entries[..k + 1], seen) ==
            if last.Err? then Err(last.error)
            else Ok(Assign(ConvertEntries(g, entries[..k], seen).value, entries[k].key, last.value))
  {
    hide Convert, Closed, Assign;
    assert entries[..k + 1][..k] == entries[..k];
  }

  lemma {:induction false} EntriesFail(g: Graph, entries: seq<Entry>, k: nat, seen: set<nat>)
    requires Closed(g) && k <= |entries| && forall i | 0 <= i < |entries| :: ValueIn(g, entries[i].value)
    requires ConvertEntries(g, entries[..k], seen).Err?
    ensures ConvertEntries(g, entries, seen) == ConvertEntries(g, entries[..k], seen)
    decreases |entries| - k
  {
    hide Convert, Closed, Assign;
    if k == |entries| {
      assert entries[..k] == entries;
    } else {
      assert entries[..k + 1][..k] == entries[..k];
      EntriesFail(g, entries, k + 1, seen);
    }
  }
}
