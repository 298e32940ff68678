/** The stable sort that the source uses (`Array.prototype.sort` with a numeric comparison). */
module StableSort {
  datatype Keyed<T> = Keyed(item: T, key: int)

  predicate Ascending<T>(s: seq<Keyed<T>>) {
    forall i, j | 0 <= i < j < |s| :: s[i].key <= s[j].key
  }

  /** The elements with one key, in their order. */
  function WithKey<T>(s: seq<Keyed<T>>, key: int): (r: seq<Keyed<T>>) {
    if s == [] then []
    else WithKey(s[..|s| - 1], key) + if s[|s| - 1].key == key then [s[|s| - 1]] else []
  }

  /** `x` behind all elements whose key is not greater. */
  function Insert<T>(s: seq<Keyed<T>>, x: Keyed<T>): seq<Keyed<T>> {
    if s == [] || s[|s| - 1].key <= x.key then s + [x]
    else Insert(s[..|s| - 1], x) + [s[|s| - 1]]
  }

  function Sort<T>(s: seq<Keyed<T>>): seq<Keyed<T>> {
    if s == [] then [] else Insert(Sort(s[..|s| - 1]), s[|s| - 1])
  }

  lemma {:induction false} WithKeySnoc<T>(s: seq<Keyed<T>>, x: Keyed<T>, key: int)
    ensures WithKey(s + [x], key) == WithKey(s, key) + if x.key == key then [x] else []
  {
    assert (s + [x])[..|s|] == s;
  }

  lemma {:induction false} InsertSorts<T>(s: seq<Keyed<T>>, x: Keyed<T>)
    requires Ascending(s)
    ensures Ascending(Insert(s, x))
    ensures forall k | 0 <= k < |Insert(s, x)| :: Insert(s, x)[k] == x || Insert(s, x)[k] in s
  {
    if s != [] && s[|s| - 1].key > x.key {
      InsertSorts(s[..|s| - 1], x);
    }
  }

  lemma {:induction false} NoneAbove<T>(s: seq<Keyed<T>>, key: int)
    requires forall i | 0 <= i < |s| :: s[i].key < key
    ensures WithKey(s, key) == []
  {
    if s != [] {
      NoneAbove(s[..|s| - 1], key);
    }
  }

  lemma {:induction false} InsertIsStable<T>(s: seq<Keyed<T>>, x: Keyed<T>, key: int)
    requires Ascending(s)
    ensures WithKey(Insert(s, x), key) == WithKey(s, key) + if x.key == key then [x] else []
  {
    if s == [] || s[|s| - 1].key <= x.key {
      WithKeySnoc(s, x, key);
    } else {
      var k := |s| - 1;
      InsertIsStable(s[..k], x, key);
      WithKeySnoc(Insert(s[..k], x), s[k], key);
    }
  }

  /** The result is ascending, and elements with equal keys keep their order; so it holds the
      same elements as often. */
  lemma {:induction false} SortIsStable<T>(s: seq<Keyed<T>>)
    ensures Ascending(Sort(s))
    ensures forall key :: WithKey(Sort(s), key) == WithKey(s, key)
  {
    if s != [] {
      var k := |s| - 1;
      SortIsStable(s[..k]);
      InsertSorts(Sort(s[..k]), s[k]);
      forall key
        ensures WithKey(Sort(s), key) == WithKey(s, key)
      {
        InsertIsStable(Sort(s[..k]), s[k], key);
      }
    }
  }

  lemma {:induction false} LastOfKey<T>(s: seq<Keyed<T>>, key: int)
    requires s != [] && s[|s| - 1].key == key
    ensures WithKey(s, key) == WithKey(s[..|s| - 1], key) + [s[|s| - 1]]
  {
  }

  lemma {:induction false} HasKey<T>(s: seq<Keyed<T>>, key: int)
    requires WithKey(s, key) != []
    ensures exists i | 0 <= i < |s| :: s[i].key == key
  {
    if s[|s| - 1].key != key {
      HasKey(s[..|s| - 1], key);
    }
  }

  /** There is only one such result, so this is the sort that the source's comparison asks for. */
  lemma {:induction false} SortedOnce<T>(a: seq<Keyed<T>>, b: seq<Keyed<T>>)
    requires Ascending(a) && Ascending(b)
    requires forall key :: WithKey(a, key) == WithKey(b, key)
    ensures a == b
    decreases |a| + |b|
  {
    if a == [] {
      if b != [] {
        LastOfKey(b, b[|b| - 1].key);
        assert false;
      }
    } else if b == [] {
      LastOfKey(a, a[|a| - 1].key);
      assert false;
    } else {
      var m, n := |a| - 1, |b| - 1;
      SameLast(a, b);
      assert a[m] == b[n];
      forall key
        ensures WithKey(a[..m], key) == WithKey(b[..n], key)
      {
        assert WithKey(a, key) == WithKey(b, key);
        DropLast(a, key);
        DropLast(b, key);
      }
      SortedOnce(a[..m], b[..n]);
      assert a == a[..m] + [a[m]] && b == b[..n] + [b[n]];
    }
  }

  lemma {:induction false} DropLast<T>(s: seq<Keyed<T>>, key: int)
    requires s != []
    ensures var last := s[|s| - 1];
            WithKey(s[..|s| - 1], key) ==
            if last.key == key then WithKey(s, key)[..|WithKey(s, key)| - 1] else WithKey(s, key)
  {
  }

  lemma {:induction false} SameLast<T>(a: seq<Keyed<T>>, b: seq<Keyed<T>>)
    requires Ascending(a) && Ascending(b) && a != [] && b != []
    requires forall key :: WithKey(a, key) == WithKey(b, key)
    ensures a[|a| - 1] == b[|b| - 1]
  {
    var x, y := a[|a| - 1], b[|b| - 1];
    LastOfKey(a, x.key);
    LastOfKey(b, y.key);
    assert WithKey(b, x.key) == WithKey(a, x.key) && WithKey(a, y.key) == WithKey(b, y.key);
    HasKey(b, x.key);
    HasKey(a, y.key);
    var of := WithKey(a, x.key);
    assert of == WithKey(b, y.key);
    assert of[|of| - 1] == x && of[|of| - 1] == y;
  }
}
