/** Python's `list.sort(key=..., reverse=True)`: descending and stable. */
module Sorting {

  /** Puts `x` behind everything whose key is at least its own. */
  function Insert<T>(s: seq<T>, x: T, key: T -> real): (r: seq<T>)
    ensures |r| == |s| + 1
  {
    if s == [] then [x]
    else
      var n := |s| - 1;
      if key(s[n]) >= key(x) then s + [x] else Insert(s[..n], x, key) + [s[n]]
  }

  function StableDesc<T>(s: seq<T>, key: T -> real): (r: seq<T>)
    ensures |r| == |s|
  {
    if s == [] then [] else Insert(StableDesc(s[..|s| - 1], key), s[|s| - 1], key)
  }

  ghost predicate Descending<T>(s: seq<T>, key: T -> real) {
    forall i, j :: 0 <= i < j < |s| ==> key(s[i]) >= key(s[j])
  }

  /** The elements with key `v`, in order. */
  function AtKey<T>(s: seq<T>, key: T -> real, v: real): seq<T> {
    if s == [] then []
    else AtKey(s[..|s| - 1], key, v) + if key(s[|s| - 1]) == v then [s[|s| - 1]] else []
  }

  lemma {:induction false} InsertPermutes<T>(s: seq<T>, x: T, key: T -> real)
    ensures multiset(Insert(s, x, key)) == multiset(s) + multiset{x}
  {
    if s != [] {
      var n := |s| - 1;
      assert s == s[..n] + [s[n]];
      if key(s[n]) < key(x) {
        InsertPermutes(s[..n], x, key);
      }
    }
  }

  lemma InsertHas<T>(s: seq<T>, x: T, key: T -> real, y: T)
    requires y in Insert(s, x, key)
    ensures y in s || y == x
  {
    hide Insert;
    InsertPermutes(s, x, key);
    assert y in multiset(Insert(s, x, key));
  }

  lemma {:induction false} InsertDescends<T>(s: seq<T>, x: T, key: T -> real)
    requires Descending(s, key)
    ensures Descending(Insert(s, x, key), key)
  {
    if s != [] {
      var n := |s| - 1;
      if key(s[n]) < key(x) {
        InsertDescends(s[..n], x, key);
        var t := Insert(s[..n], x, key);
        forall i | 0 <= i < n + 1
          ensures key(t[i]) >= key(s[n])
        {
          InsertHas(s[..n], x, key, t[i]);
        }
      }
    }
  }

  lemma {:induction false} InsertStable<T>(s: seq<T>, x: T, key: T -> real, v: real)
    requires Descending(s, key)
    ensures AtKey(Insert(s, x, key), key, v) == AtKey(s, key, v) + if key(x) == v then [x] else []
  {
    if s == [] {
      assert [x][..0] == [];
    } else {
      var n := |s| - 1;
      if key(s[n]) >= key(x) {
        assert (s + [x])[..|s|] == s;
      } else {
        InsertStable(s[..n], x, key, v);
        var t := Insert(s[..n], x, key);
        assert (t + [s[n]])[..|t|] == t;
      }
    }
  }

  /** Sorting permutes, leaves keys descending, and keeps the order of elements
      with equal keys. */
  lemma {:induction false} StableDescMeaning<T>(s: seq<T>, key: T -> real)
    ensures Descending(StableDesc(s, key), key)
    ensures multiset(StableDesc(s, key)) == multiset(s)
    ensures forall v :: AtKey(StableDesc(s, key), key, v) == AtKey(s, key, v)
  {
    hide Insert, Descending;
    if s == [] {
      NothingDescends(key);
    } else {
      var n := |s| - 1;
      var t := StableDesc(s[..n], key);
      StableDescMeaning(s[..n], key);
      InsertDescends(t, s[n], key);
      InsertPermutes(t, s[n], key);
      assert s == s[..n] + [s[n]];
      forall v
        ensures AtKey(StableDesc(s, key), key, v) == AtKey(s, key, v)
      {
        InsertStable(t, s[n], key, v);
      }
    }
  }

  lemma NothingDescends<T>(key: T -> real)
    ensures Descending([], key)
  {
  }

  lemma InsertLast<T>(s: seq<T>, x: T, key: T -> real)
    requires s == [] || key(s[|s| - 1]) >= key(x)
    ensures Insert(s, x, key) == s + [x]
  {
  }

  lemma DescendingFront<T>(s: seq<T>, key: T -> real)
    requires s != [] && Descending(s, key)
    ensures Descending(s[..|s| - 1], key)
    ensures |s| > 1 ==> key(s[|s| - 2]) >= key(s[|s| - 1])
  {
  }

  lemma {:induction false} SortedStays<T>(s: seq<T>, key: T -> real)
    requires Descending(s, key)
    ensures StableDesc(s, key) == s
  {
    hide Descending, Insert;
    if s != [] {
      var n := |s| - 1;
      DescendingFront(s, key);
      SortedStays(s[..n], key);
      InsertLast(s[..n], s[n], key);
      assert s == s[..n] + [s[n]];
    }
  }

  lemma {:induction false} InsertBehind<T>(a: seq<T>, b: seq<T>, x: T, key: T -> real)
    requires forall y :: y in a ==> key(y) >= key(x)
    ensures Insert(a + b, x, key) == a + Insert(b, x, key)
  {
    if b == [] {
      assert a + b == a;
      if a != [] {
        assert a[|a| - 1] in a;
      }
    } else {
      var n := |b| - 1;
      assert (a + b)[..|a| + n] == a + b[..n];
      InsertBehind(a, b[..n], x, key);
    }
  }

  /** Bands sort separately when every key of the first is at least every key
      of the second. */
  lemma {:induction false} BandsSortApart<T>(a: seq<T>, b: seq<T>, key: T -> real)
    requires forall x, y :: x in a && y in b ==> key(x) >= key(y)
    ensures StableDesc(a + b, key) == StableDesc(a, key) + StableDesc(b, key)
  {
    hide Insert;
    if b == [] {
      assert a + b == a;
    } else {
      var n := |b| - 1;
      assert (a + b)[..|a| + n] == a + b[..n] && b[n] in b;
      BandsSortApart(a, b[..n], key);
      forall y | y in StableDesc(a, key)
        ensures key(y) >= key(b[n])
      {
        SortHas(a, key, y);
      }
      InsertBehind(StableDesc(a, key), StableDesc(b[..n], key), b[n], key);
    }
  }

  lemma SortHas<T>(s: seq<T>, key: T -> real, y: T)
    requires y in StableDesc(s, key)
    ensures y in s
  {
    hide Descending, StableDesc, AtKey;
    StableDescMeaning(s, key);
    assert y in multiset(StableDesc(s, key));
  }

  lemma SortKeeps<T>(s: seq<T>, key: T -> real, y: T)
    requires y in s
    ensures y in StableDesc(s, key)
  {
    hide Descending, StableDesc, AtKey;
    StableDescMeaning(s, key);
    assert y in multiset(s);
  }

  function Map<S, T>(s: seq<S>, f: S -> T): (r: seq<T>)
    ensures |r| == |s|
    ensures forall i :: 0 <= i < |s| ==> r[i] == f(s[i])
  {
    seq(|s|, i requires 0 <= i < |s| => f(s[i]))
  }

  ghost predicate SameOrder<S, T>(s: set<S>, f: S -> T, key: S -> real, key': T -> real) {
    forall x, y :: x in s && y in s ==> (key(x) >= key(y) <==> key'(f(x)) >= key'(f(y)))
  }

  lemma MapPlus<S, T>(s: seq<S>, x: S, f: S -> T)
    ensures Map(s + [x], f) == Map(s, f) + [f(x)]
  {
  }

  lemma MapFront<S, T>(s: seq<S>, n: nat, f: S -> T)
    requires n <= |s|
    ensures Map(s, f)[..n] == Map(s[..n], f)
  {
  }

  lemma {:induction false} InsertMap<S, T>(s: seq<S>, x: S, f: S -> T, key: S -> real, key': T -> real, all: set<S>)
    requires SameOrder(all, f, key, key') && x in all && forall y :: y in s ==> y in all
    ensures Insert(Map(s, f), f(x), key') == Map(Insert(s, x, key), f)
  {
    hide Map;
    if s == [] {
      MapPlus([], x, f);
      assert [] + [x] == [x] && [] + [f(x)] == [f(x)] && Map([], f) == [];
    } else {
      var n := |s| - 1;
      assert s[n] in all;
      MapFront(s, n, f);
      assert key(s[n]) >= key(x) <==> key'(f(s[n])) >= key'(f(x));
      if key(s[n]) < key(x) {
        InsertMap(s[..n], x, f, key, key', all);
        MapPlus(Insert(s[..n], x, key), s[n], f);
      } else {
        MapPlus(s, x, f);
      }
    }
  }

  /** Sorting after mapping is mapping after sorting, for keys that agree on
      order. */
  lemma {:induction false} SortMap<S, T>(s: seq<S>, f: S -> T, key: S -> real, key': T -> real, all: set<S>)
    requires SameOrder(all, f, key, key') && forall y :: y in s ==> y in all
    ensures StableDesc(Map(s, f), key') == Map(StableDesc(s, key), f)
  {
    hide SameOrder, Insert;
    if s != [] {
      var n := |s| - 1;
      assert Map(s, f)[..n] == Map(s[..n], f) && s[n] in s;
      SortMap(s[..n], f, key, key', all);
      forall y | y in StableDesc(s[..n], key)
        ensures y in all
      {
        SortHas(s[..n], key, y);
      }
      InsertMap(StableDesc(s[..n], key), s[n], f, key, key', all);
    }
  }
}
