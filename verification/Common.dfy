/** Shared vocabulary: optional values, error results, and the few list and
    dictionary idioms the Python code leans on. */
module Common {

  datatype Option<+T> = None | Some(value: T)

  datatype Result<+T, +E> = Success(value: T) | Failure(error: E)

  /** The token estimate used throughout: `len(text) // 4`. */
  function EstimateTokens(text: string): nat {
    |text| / 4
  }

  /** Lower case, for ASCII letters. */
  function LowerChar(c: char): char {
    if 'A' <= c <= 'Z' then (c as int + 32) as char else c
  }

  predicate NoDup<T(==)>(s: seq<T>) {
    forall i, j :: 0 <= i < j < |s| ==> s[i] != s[j]
  }

  /** `d.get(k, [])` */
  function Bucket<K, V>(d: map<K, seq<V>>, k: K): seq<V> {
    if k in d then d[k] else []
  }

  /** `d.setdefault(k, []).append(v)` */
  function Push<K, V>(d: map<K, seq<V>>, k: K, v: V): map<K, seq<V>> {
    d[k := Bucket(d, k) + [v]]
  }

  /** `s.remove(x)` with a missing element ignored. */
  function RemoveFirst<T(==)>(s: seq<T>, x: T): seq<T> {
    if s == [] then [] else if s[0] == x then s[1..] else [s[0]] + RemoveFirst(s[1..], x)
  }

  lemma {:induction false} RemoveFirstAbsent<T>(s: seq<T>, x: T)
    requires x !in s
    ensures RemoveFirst(s, x) == s
  {
    if s != [] {
      RemoveFirstAbsent(s[1..], x);
    }
  }

  lemma {:induction false} RemoveFirstKeeps<T>(s: seq<T>, x: T)
    requires NoDup(s)
    ensures NoDup(RemoveFirst(s, x))
    ensures forall y :: y in RemoveFirst(s, x) <==> y in s && y != x
  {
    if s != [] {
      var rest := s[1..];
      assert s == [s[0]] + rest && s[0] !in rest;
      RemoveFirstKeeps(rest, x);
    }
  }

  lemma {:induction false} RemoveFirstAppend<T>(s: seq<T>, x: T, y: T)
    requires x != y || x in s
    ensures RemoveFirst(s + [y], x) == RemoveFirst(s, x) + [y]
  {
    if s == [] {
    } else if s[0] == x {
      assert (s + [y])[1..] == s[1..] + [y];
    } else {
      assert (s + [y])[1..] == s[1..] + [y];
      RemoveFirstAppend(s[1..], x, y);
    }
  }
}
