/** Sorting a copy of a list by a numeric key, largest first, as
    `[...xs].sort((a, b) => key(b) - key(a))` does. The array sort of the
    platform is stable, so items with equal keys keep their order; sorted,
    permuted and stable together fix the result uniquely. */
module Sorting {

  predicate SortedDesc<T>(s: seq<T>, key: T -> int) {
    forall i, j :: 0 <= i < j < |s| ==> key(s[i]) >= key(s[j])
  }

  /** Places `x` in front of the first item whose key is not larger. */
  function Insert<T>(x: T, s: seq<T>, key: T -> int): (r: seq<T>)
    requires SortedDesc(s, key)
    ensures SortedDesc(r, key)
    ensures multiset(r) == multiset(s) + multiset{x}
    ensures |r| == |s| + 1
    ensures r[0] == x || (s != [] && r[0] == s[0])
  {
    if s == [] || key(x) >= key(s[0]) then [x] + s
    else
      var rest := Insert(x, s[1..], key);
      assert s == [s[0]] + s[1..];
      assert key(s[0]) >= key(rest[0]);
      [s[0]] + rest
  }

  function SortDesc<T>(s: seq<T>, key: T -> int): (r: seq<T>)
    ensures SortedDesc(r, key)
    ensures multiset(r) == multiset(s)
    ensures |r| == |s|
  {
    if s == [] then []
    else
      assert s == [s[0]] + s[1..];
      Insert(s[0], SortDesc(s[1..], key), key)
  }

  /** The items of `s` whose key is `v`, in order. */
  function WithKey<T>(s: seq<T>, key: T -> int, v: int): seq<T> {
    if s == [] then [] else (if key(s[0]) == v then [s[0]] else []) + WithKey(s[1..], key, v)
  }

  lemma WithKeyCons<T>(a: T, t: seq<T>, key: T -> int, v: int)
    ensures WithKey([a] + t, key, v) == (if key(a) == v then [a] else []) + WithKey(t, key, v)
  {
    assert ([a] + t)[1..] == t;
  }

  /** Two neighbours with different keys can trade places without changing
      any key's sub-sequence. */
  lemma SwapStable<T>(a: T, b: T, t: seq<T>, key: T -> int, v: int)
    requires key(a) != key(b)
    ensures WithKey([a] + ([b] + t), key, v) == WithKey([b] + ([a] + t), key, v)
  {
    WithKeyCons(a, [b] + t, key, v);
    WithKeyCons(b, t, key, v);
    WithKeyCons(b, [a] + t, key, v);
    WithKeyCons(a, t, key, v);
  }

  lemma {:induction false} InsertStable<T>(x: T, s: seq<T>, key: T -> int, v: int)
    requires SortedDesc(s, key)
    ensures WithKey(Insert(x, s, key), key, v) == WithKey([x] + s, key, v)
    decreases |s|
  {
    if s != [] && key(x) < key(s[0]) {
      var head, tail := s[0], s[1..];
      var rest := Insert(x, tail, key);
      assert Insert(x, s, key) == [head] + rest;
      assert s == [head] + tail;
      calc {
        WithKey([head] + rest, key, v);
        { WithKeyCons(head, rest, key, v); }
        (if key(head) == v then [head] else []) + WithKey(rest, key, v);
        { InsertStable(x, tail, key, v); }
        (if key(head) == v then [head] else []) + WithKey([x] + tail, key, v);
        { WithKeyCons(head, [x] + tail, key, v); }
        WithKey([head] + ([x] + tail), key, v);
        { SwapStable(head, x, tail, key, v); }
        WithKey([x] + s, key, v);
      }
    }
  }

  /** Items with equal keys come out in the order they went in. */
  lemma {:induction false} SortStable<T>(s: seq<T>, key: T -> int, v: int)
    ensures WithKey(SortDesc(s, key), key, v) == WithKey(s, key, v)
    decreases |s|
  {
    if s != [] {
      var rest := SortDesc(s[1..], key);
      InsertStable(s[0], rest, key, v);
      SortStable(s[1..], key, v);
      WithKeyCons(s[0], rest, key, v);
      WithKeyCons(s[0], s[1..], key, v);
      assert s == [s[0]] + s[1..];
    }
  }
}
