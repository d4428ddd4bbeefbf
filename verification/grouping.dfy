/** The "jobs by date" dictionary that the dashboard, the date-picker popover
    and the calendar page build: every item is pushed onto the list of each of
    its day keys, in order, and a key is created on its first push.
    This module holds the value-level definition of that dictionary and what
    it contains; the components' loops are proved to compute it. */
module Grouping {
  import opened Common

  type Groups<J> = map<string, seq<J>>

  /** `if (!groups[k]) groups[k] = []; groups[k].push(j);` */
  function Push<J>(groups: Groups<J>, k: string, j: J): (r: Groups<J>)
    ensures r.Keys == groups.Keys + {k}
  {
    groups[k := Lookup(groups, k) + [j]]
  }

  /** The inner loop: push `j` under each of `keys`, first to last. */
  function PushAll<J>(groups: Groups<J>, keys: seq<string>, j: J): Groups<J> {
    if keys == [] then groups
    else Push(PushAll(groups, keys[..|keys| - 1], j), keys[|keys| - 1], j)
  }

  /** The dictionary built from `items`, where `keysOf(item)` lists the day
      keys of one item. */
  function GroupBy<J>(items: seq<J>, keysOf: J -> seq<string>): Groups<J> {
    if items == [] then map[]
    else PushAll(GroupBy(items[..|items| - 1], keysOf), keysOf(items[|items| - 1]), items[|items| - 1])
  }

  /** `groups[k] || []`: the list under `k`, or the empty list. */
  function Lookup<J>(groups: Groups<J>, k: string): seq<J> {
    if k in groups then groups[k] else []
  }

  /** `groups[k] || []` for a selected day, and `[]` when no day is selected. */
  function Selected<J>(groups: Groups<J>, key: Option<string>): seq<J> {
    match key
    case None => []
    case Some(k) => Lookup(groups, k)
  }

  // ------------------------------------------------- reference definition

  /** How many times `k` occurs in `keys`. */
  function Occurrences(k: string, keys: seq<string>): nat {
    if keys == [] then 0
    else Occurrences(k, keys[..|keys| - 1]) + (if keys[|keys| - 1] == k then 1 else 0)
  }

  function Repeat<J>(j: J, n: nat): (r: seq<J>)
    ensures |r| == n && forall i :: 0 <= i < n ==> r[i] == j
  {
    if n == 0 then [] else Repeat(j, n - 1) + [j]
  }

  /** What the list under `k` should be: the items in their order, each
      repeated once per occurrence of `k` among its keys. */
  function Expected<J>(items: seq<J>, keysOf: J -> seq<string>, k: string): seq<J> {
    if items == [] then []
    else Expected(items[..|items| - 1], keysOf, k) + Repeat(items[|items| - 1], Occurrences(k, keysOf(items[|items| - 1])))
  }

  /** The total number of keys over all items (the number of pushes). */
  function TotalKeys<J>(items: seq<J>, keysOf: J -> seq<string>): nat {
    if items == [] then 0 else TotalKeys(items[..|items| - 1], keysOf) + |keysOf(items[|items| - 1])|
  }

  /** Every list in the dictionary is non-empty. */
  predicate NoEmptyGroup<J>(groups: Groups<J>) {
    forall k :: k in groups ==> groups[k] != []
  }

  // ------------------------------------------------- contents, key by key

  lemma {:induction false} PushAllLookup<J>(groups: Groups<J>, keys: seq<string>, j: J, k: string)
    ensures Lookup(PushAll(groups, keys, j), k) == Lookup(groups, k) + Repeat(j, Occurrences(k, keys))
    decreases |keys|
  {
    if keys == [] {
      assert Lookup(groups, k) + [] == Lookup(groups, k);
    } else {
      var init := keys[..|keys| - 1];
      PushAllLookup(groups, init, j, k);
      if keys[|keys| - 1] == k {
        var n := Occurrences(k, init);
        assert Repeat(j, n + 1) == Repeat(j, n) + [j];
        assert Lookup(groups, k) + Repeat(j, n) + [j] == Lookup(groups, k) + (Repeat(j, n) + [j]);
      }
    }
  }

  /** The list under every key is exactly the reference list: each item, in
      the order of `items`, once per occurrence of the key among its keys. */
  lemma {:induction false} GroupByLookup<J>(items: seq<J>, keysOf: J -> seq<string>, k: string)
    ensures Lookup(GroupBy(items, keysOf), k) == Expected(items, keysOf, k)
    decreases |items|
  {
    if items != [] {
      var last := items[|items| - 1];
      GroupByLookup(items[..|items| - 1], keysOf, k);
      PushAllLookup(GroupBy(items[..|items| - 1], keysOf), keysOf(last), last, k);
    }
  }

  lemma {:induction false} RepeatCount<J>(j: J, n: nat, x: J)
    ensures multiset(Repeat(j, n))[x] == if x == j then n else 0
  {
    if n > 0 {
      RepeatCount(j, n - 1, x);
    }
  }

  lemma {:induction false} ExpectedCount<J>(items: seq<J>, keysOf: J -> seq<string>, k: string, x: J)
    ensures multiset(Expected(items, keysOf, k))[x] == multiset(items)[x] * Occurrences(k, keysOf(x))
    decreases |items|
  {
    if items != [] {
      var init, last := items[..|items| - 1], items[|items| - 1];
      var o := Occurrences(k, keysOf(x));
      var m := multiset(init)[x];
      ExpectedCount(init, keysOf, k, x);
      ExpectedStep(items, keysOf, k, x);
      if last == x {
        MulSucc(m, o);
      }
    }
  }

  /** One step of `Expected`, counted for one item. */
  lemma ExpectedStep<J>(items: seq<J>, keysOf: J -> seq<string>, k: string, x: J)
    requires items != []
    ensures var init, last := items[..|items| - 1], items[|items| - 1];
      && multiset(items)[x] == multiset(init)[x] + (if last == x then 1 else 0)
      && multiset(Expected(items, keysOf, k))[x]
         == multiset(Expected(init, keysOf, k))[x] + (if last == x then Occurrences(k, keysOf(x)) else 0)
  {
    var init, last := items[..|items| - 1], items[|items| - 1];
    assert items == init + [last];
    RepeatCount(last, Occurrences(k, keysOf(last)), x);
  }

  lemma MulSucc(m: nat, o: nat)
    ensures (m + 1) * o == m * o + o
  {
  }

  /** The list under `k` holds `x` exactly as often as `x` occurs in the
      items times how often `k` occurs among the keys of `x`. */
  lemma GroupByCount<J>(items: seq<J>, keysOf: J -> seq<string>, k: string, x: J)
    ensures multiset(Lookup(GroupBy(items, keysOf), k))[x] == multiset(items)[x] * Occurrences(k, keysOf(x))
  {
    GroupByLookup(items, keysOf, k);
    ExpectedCount(items, keysOf, k, x);
  }

  lemma OccurrencesSingle(k: string, key: string)
    ensures Occurrences(k, [key]) == if key == k then 1 else 0
  {
    assert [key][..0] == [];
  }

  lemma {:induction false} OccurrencesPositive(k: string, keys: seq<string>)
    ensures Occurrences(k, keys) > 0 <==> k in keys
  {
    if keys != [] {
      var init := keys[..|keys| - 1];
      OccurrencesPositive(k, init);
      assert keys == init + [keys[|keys| - 1]];
    }
  }

  lemma {:induction false} ExpectedEmptyIff<J>(items: seq<J>, keysOf: J -> seq<string>, k: string)
    ensures Expected(items, keysOf, k) == [] <==> forall i :: 0 <= i < |items| ==> k !in keysOf(items[i])
    decreases |items|
  {
    if items != [] {
      var init, last := items[..|items| - 1], items[|items| - 1];
      ExpectedEmptyIff(init, keysOf, k);
      OccurrencesPositive(k, keysOf(last));
      assert forall i :: 0 <= i < |init| ==> init[i] == items[i];
    }
  }

  // ------------------------------------------------- the keys

  lemma {:induction false} PushAllKeys<J>(groups: Groups<J>, keys: seq<string>, j: J)
    requires NoEmptyGroup(groups)
    ensures NoEmptyGroup(PushAll(groups, keys, j))
    ensures forall k :: k in PushAll(groups, keys, j) <==> k in groups || k in keys
    decreases |keys|
  {
    if keys != [] {
      var init := keys[..|keys| - 1];
      PushAllKeys(groups, init, j);
      assert keys == init + [keys[|keys| - 1]];
    }
  }

  /** The keys of the dictionary are exactly the keys of the items, and no
      key holds an empty list: every highlighted day has at least one item. */
  lemma {:induction false} GroupByKeys<J>(items: seq<J>, keysOf: J -> seq<string>)
    ensures NoEmptyGroup(GroupBy(items, keysOf))
    ensures forall k :: k in GroupBy(items, keysOf) <==> exists i :: 0 <= i < |items| && k in keysOf(items[i])
    decreases |items|
  {
    if items != [] {
      var init, last := items[..|items| - 1], items[|items| - 1];
      GroupByKeys(init, keysOf);
      PushAllKeys(GroupBy(init, keysOf), keysOf(last), last);
      forall k ensures k in GroupBy(items, keysOf) <==> exists i :: 0 <= i < |items| && k in keysOf(items[i]) {
        if exists i :: 0 <= i < |items| && k in keysOf(items[i]) {
          var i :| 0 <= i < |items| && k in keysOf(items[i]);
          if i < |init| {
            assert init[i] == items[i];
          }
        }
        if exists i :: 0 <= i < |init| && k in keysOf(init[i]) {
          var i :| 0 <= i < |init| && k in keysOf(init[i]);
          assert init[i] == items[i];
        }
      }
    }
  }

  // ------------------------------------------------- sizes

  ghost function Pick(s: set<string>): string
    requires s != {}
  {
    var x :| x in s; x
  }

  /** The sum of the sizes of the lists under `keys`. */
  ghost function SizeOver<J>(groups: Groups<J>, keys: set<string>): nat
    decreases keys
  {
    if keys == {} then 0
    else var k := Pick(keys); |Lookup(groups, k)| + SizeOver(groups, keys - {k})
  }

  /** The sum of the sizes of all lists. */
  ghost function TotalSize<J>(groups: Groups<J>): nat {
    SizeOver(groups, groups.Keys)
  }

  lemma {:induction false} SizeOverRemove<J>(groups: Groups<J>, keys: set<string>, k: string)
    requires k in keys
    ensures SizeOver(groups, keys) == |Lookup(groups, k)| + SizeOver(groups, keys - {k})
    decreases keys
  {
    var p := Pick(keys);
    if p != k {
      SizeOverRemove(groups, keys - {p}, k);
      SizeOverRemove(groups, keys - {k}, p);
      assert keys - {p} - {k} == keys - {k} - {p};
    }
  }

  lemma {:induction false} SizeOverFrame<J>(g1: Groups<J>, g2: Groups<J>, keys: set<string>)
    requires forall k :: k in keys ==> Lookup(g1, k) == Lookup(g2, k)
    ensures SizeOver(g1, keys) == SizeOver(g2, keys)
    decreases keys
  {
    if keys != {} {
      SizeOverFrame(g1, g2, keys - {Pick(keys)});
    }
  }

  lemma PushSize<J>(groups: Groups<J>, k: string, j: J)
    ensures TotalSize(Push(groups, k, j)) == TotalSize(groups) + 1
  {
    var g := Push(groups, k, j);
    SizeOverRemove(g, g.Keys, k);
    SizeOverFrame(g, groups, g.Keys - {k});
    if k in groups {
      SizeOverRemove(groups, groups.Keys, k);
      assert g.Keys - {k} == groups.Keys - {k};
    } else {
      assert g.Keys - {k} == groups.Keys;
    }
  }

  lemma {:induction false} PushAllSize<J>(groups: Groups<J>, keys: seq<string>, j: J)
    ensures TotalSize(PushAll(groups, keys, j)) == TotalSize(groups) + |keys|
    decreases |keys|
  {
    if keys != [] {
      PushAllSize(groups, keys[..|keys| - 1], j);
      PushSize(PushAll(groups, keys[..|keys| - 1], j), keys[|keys| - 1], j);
    }
  }

  /** The sizes of all lists add up to the number of keys over all items. */
  lemma {:induction false} GroupBySize<J>(items: seq<J>, keysOf: J -> seq<string>)
    ensures TotalSize(GroupBy(items, keysOf)) == TotalKeys(items, keysOf)
    decreases |items|
  {
    if items != [] {
      var init, last := items[..|items| - 1], items[|items| - 1];
      GroupBySize(init, keysOf);
      PushAllSize(GroupBy(init, keysOf), keysOf(last), last);
    }
  }
}
