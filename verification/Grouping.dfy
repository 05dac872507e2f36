/** Grouping a list by a key, as filling an ordered map does. */
module Grouping {
  import opened Sorting

  /** The elements under one key, in order of arrival. */
  function With<T, K(==)>(key: T -> K, xs: seq<T>, k: K): seq<T>
    decreases |xs|
  {
    if xs == [] then []
    else With(key, xs[..|xs| - 1], k) + (if key(xs[|xs| - 1]) == k then [xs[|xs| - 1]] else [])
  }

  /** The distinct keys in order of first appearance. */
  function Keys<T, K(==)>(key: T -> K, xs: seq<T>): seq<K>
    decreases |xs|
  {
    if xs == [] then []
    else
      var before, k := Keys(key, xs[..|xs| - 1]), key(xs[|xs| - 1]);
      if k in before then before else before + [k]
  }

  lemma {:induction false} KeysExact<T, K(!new)>(key: T -> K, xs: seq<T>)
    ensures Distinct(Keys(key, xs))
    ensures forall k :: k in Keys(key, xs) <==> exists i :: 0 <= i < |xs| && key(xs[i]) == k
    decreases |xs|
  {
    if xs != [] {
      var before, last := xs[..|xs| - 1], xs[|xs| - 1];
      KeysExact(key, before);
      forall k ensures k in Keys(key, xs) <==> exists i :: 0 <= i < |xs| && key(xs[i]) == k {
        if i :| 0 <= i < |xs| && key(xs[i]) == k { if i < |before| { assert key(before[i]) == k; } }
        if i :| 0 <= i < |before| && key(before[i]) == k { assert key(xs[i]) == k; }
        if k == key(last) { assert key(xs[|xs| - 1]) == k; }
      }
    }
  }

  lemma {:induction false} WithExact<T, K>(key: T -> K, xs: seq<T>, k: K)
    ensures forall x :: x in With(key, xs, k) <==> x in xs && key(x) == k
    decreases |xs|
  {
    if xs != [] {
      WithExact(key, xs[..|xs| - 1], k);
      assert xs == xs[..|xs| - 1] + [xs[|xs| - 1]];
    }
  }

  /** The keys in key order. */
  function SortedKeys<T, K(==)>(le: (K, K) -> bool, key: T -> K, xs: seq<T>): seq<K> { SortBy(le, Keys(key, xs)) }

  lemma SortedKeysExact<T, K(!new)>(le: (K, K) -> bool, key: T -> K, xs: seq<T>)
    requires TotalOrder(le)
    ensures Ascending(le, SortedKeys(le, key, xs))
    ensures forall k :: k in SortedKeys(le, key, xs) <==> exists i :: 0 <= i < |xs| && key(xs[i]) == k
  {
    hide Keys, SortBy;
    KeysExact(key, xs);
    SortDistinct(le, Keys(key, xs));
  }

  /** One pass fills the map: every key with its elements. */
  method GroupBy<T, K(==)>(key: T -> K, xs: seq<T>) returns (groups: map<K, seq<T>>, keys: seq<K>)
    ensures keys == Keys(key, xs)
    ensures forall k :: k in groups <==> k in keys
    ensures forall k :: k in groups ==> groups[k] == With(key, xs, k)
  {
    groups, keys := map[], [];
    for i := 0 to |xs|
      invariant keys == Keys(key, xs[..i])
      invariant forall k :: k in groups <==> k in keys
      invariant forall k :: k in groups ==> groups[k] == With(key, xs[..i], k)
      invariant forall k :: k !in groups ==> With(key, xs[..i], k) == []
    {
      var x := xs[i];
      assert xs[..i + 1][..i] == xs[..i];
      if key(x) !in groups {
        keys := keys + [key(x)];
      }
      var members := if key(x) in groups then groups[key(x)] else [];
      forall k | k in groups || k == key(x)
        ensures With(key, xs[..i + 1], k) == With(key, xs[..i], k) + (if key(x) == k then [x] else [])
      {
        assert xs[..i + 1][|xs[..i + 1]| - 1] == x;
      }
      assert members == With(key, xs[..i], key(x));
      groups := groups[key(x) := members + [x]];
    }
    assert xs[..|xs|] == xs;
  }
}
