/**
 * What numpy's `argsort` returns: a permutation of the positions of its
 * argument that lists them in non-decreasing order of value. The default
 * sort is not stable, so the order among equal values is left open; a
 * stable insertion sort shows that such a permutation always exists.
 */
module Argsort {

  /** order lists each of 0 .. n-1 exactly once. */
  predicate IsIndexPermutation(order: seq<nat>, n: nat) {
    && |order| == n
    && (forall k :: 0 <= k < |order| ==> order[k] < n)
    && Distinct(order)
    && (forall j :: 0 <= j < n ==> j in order)
  }

  predicate SortedByKey(order: seq<nat>, key: seq<nat>)
    requires forall k :: 0 <= k < |order| ==> order[k] < |key|
  {
    forall a, b :: 0 <= a < b < |order| ==> key[order[a]] <= key[order[b]]
  }

  predicate IsArgsort(order: seq<nat>, key: seq<nat>) {
    IsIndexPermutation(order, |key|) && SortedByKey(order, key)
  }

  predicate Distinct(s: seq<nat>) {
    forall a, b :: 0 <= a < b < |s| ==> s[a] != s[b]
  }

  /** Inserts x after every leading element whose key is at most key[x]. */
  function InsertByKey(x: nat, s: seq<nat>, key: seq<nat>): (r: seq<nat>)
    requires x < |key| && forall k :: 0 <= k < |s| ==> s[k] < |key|
    ensures |r| == |s| + 1
    ensures forall y :: y in r <==> y == x || y in s
  {
    if s == [] then [x]
    else if key[x] < key[s[0]] then [x] + s
    else
      var rest := InsertByKey(x, s[1..], key);
      assert forall y :: y in s ==> y == s[0] || y in s[1..];
      [s[0]] + rest
  }

  lemma {:induction false} InsertKeepsSorted(x: nat, s: seq<nat>, key: seq<nat>)
    requires x < |key| && forall k :: 0 <= k < |s| ==> s[k] < |key|
    requires SortedByKey(s, key)
    ensures var r := InsertByKey(x, s, key);
      (forall k :: 0 <= k < |r| ==> r[k] < |key|) && SortedByKey(r, key)
  {
    var r := InsertByKey(x, s, key);
    assert forall k :: 0 <= k < |r| ==> r[k] < |key| by {
      forall k | 0 <= k < |r|
        ensures r[k] < |key|
      {
        assert r[k] in r;
      }
    }
    if s != [] && key[s[0]] <= key[x] {
      var tail := s[1..];
      InsertKeepsSorted(x, tail, key);
      var rest := InsertByKey(x, tail, key);
      assert r == [s[0]] + rest;
      forall k | 0 <= k < |rest|
        ensures key[s[0]] <= key[rest[k]]
      {
        assert rest[k] in rest;
        if rest[k] != x {
          var j :| 0 <= j < |tail| && tail[j] == rest[k];
          assert s[j + 1] == rest[k];
        }
      }
    }
  }

  lemma {:induction false} InsertKeepsDistinct(x: nat, s: seq<nat>, key: seq<nat>)
    requires x < |key| && forall k :: 0 <= k < |s| ==> s[k] < |key|
    requires x !in s && Distinct(s)
    ensures Distinct(InsertByKey(x, s, key))
  {
    if s != [] && key[s[0]] <= key[x] {
      var tail := s[1..];
      assert x !in tail;
      InsertKeepsDistinct(x, tail, key);
      var rest := InsertByKey(x, tail, key);
      assert s[0] !in tail;
      assert s[0] !in rest;
    }
  }

  /** Insertion sort of the positions 0 .. n-1 by key. */
  function SortPrefix(key: seq<nat>, n: nat): (order: seq<nat>)
    requires n <= |key|
    ensures IsIndexPermutation(order, n)
    ensures SortedByKey(order, key)
  {
    if n == 0 then []
    else
      var prefix := SortPrefix(key, n - 1);
      var r := InsertByKey(n - 1, prefix, key);
      InsertKeepsSorted(n - 1, prefix, key);
      InsertKeepsDistinct(n - 1, prefix, key);
      assert forall k :: 0 <= k < |r| ==> r[k] < n by {
        forall k | 0 <= k < |r|
          ensures r[k] < n
        {
          assert r[k] in r;
        }
      }
      assert forall j :: 0 <= j < n ==> j in r by {
        forall j | 0 <= j < n
          ensures j in r
        {
          if j < n - 1 {
            assert j in prefix;
          }
        }
      }
      r
  }

  /** A stable argsort; every key has at least this one. */
  function StableArgsort(key: seq<nat>): (order: seq<nat>)
    ensures IsArgsort(order, key)
  {
    SortPrefix(key, |key|)
  }
}
