/**
 * The stable sorts the controllers use to order candidate cells (ascending distance)
 * and agents (descending priority). `Array.prototype.sort` and Python's `sorted` are
 * stable; the insertion sort below keeps equal keys in their original order as well.
 */
module Ordering {

  /** Inserts `x` before the first element whose key is not smaller than its own. */
  function InsertBy<T>(x: T, s: seq<T>, key: T -> real): (r: seq<T>)
    ensures multiset(r) == multiset(s) + multiset{x}
  {
    if s == [] || key(x) <= key(s[0]) then [x] + s
    else
      assert s == [s[0]] + s[1..];
      [s[0]] + InsertBy(x, s[1..], key)
  }

  /** Stable ascending sort by `key`. */
  function SortBy<T>(s: seq<T>, key: T -> real): (r: seq<T>)
    ensures multiset(r) == multiset(s)
  {
    if s == [] then []
    else
      assert s == [s[0]] + s[1..];
      InsertBy(s[0], SortBy(s[1..], key), key)
  }

  ghost predicate SortedBy<T>(s: seq<T>, key: T -> real)
  {
    forall i, j :: 0 <= i < j < |s| ==> key(s[i]) <= key(s[j])
  }

  lemma {:induction false} InsertBySorted<T>(x: T, s: seq<T>, key: T -> real)
    requires SortedBy(s, key)
    ensures SortedBy(InsertBy(x, s, key), key)
  {
    if s != [] && key(x) > key(s[0]) {
      InsertBySorted(x, s[1..], key);
      var t := InsertBy(x, s[1..], key);
      assert multiset(t) == multiset(s[1..]) + multiset{x};
      forall k | 0 <= k < |t| ensures key(s[0]) <= key(t[k]) {
        assert t[k] in multiset(t);
        if t[k] != x {
          assert t[k] in multiset(s[1..]);
          var m :| 0 <= m < |s[1..]| && s[1..][m] == t[k];
          assert s[1..][m] == s[m + 1];
        }
      }
    }
  }

  /** The sort orders its input by key and is a permutation of it. */
  lemma {:induction false} SortBySorted<T>(s: seq<T>, key: T -> real)
    ensures SortedBy(SortBy(s, key), key)
    ensures multiset(SortBy(s, key)) == multiset(s)
  {
    if s != [] {
      SortBySorted(s[1..], key);
      InsertBySorted(s[0], SortBy(s[1..], key), key);
    }
  }

  /** Agent indices 0..n-1. */
  function Indices(n: nat): (r: seq<nat>)
    ensures |r| == n && forall k :: 0 <= k < n ==> r[k] == k
  {
    if n == 0 then [] else Indices(n - 1) + [n - 1]
  }

  /**
   * Agents in descending priority order, ties kept in index order
   * (`sort((a, b) => priorities[b] - priorities[a])`, `sorted(..., reverse=True)`).
   */
  function ByPriority(priorities: seq<real>): (r: seq<nat>)
  {
    SortBy(Indices(|priorities|), (k: nat) => if k < |priorities| then -priorities[k] else 0.0)
  }

  /** Every agent appears exactly once, and a higher priority comes first. */
  lemma ByPriorityOrder(priorities: seq<real>)
    ensures |ByPriority(priorities)| == |priorities|
    ensures forall k :: 0 <= k < |priorities| ==> k in ByPriority(priorities)
    ensures forall t :: 0 <= t < |priorities| ==> ByPriority(priorities)[t] < |priorities|
    ensures forall s, t :: 0 <= s < t < |priorities| ==>
      priorities[ByPriority(priorities)[s]] >= priorities[ByPriority(priorities)[t]]
  {
    var key := (k: nat) => if k < |priorities| then -priorities[k] else 0.0;
    var ids := Indices(|priorities|);
    var r := ByPriority(priorities);
    SortBySorted(ids, key);
    assert |r| == |multiset(r)| == |multiset(ids)| == |ids|;
    forall k | 0 <= k < |priorities| ensures k in r {
      assert ids[k] == k;
      assert k in multiset(ids);
    }
    forall t | 0 <= t < |priorities| ensures r[t] < |priorities| {
      assert r[t] in multiset(r);
      assert r[t] in multiset(ids);
    }
    forall s, t | 0 <= s < t < |priorities|
      ensures priorities[r[s]] >= priorities[r[t]]
    {
      assert r[s] in multiset(ids) && r[t] in multiset(ids);
      assert key(r[s]) <= key(r[t]);
    }
  }

  /** Index of the first element of smallest key. */
  function FirstMinimal<T>(s: seq<T>, key: T -> real): (r: nat)
    requires s != []
    ensures r < |s| && forall k :: 0 <= k < |s| ==> key(s[r]) <= key(s[k])
    ensures forall k :: 0 <= k < r ==> key(s[k]) > key(s[r])
  {
    if |s| == 1 then 0
    else
      var m := FirstMinimal(s[1..], key);
      if key(s[0]) <= key(s[1 + m]) then 0 else 1 + m
  }

  /**
   * In a strictly increasing list, the first element of smallest key has a key no larger
   * than any member's, and a strictly smaller one than any member below it.
   */
  lemma FirstMinimalBelow(s: seq<nat>, key: nat -> real, k: nat)
    requires s != [] && k in s && forall a, b :: 0 <= a < b < |s| ==> s[a] < s[b]
    ensures key(s[FirstMinimal(s, key)]) <= key(k)
    ensures k < s[FirstMinimal(s, key)] ==> key(s[FirstMinimal(s, key)]) < key(k)
  {
    var j :| 0 <= j < |s| && s[j] == k;
    var m := FirstMinimal(s, key);
    if m < j {
      assert s[m] < s[j];
    }
  }

  /** Stability at the head: the sort starts with the first element of smallest key. */
  lemma {:induction false} SortByHead<T>(s: seq<T>, key: T -> real)
    requires s != []
    ensures SortBy(s, key) != [] && SortBy(s, key)[0] == s[FirstMinimal(s, key)]
  {
    if |s| > 1 {
      SortByHead(s[1..], key);
    }
  }

  /** The elements of `s` whose key is `k`, in their order in `s`. */
  function OfKey<T>(s: seq<T>, key: T -> real, k: real): seq<T>
  {
    if s == [] then []
    else (if key(s[0]) == k then [s[0]] else []) + OfKey(s[1..], key, k)
  }

  /** Insertion places `x` in front of every element of its own key. */
  lemma {:induction false} InsertByOfKey<T>(x: T, t: seq<T>, key: T -> real, k: real)
    ensures OfKey(InsertBy(x, t, key), key, k) == (if key(x) == k then [x] else []) + OfKey(t, key, k)
  {
    var r := InsertBy(x, t, key);
    if t == [] || key(x) <= key(t[0]) {
      assert r[1..] == t;
    } else {
      InsertByOfKey(x, t[1..], key, k);
      assert r[1..] == InsertBy(x, t[1..], key);
    }
  }

  /**
   * Stability: among the elements of any one key the sort keeps the order of its input, so
   * elements of equal key come out as they went in.
   */
  lemma {:induction false} SortByStable<T>(s: seq<T>, key: T -> real, k: real)
    ensures OfKey(SortBy(s, key), key, k) == OfKey(s, key, k)
  {
    if s != [] {
      SortByStable(s[1..], key, k);
      InsertByOfKey(s[0], SortBy(s[1..], key), key, k);
    }
  }
}
