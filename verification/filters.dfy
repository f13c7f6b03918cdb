/**
 * Order-preserving selection, as `Array.prototype.filter` and list comprehensions with a
 * condition perform it: the result lists the kept elements in their original order, each as
 * often as it occurs.
 */
module Filters {

  /** `r[a]` is the element at position `idx[a]` of `s`, and it satisfies `p`. */
  ghost predicate Reads<T>(s: seq<T>, p: T -> bool, idx: seq<nat>, r: seq<T>)
  {
    |idx| == |r| && forall a :: 0 <= a < |idx| ==> idx[a] < |s| && r[a] == s[idx[a]] && p(r[a])
  }

  /** The positions increase, so the selection keeps the order of `s`. */
  ghost predicate Increasing(idx: seq<nat>)
  {
    forall a, b :: 0 <= a < b < |idx| ==> idx[a] < idx[b]
  }

  /** Every position of `s` whose element satisfies `p` is listed. */
  ghost predicate Covers<T>(s: seq<T>, p: T -> bool, idx: seq<nat>)
  {
    forall i :: 0 <= i < |s| && p(s[i]) ==> exists a :: 0 <= a < |idx| && idx[a] == i
  }

  /**
   * `r` is `s` read at the positions `idx`, which increase and are exactly the positions
   * whose element satisfies `p`.
   */
  ghost predicate Selects<T>(s: seq<T>, p: T -> bool, idx: seq<nat>, r: seq<T>)
  {
    Reads(s, p, idx, r) && Increasing(idx) && Covers(s, p, idx)
  }

  /** `r` keeps exactly the elements of `s` that satisfy `p`, in order and with their repetitions. */
  ghost predicate Kept<T>(s: seq<T>, p: T -> bool, r: seq<T>)
  {
    exists idx :: Selects(s, p, idx, r)
  }

  /** Nothing is kept from nothing. */
  lemma KeptEmpty<T>(p: T -> bool)
    ensures Kept([], p, [])
  {
    assert Selects([], p, [], []);
  }

  /** The positions `idx` moved one place right, behind position 0 when `first` holds. */
  function Shifted(idx: seq<nat>, first: bool): (j: seq<nat>)
    ensures |j| == |idx| + (if first then 1 else 0)
    ensures forall a :: |j| - |idx| <= a < |j| ==> j[a] == idx[a - (|j| - |idx|)] + 1
    ensures first ==> j[0] == 0
  {
    (if first then [0] else []) + seq(|idx|, a requires 0 <= a < |idx| => idx[a] + 1)
  }

  lemma ReadsCons<T>(x: T, s: seq<T>, p: T -> bool, idx: seq<nat>, r: seq<T>)
    requires Reads(s, p, idx, r)
    ensures Reads([x] + s, p, Shifted(idx, p(x)), (if p(x) then [x] else []) + r)
  {
    var xs := [x] + s;
    var jdx := Shifted(idx, p(x));
    var q := (if p(x) then [x] else []) + r;
    var h := |jdx| - |idx|;
    forall a | 0 <= a < |jdx| ensures jdx[a] < |xs| && q[a] == xs[jdx[a]] && p(q[a]) {
      if a >= h {
        assert jdx[a] == idx[a - h] + 1 && q[a] == r[a - h];
      }
    }
  }

  lemma IncreasingCons(idx: seq<nat>, first: bool)
    requires Increasing(idx)
    ensures Increasing(Shifted(idx, first))
  {
    var jdx := Shifted(idx, first);
    var h := |jdx| - |idx|;
    forall a, b | 0 <= a < b < |jdx| ensures jdx[a] < jdx[b] {
      assert jdx[b] == idx[b - h] + 1;
      if a >= h {
        assert jdx[a] == idx[a - h] + 1;
      }
    }
  }

  lemma CoversCons<T>(x: T, s: seq<T>, p: T -> bool, idx: seq<nat>)
    requires Covers(s, p, idx)
    ensures Covers([x] + s, p, Shifted(idx, p(x)))
  {
    var xs := [x] + s;
    var jdx := Shifted(idx, p(x));
    var h := |jdx| - |idx|;
    forall i | 0 <= i < |xs| && p(xs[i]) ensures exists a :: 0 <= a < |jdx| && jdx[a] == i {
      if i == 0 {
        assert jdx[0] == 0;
      } else {
        assert xs[i] == s[i - 1];
        var a :| 0 <= a < |idx| && idx[a] == i - 1;
        assert jdx[h + a] == i;
      }
    }
  }

  /** Putting `x` in front puts it in front of the selection exactly when it satisfies `p`. */
  lemma KeptCons<T>(x: T, s: seq<T>, p: T -> bool, r: seq<T>)
    requires Kept(s, p, r)
    ensures Kept([x] + s, p, (if p(x) then [x] else []) + r)
  {
    var idx :| Selects(s, p, idx, r);
    ReadsCons(x, s, p, idx, r);
    IncreasingCons(idx, p(x));
    CoversCons(x, s, p, idx);
    assert Selects([x] + s, p, Shifted(idx, p(x)), (if p(x) then [x] else []) + r);
  }
}
