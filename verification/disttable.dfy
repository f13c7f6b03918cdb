/**
 * Breadth-first distance tables: `DistTable` of the second controller (sentinel `w*h`,
 * obstacle-free 4-neighbourhood) and of the Python server (sentinel INT32_MAX, only free
 * cells relaxed, all INT32_MAX when the source is blocked). Both pop a FIFO queue, lower
 * each neighbour to the popped value + 1 when that is smaller, and push what they lowered.
 */
module DistTables {
  import Grid
  import ServerGrid

  /** Sum of a table; it falls with every lowered entry and so bounds the queue loop. */
  function Sum(s: seq<int>): int
  {
    if s == [] then 0 else s[0] + Sum(s[1..])
  }

  lemma {:induction false} SumUpdate(s: seq<int>, i: nat, x: int)
    requires i < |s|
    ensures Sum(s[i := x]) == Sum(s) - s[i] + x
  {
    if i == 0 {
      assert s[i := x][1..] == s[1..];
    } else {
      assert s[i := x][1..] == s[1..][i - 1 := x];
      SumUpdate(s[1..], i - 1, x);
    }
  }

  lemma {:induction false} SumLowerBound(s: seq<int>)
    requires forall k :: 0 <= k < |s| ==> s[k] >= 0
    ensures Sum(s) >= 0
  {
    if s != [] {
      SumLowerBound(s[1..]);
    }
  }

  /** Every neighbour the function lists lies inside a table of `m` cells. */
  ghost predicate Closed(m: nat, nbrs: nat -> seq<nat>)
  {
    forall u, v :: 0 <= u < m && v in nbrs(u) ==> v < m
  }

  /** The source holds 0 and every entry lies between 0 and the sentinel. */
  ghost predicate Bounded(t: seq<int>, source: nat, sentinel: int)
  {
    source < |t| && t[source] == 0 && forall c :: 0 <= c < |t| ==> 0 <= t[c] <= sentinel
  }

  /** Every cell outside the queue (and other than `busy`) has no neighbour more than one step further. */
  ghost predicate Settled(t: seq<int>, nbrs: nat -> seq<nat>, queue: seq<nat>, busy: int)
  {
    forall w, v :: 0 <= w < |t| && w !in queue && w != busy && v in nbrs(w) && v < |t| ==>
      t[v] <= t[w] + 1
  }

  /** `via[v]` is a neighbour-source of every finite non-source entry with a smaller value. */
  ghost predicate ViaOk(t: seq<int>, nbrs: nat -> seq<nat>, via: seq<nat>, source: nat, sentinel: int)
  {
    |via| == |t| &&
    forall v {:trigger via[v]} :: 0 <= v < |t| && v != source && t[v] < sentinel ==>
      via[v] < |t| && v in nbrs(via[v]) && t[via[v]] < t[v]
  }

  /** A neighbour of a cell is never more than one step further from the source. */
  ghost predicate OneLipschitz(t: seq<int>, nbrs: nat -> seq<nat>)
  {
    forall u, v :: 0 <= u < |t| && v in nbrs(u) && v < |t| ==> t[v] <= t[u] + 1
  }

  /** Every finite entry other than the source was reached from a strictly smaller one. */
  ghost predicate Supported(t: seq<int>, nbrs: nat -> seq<nat>, source: nat, sentinel: int)
  {
    forall v {:trigger SupportedAt(t, nbrs, v)} :: 0 <= v < |t| && v != source && t[v] < sentinel ==>
      SupportedAt(t, nbrs, v)
  }

  /** Some neighbour-source of `v` holds a strictly smaller entry. */
  ghost predicate SupportedAt(t: seq<int>, nbrs: nat -> seq<nat>, v: nat)
    requires v < |t|
  {
    exists u :: 0 <= u < |t| && v in nbrs(u) && t[u] < t[v]
  }

  /** Every cell listed in `cells` holds at most `cap`. */
  ghost predicate Capped(t: seq<int>, cells: seq<nat>, cap: int)
  {
    forall v :: v in cells && v < |t| ==> t[v] <= cap
  }

  /** Lowering neighbour `v` of the popped cell `u` to `d + 1` and pushing it keeps the loop facts. */
  lemma LowerStep(t: seq<int>, nbrs: nat -> seq<nat>, queue: seq<nat>, via: seq<nat>,
                  source: nat, sentinel: int, u: nat, v: nat)
    requires Bounded(t, source, sentinel) && Settled(t, nbrs, queue, u)
    requires ViaOk(t, nbrs, via, source, sentinel)
    requires u < |t| && v < |t| && v in nbrs(u) && t[u] + 1 < t[v]
    ensures Bounded(t[v := t[u] + 1], source, sentinel)
    ensures Settled(t[v := t[u] + 1], nbrs, queue + [v], u)
    ensures ViaOk(t[v := t[u] + 1], nbrs, via[v := u], source, sentinel)
  {
    var t' := t[v := t[u] + 1];
    forall w, x | 0 <= w < |t'| && w !in queue + [v] && w != u && x in nbrs(w) && x < |t'|
      ensures t'[x] <= t'[w] + 1
    {
      assert w !in queue;
    }
  }

  /**
   * The loop facts of `Relax` after the first `k` neighbours `ns` of `u` (which holds `d`):
   * the table facts with `u` still busy, the queue in range and grown from `queue0`, the sum
   * fallen from `s0` by at least the number of pushes, and those neighbours capped at `d + 1`.
   */
  ghost predicate Relaxing(t: seq<int>, nbrs: nat -> seq<nat>, source: nat, sentinel: int, u: nat, d: int,
                           ns: seq<nat>, k: nat, queue0: seq<nat>, queue: seq<nat>, via: seq<nat>, s0: int)
  {
    && Bounded(t, source, sentinel) && Settled(t, nbrs, queue, u) && ViaOk(t, nbrs, via, source, sentinel)
    && u < |t| && t[u] == d && k <= |ns|
    && (forall q :: 0 <= q < |queue| ==> queue[q] < |t|)
    && |queue| >= |queue0| && Sum(t) + (|queue| - |queue0|) <= s0
    && Capped(t, ns[..k], d + 1)
  }

  /** Handling the `k`-th neighbour, lowering it exactly when it holds more than `d + 1`, keeps the loop facts. */
  lemma RelaxStep(t: seq<int>, nbrs: nat -> seq<nat>, source: nat, sentinel: int, u: nat, d: int,
                  ns: seq<nat>, k: nat, queue0: seq<nat>, queue: seq<nat>, via: seq<nat>, s0: int)
    requires Relaxing(t, nbrs, source, sentinel, u, d, ns, k, queue0, queue, via, s0)
    requires k < |ns| && ns[k] < |t| && ns[k] in nbrs(u)
    ensures var v := ns[k];
      if d + 1 < t[v] then
        Relaxing(t[v := d + 1], nbrs, source, sentinel, u, d, ns, k + 1, queue0, queue + [v], via[v := u], s0)
      else
        Relaxing(t, nbrs, source, sentinel, u, d, ns, k + 1, queue0, queue, via, s0)
  {
    var v := ns[k];
    if d + 1 < t[v] {
      RelaxLower(t, nbrs, source, sentinel, u, d, ns, k, queue0, queue, via, s0);
    } else {
      assert ns[..k + 1] == ns[..k] + [v];
    }
  }

  lemma RelaxLower(t: seq<int>, nbrs: nat -> seq<nat>, source: nat, sentinel: int, u: nat, d: int,
                   ns: seq<nat>, k: nat, queue0: seq<nat>, queue: seq<nat>, via: seq<nat>, s0: int)
    requires Relaxing(t, nbrs, source, sentinel, u, d, ns, k, queue0, queue, via, s0)
    requires k < |ns| && ns[k] < |t| && ns[k] in nbrs(u) && d + 1 < t[ns[k]]
    ensures var v := ns[k];
      Relaxing(t[v := d + 1], nbrs, source, sentinel, u, d, ns, k + 1, queue0, queue + [v], via[v := u], s0)
  {
    var v := ns[k];
    assert ns[..k + 1] == ns[..k] + [v];
    LowerStep(t, nbrs, queue, via, source, sentinel, u, v);
    SumUpdate(t, v, d + 1);
    var t' := t[v := d + 1];
    assert Capped(t', ns[..k + 1], d + 1) by {
      forall x | x in ns[..k + 1] && x < |t'|
        ensures t'[x] <= d + 1
      {
        if x != v {
          assert x in ns[..k];
        }
      }
    }
  }

  /** Lowers the neighbours `ns` of the popped cell `u` and appends the lowered ones to the queue. */
  method Relax(t: array<int>, nbrs: nat -> seq<nat>, source: nat, sentinel: int, u: nat,
               queue0: seq<nat>, ghost via0: seq<nat>)
    returns (queue: seq<nat>, ghost via: seq<nat>)
    requires u < t.Length && forall v :: v in nbrs(u) ==> v < t.Length
    requires Bounded(t[..], source, sentinel) && Settled(t[..], nbrs, queue0, u)
    requires ViaOk(t[..], nbrs, via0, source, sentinel)
    requires forall k :: 0 <= k < |queue0| ==> queue0[k] < t.Length
    modifies t
    ensures Bounded(t[..], source, sentinel) && Settled(t[..], nbrs, queue, -1)
    ensures ViaOk(t[..], nbrs, via, source, sentinel)
    ensures forall k :: 0 <= k < |queue| ==> queue[k] < t.Length
    ensures |queue| >= |queue0|
    ensures Sum(t[..]) + (|queue| - |queue0|) <= Sum(old(t[..]))
  {
    var d := t[u];
    var ns := nbrs(u);
    ghost var s0 := Sum(t[..]);
    queue, via := queue0, via0;
    for k := 0 to |ns|
      invariant Relaxing(t[..], nbrs, source, sentinel, u, d, ns, k, queue0, queue, via, s0)
    {
      var v := ns[k];
      assert v in nbrs(u);
      ghost var before := t[..];
      RelaxStep(before, nbrs, source, sentinel, u, d, ns, k, queue0, queue, via, s0);
      if d + 1 < t[v] {
        t[v] := d + 1;
        assert t[..] == before[v := d + 1];
        via := via[v := u];
        queue := queue + [v];
      }
    }
    assert ns[..|ns|] == ns;
    forall w, v | 0 <= w < t.Length && w !in queue && v in nbrs(w) && v < t.Length
      ensures t[v] <= t[w] + 1
    {
      if w == u {
        assert v in ns;
      }
    }
  }

  /**
   * The queue loop shared by both tables. On entry only the source is 0 and the rest hold
   * the sentinel; on exit the table is 1-Lipschitz along every listed edge and every finite
   * entry is supported by a smaller neighbour.
   */
  method Sweep(t: array<int>, source: nat, nbrs: nat -> seq<nat>, sentinel: int)
    requires source < t.Length && sentinel >= 0 && Closed(t.Length, nbrs)
    requires forall c :: 0 <= c < t.Length ==> t[c] == if c == source then 0 else sentinel
    modifies t
    ensures Bounded(t[..], source, sentinel)
    ensures OneLipschitz(t[..], nbrs) && Supported(t[..], nbrs, source, sentinel)
  {
    var queue: seq<nat> := [source];
    ghost var via: seq<nat> := seq(t.Length, _ => source);
    SumLowerBound(t[..]);
    while queue != []
      invariant Bounded(t[..], source, sentinel) && Settled(t[..], nbrs, queue, -1)
      invariant ViaOk(t[..], nbrs, via, source, sentinel)
      invariant forall k :: 0 <= k < |queue| ==> queue[k] < t.Length
      decreases Sum(t[..]), |queue|
    {
      var u := queue[0];
      var rest := queue[1..];
      assert Settled(t[..], nbrs, rest, u) by {
        forall w | w !in rest && w != u ensures w !in queue { }
      }
      queue, via := Relax(t, nbrs, source, sentinel, u, rest, via);
      SumLowerBound(t[..]);
    }
    forall v | 0 <= v < t.Length && v != source && t[v] < sentinel
      ensures SupportedAt(t[..], nbrs, v)
    {
      assert via[v] < t.Length && v in nbrs(via[v]);
    }
  }

  /** A finished table: source 0, bounded by the sentinel, 1-Lipschitz and supported. */
  ghost predicate IsDistanceTable(t: seq<int>, nbrs: nat -> seq<nat>, source: nat, sentinel: int)
  {
    Bounded(t, source, sentinel) && OneLipschitz(t, nbrs) && Supported(t, nbrs, source, sentinel)
  }

  /** `p` is a walk from `a` to `b` that only steps from a cell to a listed neighbour. */
  ghost predicate Walk(nbrs: nat -> seq<nat>, p: seq<nat>, a: nat, b: nat)
  {
    |p| >= 1 && p[0] == a && p[|p| - 1] == b &&
    forall k :: 0 <= k < |p| - 1 ==> p[k + 1] in nbrs(p[k])
  }

  /** No walk from the source is shorter than the table entry at its end. */
  lemma {:induction false} WalkLowerBound(t: seq<int>, nbrs: nat -> seq<nat>, source: nat, sentinel: int,
                                          p: seq<nat>, v: nat)
    requires Closed(|t|, nbrs) && IsDistanceTable(t, nbrs, source, sentinel)
    requires Walk(nbrs, p, source, v)
    ensures v < |t| && t[v] <= |p| - 1
  {
    if |p| > 1 {
      var u := p[|p| - 2];
      var p' := p[..|p| - 1];
      assert v in nbrs(u) by { assert p[|p| - 1] in nbrs(p[|p| - 2]); }
      assert Walk(nbrs, p', source, u) by {
        forall k | 0 <= k < |p'| - 1 ensures p'[k + 1] in nbrs(p'[k]) {
          assert p[k + 1] in nbrs(p[k]);
        }
      }
      WalkLowerBound(t, nbrs, source, sentinel, p', u);
    }
  }

  /** Every finite entry is reached by a walk from the source of exactly that length. */
  lemma {:induction false} WalkFromTable(t: seq<int>, nbrs: nat -> seq<nat>, source: nat, sentinel: int, v: nat)
    returns (p: seq<nat>)
    requires Closed(|t|, nbrs) && IsDistanceTable(t, nbrs, source, sentinel)
    requires v < |t| && t[v] < sentinel
    ensures Walk(nbrs, p, source, v) && |p| - 1 == t[v]
    decreases t[v]
  {
    if v == source {
      p := [source];
    } else {
      assert SupportedAt(t, nbrs, v);
      var u :| 0 <= u < |t| && v in nbrs(u) && t[u] < t[v];
      var p' := WalkFromTable(t, nbrs, source, sentinel, u);
      p := p' + [v];
      assert forall k :: 0 <= k < |p'| ==> p[k] == p'[k];
      WalkLowerBound(t, nbrs, source, sentinel, p, v);
    }
  }

  /**
   * A finished table holds shortest-walk lengths: an entry below the sentinel is the length
   * of some walk from the source and of no shorter one; an entry at the sentinel means no walk
   * from the source is shorter than the sentinel.
   */
  lemma DistanceIsShortest(t: seq<int>, nbrs: nat -> seq<nat>, source: nat, sentinel: int, v: nat)
    requires Closed(|t|, nbrs) && IsDistanceTable(t, nbrs, source, sentinel) && v < |t|
    ensures t[v] < sentinel ==> exists p :: Walk(nbrs, p, source, v) && |p| - 1 == t[v]
    ensures forall p :: Walk(nbrs, p, source, v) ==> t[v] <= |p| - 1
    ensures t[v] == sentinel ==> forall p :: Walk(nbrs, p, source, v) ==> |p| - 1 >= sentinel
  {
    if t[v] < sentinel {
      var p := WalkFromTable(t, nbrs, source, sentinel, v);
    }
    forall p | Walk(nbrs, p, source, v) ensures t[v] <= |p| - 1 {
      WalkLowerBound(t, nbrs, source, sentinel, p, v);
    }
  }

  /** The obstacle-free 4-neighbourhood of the second controller's grid. */
  function GridNeighbors(w: nat, h: nat): nat -> seq<nat>
  {
    (u: nat) => if w > 0 then Grid.NeighborList(w, h, {}, u) else []
  }

  /** The free-cell neighbourhood of the server grid (`get_neighbors`). */
  function FreeNeighbors(w: nat, h: nat, free: seq<bool>): nat -> seq<nat>
  {
    (u: nat) => if ServerGrid.WellFormed(w, h, free) && u < w * h then ServerGrid.FreeNeighbors(w, h, free, u) else []
  }

  lemma GridNeighborsClosed(w: nat, h: nat)
    requires w > 0
    ensures Closed(w * h, GridNeighbors(w, h))
  {
    forall u, v | 0 <= u < w * h && v in GridNeighbors(w, h)(u) ensures v < w * h {
      Grid.NeighborListSpec(w, h, {}, u, v);
    }
  }

  lemma FreeNeighborsClosed(w: nat, h: nat, free: seq<bool>)
    requires ServerGrid.WellFormed(w, h, free)
    ensures Closed(w * h, FreeNeighbors(w, h, free))
  {
    forall u, v | 0 <= u < w * h && v in FreeNeighbors(w, h, free)(u) ensures v < w * h {
      ServerGrid.FreeNeighborsSpec(w, h, free, u, v);
    }
  }

  /** Allocates `m` entries, all at the sentinel except the source at 0, and runs the queue loop. */
  method Build(m: nat, source: nat, nbrs: nat -> seq<nat>, sentinel: int) returns (table: seq<int>)
    requires source < m && sentinel >= 0 && Closed(m, nbrs)
    ensures |table| == m && IsDistanceTable(table, nbrs, source, sentinel)
  {
    var t := new int[m](_ => sentinel);
    t[source] := 0;
    Sweep(t, source, nbrs, sentinel);
    table := t[..];
  }

  /**
   * `DistTable` of the second controller: `w*h` entries, sentinel `w*h`, the goal at 0;
   * every entry is the BFS distance from the goal (or `w*h` when no shorter walk exists).
   */
  method GridDistTable(w: nat, h: nat, goal: nat) returns (table: seq<int>)
    requires w > 0 && goal < w * h
    ensures |table| == w * h && IsDistanceTable(table, GridNeighbors(w, h), goal, w * h)
  {
    GridNeighborsClosed(w, h);
    table := Build(w * h, goal, GridNeighbors(w, h), w * h);
  }

  /**
   * `DistTable` of the server: all INT32_MAX when the source is blocked; otherwise the source
   * is 0, only free cells are lowered and cells no walk reaches keep INT32_MAX.
   */
  method ServerDistTable(w: nat, h: nat, free: seq<bool>, source: nat) returns (dist: seq<int>)
    requires ServerGrid.WellFormed(w, h, free) && source < w * h
    ensures |dist| == w * h
    ensures !free[source] ==> forall c :: 0 <= c < w * h ==> dist[c] == ServerGrid.INT32_MAX
    ensures free[source] ==> IsDistanceTable(dist, FreeNeighbors(w, h, free), source, ServerGrid.INT32_MAX)
    ensures forall c :: 0 <= c < w * h && c != source && dist[c] < ServerGrid.INT32_MAX ==> free[c]
  {
    if !free[source] {
      dist := seq(w * h, _ => ServerGrid.INT32_MAX);
      return;
    }
    FreeNeighborsClosed(w, h, free);
    dist := Build(w * h, source, FreeNeighbors(w, h, free), ServerGrid.INT32_MAX);
    forall c | 0 <= c < w * h && c != source && dist[c] < ServerGrid.INT32_MAX ensures free[c] {
      assert SupportedAt(dist, FreeNeighbors(w, h, free), c);
      var u :| 0 <= u < w * h && c in FreeNeighbors(w, h, free)(u) && dist[u] < dist[c];
      ServerGrid.FreeNeighborsSpec(w, h, free, u, c);
    }
  }
}
