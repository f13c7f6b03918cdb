/**
 * The one-step PIBT conflict resolver (priority inheritance with backtracking):
 * `funcPIBT` and `step` of the MAPD game, of the third and second controllers and of the
 * Python server. Every copy fills `Q_to` in place using two occupancy arrays indexed by
 * cell: `occupied_now` (who stands there) and `occupied_nxt` (who has claimed it).
 *
 * The copies differ only in where candidate orders come from (a stable sort by distance,
 * or a shuffle followed by that sort), in the value of `NIL` (1e9 in the game, the agent
 * count elsewhere) and in whether the occupancy arrays are fresh or reused. The candidate
 * order of agent `i` is therefore a parameter `cands[i]`: any sequence of cells, each of
 * which is the agent's own cell or one of its neighbours, so the results below hold for
 * every shuffle and every tie-break.
 */
module Resolver {

  /** The "not yet resolved" marker of `Q_to`. */
  const NIL_COORD: int := -1

  /**
   * The data every resolver call works with: distinct start cells below `|now|`,
   * `now` mapping each start back to its agent, and candidates that stay or move to a neighbour.
   */
  ghost predicate Setup(qfrom: seq<nat>, now: seq<int>, cands: seq<seq<nat>>, nbrs: nat -> seq<nat>, nil: int)
  {
    |cands| == |qfrom| && (nil < 0 || nil >= |qfrom|)
    && (forall i :: 0 <= i < |qfrom| ==> qfrom[i] < |now| && now[qfrom[i]] == i)
    && (forall c :: 0 <= c < |now| && now[c] != nil ==> 0 <= now[c] < |qfrom| && qfrom[now[c]] == c)
    && (forall i, v :: 0 <= i < |qfrom| && v in cands[i] ==>
          v < |now| && (v == qfrom[i] || v in nbrs(qfrom[i])))
  }

  /** Every resolved agent stays or moves to a neighbour of its start. */
  ghost predicate Legal(qfrom: seq<nat>, nbrs: nat -> seq<nat>, m: nat, qto: seq<int>)
    requires |qto| == |qfrom|
  {
    forall k :: 0 <= k < |qto| && qto[k] != NIL_COORD ==>
      0 <= qto[k] < m && (qto[k] == qfrom[k] || qto[k] in nbrs(qfrom[k]))
  }

  /** Every resolved agent other than `skip` holds the claim on its target cell. */
  ghost predicate Marked(qto: seq<int>, nxt: seq<int>, skip: int)
  {
    forall k :: 0 <= k < |qto| && k != skip && qto[k] != NIL_COORD ==>
      0 <= qto[k] < |nxt| && nxt[qto[k]] == k
  }

  /** Every claim is held by an agent whose current target is the claimed cell. */
  ghost predicate Exact(qto: seq<int>, nxt: seq<int>, nil: int)
  {
    forall c :: 0 <= c < |nxt| && nxt[c] != nil ==> 0 <= nxt[c] < |qto| && qto[nxt[c]] == c
  }

  /** No two agents exchange their cells. */
  ghost predicate NoSwap(qfrom: seq<nat>, qto: seq<int>)
    requires |qto| == |qfrom|
  {
    forall a, b :: 0 <= a < |qto| && 0 <= b < |qto| && a != b && qto[a] == qfrom[b] ==> qto[b] != qfrom[a]
  }

  /** The start cell of every unresolved agent other than `except` is unclaimed. */
  ghost predicate FreeStarts(qfrom: seq<nat>, qto: seq<int>, nxt: seq<int>, nil: int, except: int)
    requires |qto| == |qfrom|
  {
    forall x :: 0 <= x < |qto| && x != except && qto[x] == NIL_COORD ==>
      qfrom[x] < |nxt| && nxt[qfrom[x]] == nil
  }

  /** Number of unresolved agents; it bounds the recursion of `FuncPibt`. */
  function Unassigned(q: seq<int>): nat
  {
    if q == [] then 0 else (if q[0] == NIL_COORD then 1 else 0) + Unassigned(q[1..])
  }

  lemma {:induction false} UnassignedMonotone(a: seq<int>, b: seq<int>)
    requires |a| == |b|
    requires forall k :: 0 <= k < |a| && a[k] != NIL_COORD ==> b[k] != NIL_COORD
    ensures Unassigned(b) <= Unassigned(a)
  {
    if a != [] {
      UnassignedMonotone(a[1..], b[1..]);
    }
  }

  /** Resolving one more agent, and unresolving none, lowers the count. */
  lemma {:induction false} UnassignedDecreases(a: seq<int>, b: seq<int>, i: nat)
    requires |a| == |b| && i < |a| && a[i] == NIL_COORD && b[i] != NIL_COORD
    requires forall k :: 0 <= k < |a| && a[k] != NIL_COORD ==> b[k] != NIL_COORD
    ensures Unassigned(b) < Unassigned(a)
  {
    if i == 0 {
      UnassignedMonotone(a[1..], b[1..]);
    } else {
      UnassignedDecreases(a[1..], b[1..], i - 1);
    }
  }


  /** Every agent resolved in `q0` is still resolved in `q1`. */
  ghost predicate Grew(q0: seq<int>, q1: seq<int>)
  {
    |q1| == |q0| && forall k :: 0 <= k < |q0| && q0[k] != NIL_COORD ==> q1[k] != NIL_COORD
  }

  /** Every agent other than `except` resolved in `q0` keeps its cell in `q1`. */
  ghost predicate Settled(q0: seq<int>, q1: seq<int>, except: int)
  {
    |q1| == |q0| && forall k :: 0 <= k < |q0| && k != except && q0[k] != NIL_COORD ==> q1[k] == q0[k]
  }

  /**
   * Settling all but the unresolved agent `i`, after settling everyone, settles everyone; and
   * whoever is settled has grown.
   */
  lemma SettledTrans(q0: seq<int>, q1: seq<int>, q2: seq<int>, i: nat)
    requires i < |q0| && q0[i] == NIL_COORD
    requires Settled(q0, q1, -1) && Settled(q1, q2, i)
    ensures Settled(q0, q2, -1) && Grew(q0, q1) && Grew(q0, q2)
  {
  }

  /**
   * The claims `n1` agree with `n0` on every cell that is empty or whose occupant was already
   * resolved in `q0`: only cells of agents resolved since then may have changed hands.
   */
  ghost predicate ClaimsKept(now: seq<int>, nil: int, q0: seq<int>, n0: seq<int>, n1: seq<int>)
  {
    |n1| == |n0| && |n0| <= |now| &&
    forall c :: 0 <= c < |n0| && (now[c] == nil || (0 <= now[c] < |q0| && q0[now[c]] != NIL_COORD)) ==>
      n1[c] == n0[c]
  }

  lemma ClaimsKeptTrans(now: seq<int>, nil: int, q0: seq<int>, n0: seq<int>, q1: seq<int>, n1: seq<int>, n2: seq<int>)
    requires ClaimsKept(now, nil, q0, n0, n1) && ClaimsKept(now, nil, q1, n1, n2) && Grew(q0, q1)
    ensures ClaimsKept(now, nil, q0, n0, n2)
  {
  }

  /**
   * A push that failed after `i` claimed `v` from its unresolved occupant keeps the claims
   * of the cells that were empty or held by resolved agents before the claim.
   */
  lemma ClaimsKeptPast(now: seq<int>, nil: int, q0: seq<int>, n0: seq<int>, n1: seq<int>, i: nat, v: nat)
    requires i < |q0| && v < |n0| <= |now| && now[v] != nil && 0 <= now[v] < |q0| && q0[now[v]] == NIL_COORD
    requires ClaimsKept(now, nil, q0[i := v], n0[v := i], n1)
    ensures ClaimsKept(now, nil, q0, n0, n1)
  {
  }

  /** Loop-head facts of `FuncPibt` for agent `i`, over snapshots `q` of `Q_to` and `n` of `occupied_nxt`. */
  ghost predicate LoopState(qfrom: seq<nat>, now: seq<int>, nbrs: nat -> seq<nat>, nil: int,
                            q: seq<int>, n: seq<int>, i: nat)
    requires |q| == |qfrom|
  {
    |n| == |now| && i < |qfrom|
    && Legal(qfrom, nbrs, |now|, q) && Exact(q, n, nil) && Marked(q, n, i)
    && NoSwap(qfrom, q) && FreeStarts(qfrom, q, n, nil, i)
    && (forall c :: 0 <= c < |n| ==> n[c] != i)
  }

  /** Claiming a free candidate `v` that passed the swap check restores every marking invariant. */
  lemma ClaimStep(qfrom: seq<nat>, now: seq<int>, cands: seq<seq<nat>>, nbrs: nat -> seq<nat>, nil: int,
                  q: seq<int>, n: seq<int>, i: nat, v: nat)
    requires Setup(qfrom, now, cands, nbrs, nil) && |q| == |qfrom|
    requires LoopState(qfrom, now, nbrs, nil, q, n, i)
    requires v in cands[i] && n[v] == nil
    requires now[v] == nil || q[now[v]] != qfrom[i]
    ensures Legal(qfrom, nbrs, |now|, q[i := v]) && Exact(q[i := v], n[v := i], nil)
    ensures Marked(q[i := v], n[v := i], -1) && NoSwap(qfrom, q[i := v])
    ensures FreeStarts(qfrom, q[i := v], n[v := i], nil, now[v])
  {
    var q', n' := q[i := v], n[v := i];
    forall a, b | 0 <= a < |q'| && 0 <= b < |q'| && a != b && q'[a] == qfrom[b]
      ensures q'[b] != qfrom[a]
    {
      if a == i {
        assert now[v] == b;
      } else if b == i {
        assert now[qfrom[b]] == b;
      }
    }
  }

  /** Staying put after every candidate failed leaves only the caller's claim broken. */
  lemma FallbackStep(qfrom: seq<nat>, now: seq<int>, cands: seq<seq<nat>>, nbrs: nat -> seq<nat>, nil: int,
                     q: seq<int>, n: seq<int>, i: nat, caller: int)
    requires Setup(qfrom, now, cands, nbrs, nil) && |q| == |qfrom|
    requires LoopState(qfrom, now, nbrs, nil, q, n, i)
    requires if caller == -1 then n[qfrom[i]] == nil
             else 0 <= caller < |qfrom| && caller != i && n[qfrom[i]] == caller
    ensures Legal(qfrom, nbrs, |now|, q[i := qfrom[i]]) && Exact(q[i := qfrom[i]], n[qfrom[i] := i], nil)
    ensures Marked(q[i := qfrom[i]], n[qfrom[i] := i], caller) && NoSwap(qfrom, q[i := qfrom[i]])
    ensures FreeStarts(qfrom, q[i := qfrom[i]], n[qfrom[i] := i], nil, -1)
  {
    var q', n' := q[i := qfrom[i]], n[qfrom[i] := i];
    forall a, b | 0 <= a < |q'| && 0 <= b < |q'| && a != b && q'[a] == qfrom[b]
      ensures q'[b] != qfrom[a]
    {
      if b == i {
        assert now[qfrom[b]] == b;
      }
    }
    forall x | 0 <= x < |q'| && q'[x] == NIL_COORD
      ensures qfrom[x] < |n'| && n'[qfrom[x]] == nil
    {
      assert now[qfrom[x]] == x;
    }
  }

  /**
   * `funcPIBT(Q_from, Q_to, i)`: agent `i` tries its candidates in order and stays on its own
   * cell, claiming it, when none works. `caller` is the agent whose claim on `i`'s cell caused
   * this call (-1 at top level). A failed call breaks no claim except the caller's and touches
   * only the cells of agents it resolved itself.
   */
  method FuncPibt(qfrom: seq<nat>, now: seq<int>, cands: seq<seq<nat>>, ghost nbrs: nat -> seq<nat>, nil: int,
                  qto: array<int>, nxt: array<int>, i: nat, ghost caller: int) returns (ok: bool)
    requires Setup(qfrom, now, cands, nbrs, nil)
    requires qto != nxt && qto.Length == |qfrom| && nxt.Length == |now|
    requires i < |qfrom| && qto[i] == NIL_COORD
    requires Legal(qfrom, nbrs, |now|, qto[..]) && Marked(qto[..], nxt[..], -1) && Exact(qto[..], nxt[..], nil)
    requires NoSwap(qfrom, qto[..]) && FreeStarts(qfrom, qto[..], nxt[..], nil, i)
    requires if caller == -1 then nxt[qfrom[i]] == nil
             else 0 <= caller < |qfrom| && caller != i && qto[caller] == qfrom[i]
    modifies qto, nxt
    decreases Unassigned(qto[..]), 2
    ensures qto[i] != NIL_COORD
    ensures Settled(old(qto[..]), qto[..], -1)
    ensures Legal(qfrom, nbrs, |now|, qto[..]) && Exact(qto[..], nxt[..], nil)
    ensures NoSwap(qfrom, qto[..]) && FreeStarts(qfrom, qto[..], nxt[..], nil, -1)
    ensures ok ==> Marked(qto[..], nxt[..], -1)
    ensures !ok ==> qto[i] == qfrom[i] && Marked(qto[..], nxt[..], caller)
    ensures !ok ==> ClaimsKept(now, nil, old(qto[..]), old(nxt[..]), nxt[..])
  {
    ghost var bound := Unassigned(qto[..]);
    ghost var startMark := nxt[qfrom[i]];
    assert caller != -1 ==> startMark == caller;
    var C := cands[i];
    for idx := 0 to |C|
      invariant LoopState(qfrom, now, nbrs, nil, qto[..], nxt[..], i)
      invariant Settled(old(qto[..]), qto[..], -1)
      invariant ClaimsKept(now, nil, old(qto[..]), old(nxt[..]), nxt[..])
      invariant nxt[qfrom[i]] == startMark
    {
      ghost var q1, n1 := qto[..], nxt[..];
      UnassignedMonotone(old(qto[..]), qto[..]);
      if qto[i] != NIL_COORD {
        UnassignedDecreases(old(qto[..]), qto[..], i);
      }
      assert C[idx] in cands[i];
      var claimed := TryCandidate(qfrom, now, cands, nbrs, nil, qto, nxt, i, C[idx], bound);
      SettledTrans(old(qto[..]), q1, qto[..], i);
      if claimed {
        return true;
      }
      ClaimsKeptTrans(now, nil, old(qto[..]), old(nxt[..]), q1, n1, nxt[..]);
    }
    ghost var q1, n1 := qto[..], nxt[..];
    FallbackStep(qfrom, now, cands, nbrs, nil, q1, n1, i, caller);
    qto[i] := qfrom[i];
    nxt[qfrom[i]] := i;
    assert qto[..] == q1[i := qfrom[i]] && nxt[..] == n1[qfrom[i] := i];
    SettledTrans(old(qto[..]), q1, qto[..], i);
    return false;
  }

  /**
   * One pass of the candidate loop of `funcPIBT` for cell `v`: skip it when it is claimed or
   * its occupant is moving onto `i`'s cell; otherwise claim it (`Claim`). `claimed` is true
   * exactly where the source returns true.
   */
  method TryCandidate(qfrom: seq<nat>, now: seq<int>, cands: seq<seq<nat>>, ghost nbrs: nat -> seq<nat>, nil: int,
                      qto: array<int>, nxt: array<int>, i: nat, v: nat, ghost bound: nat) returns (claimed: bool)
    requires Setup(qfrom, now, cands, nbrs, nil)
    requires qto != nxt && qto.Length == |qfrom| && nxt.Length == |now|
    requires i < |qfrom| && v in cands[i]
    requires LoopState(qfrom, now, nbrs, nil, qto[..], nxt[..], i)
    requires Unassigned(qto[..]) <= bound && (qto[i] != NIL_COORD ==> Unassigned(qto[..]) < bound)
    modifies qto, nxt
    decreases bound, 1
    ensures Settled(old(qto[..]), qto[..], i)
    ensures claimed ==> qto[i] != NIL_COORD && Marked(qto[..], nxt[..], -1)
    ensures claimed ==> Legal(qfrom, nbrs, |now|, qto[..]) && Exact(qto[..], nxt[..], nil)
    ensures claimed ==> NoSwap(qfrom, qto[..]) && FreeStarts(qfrom, qto[..], nxt[..], nil, -1)
    ensures !claimed ==> LoopState(qfrom, now, nbrs, nil, qto[..], nxt[..], i)
    ensures !claimed ==> nxt[qfrom[i]] == old(nxt[qfrom[i]])
    ensures !claimed ==> ClaimsKept(now, nil, old(qto[..]), old(nxt[..]), nxt[..])
  {
    if nxt[v] != nil {
      return false;
    }
    var j := now[v];
    if j != nil && qto[j] == qfrom[i] {
      return false;
    }
    claimed := Claim(qfrom, now, cands, nbrs, nil, qto, nxt, i, v, bound);
  }

  /**
   * `i` claims the free cell `v`, which passed the swap check, and pushes its occupant when
   * that agent is unresolved; the claim stands unless the push fails.
   */
  method Claim(qfrom: seq<nat>, now: seq<int>, cands: seq<seq<nat>>, ghost nbrs: nat -> seq<nat>, nil: int,
               qto: array<int>, nxt: array<int>, i: nat, v: nat, ghost bound: nat) returns (claimed: bool)
    requires Setup(qfrom, now, cands, nbrs, nil)
    requires qto != nxt && qto.Length == |qfrom| && nxt.Length == |now|
    requires i < |qfrom| && v in cands[i]
    requires LoopState(qfrom, now, nbrs, nil, qto[..], nxt[..], i)
    requires Unassigned(qto[..]) <= bound && (qto[i] != NIL_COORD ==> Unassigned(qto[..]) < bound)
    requires nxt[v] == nil && (now[v] == nil || qto[now[v]] != qfrom[i])
    modifies qto, nxt
    decreases bound, 0
    ensures Settled(old(qto[..]), qto[..], i)
    ensures claimed ==> qto[i] != NIL_COORD && Marked(qto[..], nxt[..], -1)
    ensures claimed ==> Legal(qfrom, nbrs, |now|, qto[..]) && Exact(qto[..], nxt[..], nil)
    ensures claimed ==> NoSwap(qfrom, qto[..]) && FreeStarts(qfrom, qto[..], nxt[..], nil, -1)
    ensures !claimed ==> LoopState(qfrom, now, nbrs, nil, qto[..], nxt[..], i)
    ensures !claimed ==> nxt[qfrom[i]] == old(nxt[qfrom[i]])
    ensures !claimed ==> ClaimsKept(now, nil, old(qto[..]), old(nxt[..]), nxt[..])
  {
    var j := now[v];
    ghost var q0, n0 := qto[..], nxt[..];
    ClaimStep(qfrom, now, cands, nbrs, nil, q0, n0, i, v);
    qto[i] := v;
    nxt[v] := i;
    assert qto[..] == q0[i := v] && nxt[..] == n0[v := i];
    if j != nil && qto[j] == NIL_COORD {
      if q0[i] == NIL_COORD {
        UnassignedDecreases(q0, qto[..], i);
      } else {
        UnassignedMonotone(q0, qto[..]);
      }
      var pushed := FuncPibt(qfrom, now, cands, nbrs, nil, qto, nxt, j, i);
      if !pushed {
        assert nxt[v] == j;
        ClaimsKeptPast(now, nil, q0, n0, nxt[..], i, v);
        return false;
      }
    }
    return true;
  }
}

/** The resolver entry points: fresh occupancy arrays (TypeScript copies) or reused ones (Python server). */
module ResolverStep {
  import opened Resolver

  /** What the source asks of a call of `step`. */
  ghost predicate StepInputs(qfrom: seq<nat>, m: nat, cands: seq<seq<nat>>, order: seq<nat>,
                             nbrs: nat -> seq<nat>, nil: int)
  {
    |cands| == |qfrom| && (nil < 0 || nil >= |qfrom|)
    && (forall i :: 0 <= i < |qfrom| ==> qfrom[i] < m)
    && (forall i, j :: 0 <= i < j < |qfrom| ==> qfrom[i] != qfrom[j])
    && (forall i, v :: 0 <= i < |qfrom| && v in cands[i] ==> v < m && (v == qfrom[i] || v in nbrs(qfrom[i])))
    && (forall i :: 0 <= i < |qfrom| ==> i in order)
    && (forall t :: 0 <= t < |order| ==> order[t] < |qfrom|)
  }

  /** The three safety properties of a resolved step. */
  ghost predicate SafeStep(qfrom: seq<nat>, nbrs: nat -> seq<nat>, qto: seq<int>)
  {
    |qto| == |qfrom|
    && (forall i :: 0 <= i < |qfrom| ==> qto[i] == qfrom[i] || qto[i] in nbrs(qfrom[i]))
    && (forall i, j :: 0 <= i < j < |qfrom| ==> qto[i] != qto[j])
    && (forall i, j :: 0 <= i < |qfrom| && 0 <= j < |qfrom| && i != j && qto[i] == qfrom[j] ==> qto[j] != qfrom[i])
  }

  /** Once every agent is resolved, the marking invariants give the three safety properties. */
  lemma ResolvedIsSafe(qfrom: seq<nat>, nbrs: nat -> seq<nat>, m: nat, order: seq<nat>, qto: seq<int>, nxt: seq<int>)
    requires |qto| == |qfrom|
    requires forall i :: 0 <= i < |qfrom| ==> i in order
    requires forall s :: 0 <= s < |order| ==> order[s] < |qto| && qto[order[s]] != NIL_COORD
    requires Legal(qfrom, nbrs, m, qto) && Marked(qto, nxt, -1) && NoSwap(qfrom, qto)
    ensures SafeStep(qfrom, nbrs, qto)
    ensures forall k :: 0 <= k < |qto| ==> 0 <= qto[k] < m
  {
    forall i | 0 <= i < |qfrom| ensures qto[i] != NIL_COORD {
      assert i in order;
      var t :| 0 <= t < |order| && order[t] == i;
    }
    forall i, j | 0 <= i < j < |qfrom| ensures qto[i] != qto[j] {
      assert nxt[qto[i]] == i && nxt[qto[j]] == j;
    }
  }

  /** The marking invariants between two calls of `funcPIBT` from the loop of `step`. */
  ghost predicate Between(qfrom: seq<nat>, nbrs: nat -> seq<nat>, m: nat, nil: int, q: seq<int>, n: seq<int>)
  {
    |q| == |qfrom| && Legal(qfrom, nbrs, m, q) && Marked(q, n, -1) && Exact(q, n, nil)
    && NoSwap(qfrom, q) && FreeStarts(qfrom, q, n, nil, -1)
  }

  /** The first `t` agents of `order` are resolved in `q`. */
  ghost predicate Done(order: seq<nat>, t: nat, q: seq<int>)
  {
    t <= |order| && forall s :: 0 <= s < t ==> order[s] < |q| && q[order[s]] != NIL_COORD
  }

  lemma DoneStep(order: seq<nat>, t: nat, q0: seq<int>, q1: seq<int>)
    requires Done(order, t, q0) && Grew(q0, q1) && t < |order| && order[t] < |q1| && q1[order[t]] != NIL_COORD
    ensures Done(order, t + 1, q1)
  {
  }

  /** With nobody resolved and nothing claimed, the marking invariants hold. */
  lemma Fresh(qfrom: seq<nat>, now: seq<int>, cands: seq<seq<nat>>, nbrs: nat -> seq<nat>, nil: int, q: seq<int>, n: seq<int>)
    requires Setup(qfrom, now, cands, nbrs, nil) && |q| == |qfrom| && |n| == |now|
    requires forall k :: 0 <= k < |q| ==> q[k] == NIL_COORD
    requires forall c :: 0 <= c < |n| ==> n[c] == nil
    ensures Between(qfrom, nbrs, |now|, nil, q, n)
  {
  }

  /** The body of the loop of `step`: resolve agent `i` unless a push already did. */
  method ResolveOne(qfrom: seq<nat>, now: seq<int>, cands: seq<seq<nat>>, ghost nbrs: nat -> seq<nat>, nil: int,
                    qto: array<int>, nxt: array<int>, i: nat)
    requires Setup(qfrom, now, cands, nbrs, nil)
    requires qto != nxt && qto.Length == |qfrom| && nxt.Length == |now| && i < |qfrom|
    requires Between(qfrom, nbrs, |now|, nil, qto[..], nxt[..])
    modifies qto, nxt
    ensures Between(qfrom, nbrs, |now|, nil, qto[..], nxt[..])
    ensures qto[i] != NIL_COORD
    ensures Grew(old(qto[..]), qto[..])
  {
    if qto[i] == NIL_COORD {
      var ok := FuncPibt(qfrom, now, cands, nbrs, nil, qto, nxt, i, -1);
    }
  }

  /** Runs `funcPIBT` for every still unresolved agent in `order` (the priority order of `step`). */
  method ResolveAll(qfrom: seq<nat>, now: seq<int>, cands: seq<seq<nat>>, order: seq<nat>,
                    ghost nbrs: nat -> seq<nat>, nil: int, qto: array<int>, nxt: array<int>)
    requires Setup(qfrom, now, cands, nbrs, nil)
    requires qto != nxt && qto.Length == |qfrom| && nxt.Length == |now|
    requires forall i :: 0 <= i < |qfrom| ==> i in order
    requires forall t :: 0 <= t < |order| ==> order[t] < |qfrom|
    requires forall k :: 0 <= k < qto.Length ==> qto[k] == NIL_COORD
    requires forall c :: 0 <= c < nxt.Length ==> nxt[c] == nil
    modifies qto, nxt
    ensures SafeStep(qfrom, nbrs, qto[..])
    ensures forall k :: 0 <= k < qto.Length ==> 0 <= qto[k] < nxt.Length
    ensures Exact(qto[..], nxt[..], nil)
  {
    Fresh(qfrom, now, cands, nbrs, nil, qto[..], nxt[..]);
    for t := 0 to |order|
      invariant Between(qfrom, nbrs, |now|, nil, qto[..], nxt[..])
      invariant Done(order, t, qto[..])
    {
      ghost var q0 := qto[..];
      ResolveOne(qfrom, now, cands, nbrs, nil, qto, nxt, order[t]);
      DoneStep(order, t, q0, qto[..]);
    }
    ghost var q, n := qto[..], nxt[..];
    ResolvedIsSafe(qfrom, nbrs, |now|, order, q, n);
  }

  /**
   * `step` of the TypeScript copies: fresh `Q_to`, `occupied_now` and `occupied_nxt` of size
   * `m` (= w*h) filled with the markers; every agent stays or moves to a neighbour, no two
   * agents end on the same cell and no two agents swap.
   */
  method Step(qfrom: seq<nat>, m: nat, cands: seq<seq<nat>>, order: seq<nat>,
              ghost nbrs: nat -> seq<nat>, nil: int) returns (qto: seq<int>)
    requires StepInputs(qfrom, m, cands, order, nbrs, nil)
    ensures SafeStep(qfrom, nbrs, qto)
  {
    var q := new int[|qfrom|](_ => NIL_COORD);
    var occNow := new int[m](_ => nil);
    for i := 0 to |qfrom|
      invariant forall k :: 0 <= k < i ==> occNow[qfrom[k]] == k
      invariant forall c :: 0 <= c < m && occNow[c] != nil ==> 0 <= occNow[c] < i && qfrom[occNow[c]] == c
      invariant forall k :: 0 <= k < q.Length ==> q[k] == NIL_COORD
    {
      occNow[qfrom[i]] := i;
    }
    var occNxt := new int[m](_ => nil);
    ResolveAll(qfrom, occNow[..], cands, order, nbrs, nil, q, occNxt);
    qto := q[..];
  }

  /**
   * `step` of the Python server, whose `occupied_now`/`occupied_nxt` persist between calls:
   * they must be all NIL on entry, and the closing loop (clearing the start and the target
   * of every agent) leaves them all NIL again, because every claim left standing is the
   * final target of its holder.
   */
  method StepReusing(qfrom: seq<nat>, cands: seq<seq<nat>>, order: seq<nat>, ghost nbrs: nat -> seq<nat>, nil: int,
                     occNow: array<int>, occNxt: array<int>) returns (qto: seq<int>)
    requires occNow != occNxt && occNow.Length == occNxt.Length
    requires StepInputs(qfrom, occNow.Length, cands, order, nbrs, nil)
    requires forall c :: 0 <= c < occNow.Length ==> occNow[c] == nil && occNxt[c] == nil
    modifies occNow, occNxt
    ensures SafeStep(qfrom, nbrs, qto)
    ensures forall c :: 0 <= c < occNow.Length ==> occNow[c] == nil && occNxt[c] == nil
  {
    var m := occNow.Length;
    var q := new int[|qfrom|](_ => NIL_COORD);
    for i := 0 to |qfrom|
      invariant forall k :: 0 <= k < i ==> occNow[qfrom[k]] == k
      invariant forall c :: 0 <= c < m && occNow[c] != nil ==> 0 <= occNow[c] < i && qfrom[occNow[c]] == c
      invariant forall c :: 0 <= c < m ==> occNxt[c] == nil
      invariant forall k :: 0 <= k < q.Length ==> q[k] == NIL_COORD
    {
      occNow[qfrom[i]] := i;
    }
    ResolveAll(qfrom, occNow[..], cands, order, nbrs, nil, q, occNxt);
    qto := q[..];
    ghost var finalNxt := occNxt[..];
    for k := 0 to |qfrom|
      invariant Clearing(qfrom, qto, finalNxt, k, occNow[..], occNxt[..], nil)
    {
      ghost var now0, nxt0 := occNow[..], occNxt[..];
      ClearStep(qfrom, qto, finalNxt, k, now0, nxt0, nil);
      occNow[qfrom[k]] := nil;
      occNxt[qto[k]] := nil;
      assert occNow[..] == now0[qfrom[k] := nil] && occNxt[..] == nxt0[qto[k] := nil];
    }
  }

  /**
   * The closing loop of `step` after clearing the first `k` agents: a cell still claimed now is
   * the start of a later agent, and a cell still claimed next is the final target of a later one.
   */
  ghost predicate Clearing(qfrom: seq<nat>, qto: seq<int>, fin: seq<int>, k: nat, now: seq<int>, nxt: seq<int>,
                           nil: int)
  {
    |now| == |nxt| == |fin| && k <= |qfrom| == |qto| &&
    (forall c :: 0 <= c < |now| && now[c] != nil ==> exists s :: k <= s < |qfrom| && qfrom[s] == c) &&
    forall c :: 0 <= c < |nxt| && nxt[c] != nil ==>
      nxt[c] == fin[c] && 0 <= fin[c] < |qto| && qto[fin[c]] == c && fin[c] >= k
  }

  /** Clearing agent `k`'s start and target keeps the closing loop's invariant for the rest. */
  lemma ClearStep(qfrom: seq<nat>, qto: seq<int>, fin: seq<int>, k: nat, now: seq<int>, nxt: seq<int>, nil: int)
    requires Clearing(qfrom, qto, fin, k, now, nxt, nil) && k < |qfrom|
    requires qfrom[k] < |now| && 0 <= qto[k] < |nxt|
    ensures Clearing(qfrom, qto, fin, k + 1, now[qfrom[k] := nil], nxt[qto[k] := nil], nil)
  {
    var now1, nxt1 := now[qfrom[k] := nil], nxt[qto[k] := nil];
    forall c | 0 <= c < |now1| && now1[c] != nil
      ensures exists s :: k + 1 <= s < |qfrom| && qfrom[s] == c
    {
      var s :| k <= s < |qfrom| && qfrom[s] == c;
      assert s != k;
    }
  }
}
