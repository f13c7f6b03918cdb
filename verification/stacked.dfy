/**
 * `step` of the MAPD game (`src/ts/game.ts`) as written, when agents may share a start cell,
 * as the game's constructor arranges by starting ten agents on two pickups.
 *
 * `occupied_now` records only the last agent standing on each cell, so an earlier agent on a
 * shared cell is invisible to everyone else: no agent pushes it, and no swap test looks at it.
 * The run in `HiddenStart`, on a 3 x 1 grid with agents 0 and 1 on the middle cell 1 and
 * agent 2 on cell 0, agent 0 heading for cell 0 and agents 1 and 2 for cell 2, in priority
 * order 2, 1, 0:
 *
 *  1. `funcPIBT(2)` claims cell 1, whose recorded occupant is agent 1, and pushes agent 1 on
 *     to cell 2.
 *  2. `funcPIBT(0)`: cell 0 fails the swap test (agent 2 goes from 0 to 1), cells 1 and 2 are
 *     claimed, so agent 0 falls back to its own cell 1 and overwrites agent 2's claim.
 *
 * Agents 0 and 2 both end on cell 1, although "agent 0 stays, agent 1 moves to cell 2, agent 2
 * stays" is a safe step.
 */
module Stacked {
  import opened Resolver
  import ResolverStep
  import Mapd
  import Grid

  /** What a call of `funcPIBT` leaves behind: `Q_to`, `occupied_nxt` and its result. */
  datatype Run = Run(qto: seq<int>, nxt: seq<int>, ok: bool)

  /**
   * `occupied_now` as `step` fills it, agent by agent: each cell holds the last agent standing
   * on it, and `nil` when nobody does.
   */
  function OccNow(qfrom: seq<nat>, m: nat, nil: int): (r: seq<int>)
    requires nil < 0 || nil >= |qfrom|
    requires forall i :: 0 <= i < |qfrom| ==> qfrom[i] < m
    ensures |r| == m
    ensures forall c :: 0 <= c < m && r[c] != nil ==> 0 <= r[c] < |qfrom| && qfrom[r[c]] == c
    ensures forall i :: 0 <= i < |qfrom| ==> r[qfrom[i]] != nil
  {
    if qfrom == [] then seq(m, _ => nil)
    else
      var n := |qfrom| - 1;
      OccNow(qfrom[..n], m, nil)[qfrom[n] := n]
  }

  /** An agent is recorded in `occupied_now` exactly when no later agent shares its cell. */
  lemma {:induction false} Recorded(qfrom: seq<nat>, m: nat, nil: int, i: nat)
    requires nil < 0 || nil >= |qfrom|
    requires forall k :: 0 <= k < |qfrom| ==> qfrom[k] < m
    requires i < |qfrom|
    ensures OccNow(qfrom, m, nil)[qfrom[i]] == i <==> forall j :: i < j < |qfrom| ==> qfrom[j] != qfrom[i]
    decreases |qfrom|
  {
    var n := |qfrom| - 1;
    if i < n {
      var pre := qfrom[..n];
      Recorded(pre, m, nil, i);
      assert forall j :: i < j < n ==> pre[j] == qfrom[j];
    }
  }

  /** The sizes every call of the resolver works with; cells and candidates are in the grid. */
  predicate Shape(qfrom: seq<nat>, now: seq<int>, cands: seq<seq<nat>>, nil: int)
  {
    |cands| == |qfrom| &&
    (forall i :: 0 <= i < |qfrom| ==> qfrom[i] < |now|) &&
    (forall i, v :: 0 <= i < |qfrom| && v in cands[i] ==> v < |now|) &&
    (forall c :: 0 <= c < |now| ==> now[c] == nil || 0 <= now[c] < |qfrom|)
  }

  /**
   * `funcPIBT(i)` as written, with no premise on the start cells. `fuel` bounds the depth of
   * the pushes; a push beyond it counts as failed.
   */
  function Pibt(qfrom: seq<nat>, now: seq<int>, cands: seq<seq<nat>>, nil: int,
                i: nat, qto: seq<int>, nxt: seq<int>, fuel: nat): (r: Run)
    requires Shape(qfrom, now, cands, nil) && i < |qfrom| && |qto| == |qfrom| && |nxt| == |now|
    ensures |r.qto| == |qto| && |r.nxt| == |nxt|
    decreases fuel, 1, 0
  {
    Try(qfrom, now, cands, nil, i, 0, qto, nxt, fuel)
  }

  /**
   * The candidate loop of `funcPIBT(i)` from the `k`-th candidate on: a candidate claimed
   * next, or whose recorded occupant is headed for `i`'s cell, is skipped; otherwise `i` claims
   * it and, if the recorded occupant has no target yet, pushes it; a failed push moves on to
   * the next candidate. With no candidate left, `i` stays and claims its own cell.
   */
  function Try(qfrom: seq<nat>, now: seq<int>, cands: seq<seq<nat>>, nil: int,
               i: nat, k: nat, qto: seq<int>, nxt: seq<int>, fuel: nat): (r: Run)
    requires Shape(qfrom, now, cands, nil) && i < |qfrom| && |qto| == |qfrom| && |nxt| == |now|
    requires k <= |cands[i]|
    ensures |r.qto| == |qto| && |r.nxt| == |nxt|
    decreases fuel, 0, |cands[i]| - k
  {
    if k == |cands[i]| then Run(qto[i := qfrom[i]], nxt[qfrom[i] := i], false)
    else
      var v := cands[i][k];
      assert v in cands[i];
      var j := now[v];
      if nxt[v] != nil || (j != nil && qto[j] == qfrom[i]) then
        Try(qfrom, now, cands, nil, i, k + 1, qto, nxt, fuel)
      else
        var qto1, nxt1 := qto[i := v], nxt[v := i];
        if j != nil && qto1[j] == NIL_COORD then
          if fuel == 0 then Try(qfrom, now, cands, nil, i, k + 1, qto1, nxt1, fuel)
          else
            var r := Pibt(qfrom, now, cands, nil, j, qto1, nxt1, fuel - 1);
            if r.ok then r else Try(qfrom, now, cands, nil, i, k + 1, r.qto, r.nxt, fuel)
        else Run(qto1, nxt1, true)
  }

  /** The loop of `step` from the `t`-th agent of `order` on: each agent without a target is resolved. */
  function ResolveFrom(qfrom: seq<nat>, now: seq<int>, cands: seq<seq<nat>>, nil: int, order: seq<nat>,
                       t: nat, qto: seq<int>, nxt: seq<int>, fuel: nat): (r: seq<int>)
    requires Shape(qfrom, now, cands, nil) && |qto| == |qfrom| && |nxt| == |now| && t <= |order|
    requires forall s :: 0 <= s < |order| ==> order[s] < |qfrom|
    ensures |r| == |qfrom|
    decreases |order| - t
  {
    if t == |order| then qto
    else if qto[order[t]] == NIL_COORD then
      var r := Pibt(qfrom, now, cands, nil, order[t], qto, nxt, fuel);
      ResolveFrom(qfrom, now, cands, nil, order, t + 1, r.qto, r.nxt, fuel)
    else ResolveFrom(qfrom, now, cands, nil, order, t + 1, qto, nxt, fuel)
  }

  /**
   * `step` as written on a grid of `m` cells: `occupied_now` filled agent by agent, then every
   * agent in `order` without a target resolved. The pushes may go as deep as there are agents.
   */
  function StepAsWritten(qfrom: seq<nat>, m: nat, cands: seq<seq<nat>>, order: seq<nat>, nil: int): (r: seq<int>)
    requires nil < 0 || nil >= |qfrom|
    requires |cands| == |qfrom| && forall i :: 0 <= i < |qfrom| ==> qfrom[i] < m
    requires forall i, v :: 0 <= i < |qfrom| && v in cands[i] ==> v < m
    requires forall s :: 0 <= s < |order| ==> order[s] < |qfrom|
    ensures |r| == |qfrom|
  {
    var now := OccNow(qfrom, m, nil);
    ResolveFrom(qfrom, now, cands, nil, order, 0, seq(|qfrom|, _ => NIL_COORD), seq(m, _ => nil), |qfrom|)
  }

  /** Two agents on the middle cell of a 3 x 1 grid, one on its left cell. */
  const Starts: seq<nat> := [1, 1, 0]
  /** Each agent's own cell and neighbours, nearest to its goal (cells 0, 2 and 2) first. */
  const Cands: seq<seq<nat>> := [[0, 1, 2], [2, 1, 0], [1, 0]]
  /** Descending priority. */
  const Order: seq<nat> := [2, 1, 0]
  /** The game's `NIL`, 1e9. */
  const Nil: int := 1000000000

  /** The neighbours of the cells of a 3 x 1 grid without obstacles. */
  lemma Line()
    ensures Mapd.GridNbrs(3, 1, {})(0) == [1]
    ensures Mapd.GridNbrs(3, 1, {})(1) == [0, 2]
    ensures Mapd.GridNbrs(3, 1, {})(2) == [1]
  {
    Left();
    Middle();
    Right();
  }

  lemma Left()
    ensures Grid.NeighborList(3, 1, {}, 0) == [1]
  {
    Grid.XyOfId(3, 0, 0);
    assert Grid.Id(3, 0, 0) == 0 && Grid.Id(3, 1, 0) == 1;
    assert Grid.NeighborList(3, 1, {}, 0) == [] + [1] + [] + [];
  }

  lemma Middle()
    ensures Grid.NeighborList(3, 1, {}, 1) == [0, 2]
  {
    Grid.XyOfId(3, 1, 0);
    var x: nat, y: nat := 1, 0;
    var e: set<int> := {};
    assert (if x > 0 && Grid.Id(3, x - 1, y) !in e then [Grid.Id(3, x - 1, y)] else []) == [0];
    assert (if x + 1 < 3 && Grid.Id(3, x + 1, y) !in e then [Grid.Id(3, x + 1, y)] else []) == [2];
    assert Grid.NeighborList(3, 1, e, 1) == [0] + [2] + [] + [];
  }

  lemma Right()
    ensures Grid.NeighborList(3, 1, {}, 2) == [1]
  {
    Grid.XyOfId(3, 2, 0);
    assert Grid.Id(3, 2, 0) == 2 && Grid.Id(3, 1, 0) == 1;
    assert Grid.NeighborList(3, 1, {}, 2) == [1] + [] + [] + [];
  }

  /** `occupied_now` of the run: agent 1 hides agent 0 on cell 1. */
  lemma Now()
    ensures OccNow(Starts, 3, Nil) == [2, 1, Nil]
  {
    assert Starts[..2] == [1, 1] && [1, 1][..1] == [1] && [1][..0] == [];
  }

  /** `funcPIBT(2)` claims cell 1 and pushes agent 1 on to cell 2. */
  lemma First()
    ensures Pibt(Starts, [2, 1, Nil], Cands, Nil, 2, [NIL_COORD, NIL_COORD, NIL_COORD], [Nil, Nil, Nil], 3)
         == Run([NIL_COORD, 2, 1], [Nil, 2, 1], true)
  {
    var now: seq<int> := [2, 1, Nil];
    assert Cands[1][0] == 2 && now[2] == Nil;
    assert Try(Starts, now, Cands, Nil, 1, 0, [NIL_COORD, NIL_COORD, 1], [Nil, 2, Nil], 2)
        == Run([NIL_COORD, 2, 1], [Nil, 2, 1], true);
    assert Cands[2][0] == 1 && now[1] == 1;
  }

  /** `funcPIBT(0)` finds every candidate blocked and stays on cell 1. */
  lemma Last()
    ensures Pibt(Starts, [2, 1, Nil], Cands, Nil, 0, [NIL_COORD, 2, 1], [Nil, 2, 1], 3)
         == Run([1, 2, 1], [Nil, 0, 1], false)
  {
    var now: seq<int> := [2, 1, Nil];
    var q: seq<int> := [NIL_COORD, 2, 1];
    var n: seq<int> := [Nil, 2, 1];
    assert Try(Starts, now, Cands, Nil, 0, 3, q, n, 3) == Run([1, 2, 1], [Nil, 0, 1], false);
    assert Cands[0][2] == 2 && n[2] != Nil;
    assert Try(Starts, now, Cands, Nil, 0, 2, q, n, 3) == Run([1, 2, 1], [Nil, 0, 1], false);
    assert Cands[0][1] == 1 && n[1] != Nil;
    assert Try(Starts, now, Cands, Nil, 0, 1, q, n, 3) == Run([1, 2, 1], [Nil, 0, 1], false);
    assert Cands[0][0] == 0 && now[0] == 2 && q[2] == Starts[0];
  }

  /** The whole step of the run. */
  lemma Whole()
    ensures StepAsWritten(Starts, 3, Cands, Order, Nil) == [1, 2, 1]
  {
    Now();
    First();
    Last();
    var now: seq<int> := [2, 1, Nil];
    assert seq(3, _ => NIL_COORD) == [NIL_COORD, NIL_COORD, NIL_COORD] && seq(3, _ => Nil) == [Nil, Nil, Nil];
    assert ResolveFrom(Starts, now, Cands, Nil, Order, 2, [NIL_COORD, 2, 1], [Nil, 2, 1], 3) == [1, 2, 1];
    assert ResolveFrom(Starts, now, Cands, Nil, Order, 1, [NIL_COORD, 2, 1], [Nil, 2, 1], 3) == [1, 2, 1];
  }

  /** Each candidate of the run is the agent's own cell or a neighbour of it in the grid. */
  lemma CandsLegal()
    ensures forall i, v :: 0 <= i < 3 && v in Cands[i] ==>
      v == Starts[i] || v in Mapd.GridNbrs(3, 1, {})(Starts[i])
  {
    Line();
    forall i, v | 0 <= i < 3 && v in Cands[i]
      ensures v == Starts[i] || v in Mapd.GridNbrs(3, 1, {})(Starts[i])
    {
      if i == 2 {
        assert v in [1, 0] && Starts[2] == 0;
      } else {
        assert v in [0, 1, 2] && Starts[i] == 1;
      }
    }
  }

  /** The step of the run puts agents 0 and 2 on one cell. */
  lemma Collides()
    ensures !ResolverStep.SafeStep(Starts, Mapd.GridNbrs(3, 1, {}), [1, 2, 1])
  {
    var q: seq<int> := [1, 2, 1];
    assert q[0] == q[2];
  }

  /** Agent 0 staying, agent 1 moving to cell 2 and agent 2 staying is a safe step. */
  lemma SafeExists()
    ensures ResolverStep.SafeStep(Starts, Mapd.GridNbrs(3, 1, {}), [1, 2, 0])
  {
    var q: seq<int> := [1, 2, 0];
    assert 2 in Mapd.GridNbrs(3, 1, {})(1) by {
      Line();
    }
    forall i | 0 <= i < 3
      ensures q[i] == Starts[i] || q[i] in Mapd.GridNbrs(3, 1, {})(Starts[i])
    {
      if i == 1 {
        assert q[1] == 2 && Starts[1] == 1;
      }
    }
    assert forall i, j :: 0 <= i < j < 3 ==> q[i] != q[j];
    assert forall i, j :: 0 <= i < 3 && 0 <= j < 3 && i != j && q[i] == Starts[j] ==> q[j] != Starts[i];
  }

  /**
   * With agents 0 and 1 stacked, `occupied_now` hides agent 0, and the step as written sends
   * agent 2 onto the cell where agent 0 stays, although a safe step exists (and every
   * candidate is legal, by `CandsLegal`).
   */
  lemma HiddenStart()
    ensures Starts[0] == Starts[1] && OccNow(Starts, 3, Nil)[Starts[0]] != 0
    ensures StepAsWritten(Starts, 3, Cands, Order, Nil) == [1, 2, 1]
    ensures !ResolverStep.SafeStep(Starts, Mapd.GridNbrs(3, 1, {}), [1, 2, 1])
    ensures ResolverStep.SafeStep(Starts, Mapd.GridNbrs(3, 1, {}), [1, 2, 0])
  {
    Recorded(Starts, 3, Nil, 0);
    Whole();
    Collides();
    SafeExists();
  }
}
