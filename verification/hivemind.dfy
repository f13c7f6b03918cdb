/**
 * The server's hivemind: every robot shuttles between a destination bin, chosen at random,
 * and the common base. A robot without an assignment is sent to a bin; one that reached its
 * target is sent on to the other end of its shuttle.
 */
module Hiveminds {
  import opened Wrappers
  import DestinationBins

  type Cell = (int, int)

  datatype Phase = ToDest | ToBase

  /** An assignment: where the robot is going and which bin its shuttle serves. */
  datatype Assignment = Assignment(phase: Phase, target: Cell, dest: nat)

  /** Python's `int(x)` on a float: truncation toward zero. */
  function Trunc(x: real): (r: int)
    ensures x >= 0.0 ==> r as real <= x < r as real + 1.0
    ensures x < 0.0 ==> r as real - 1.0 < x <= r as real
  {
    if x >= 0.0 then x.Floor else -((-x).Floor)
  }

  /** `_is_at`: the robot's grid cell is the target. */
  predicate IsAt(position: Cell, target: Cell)
  {
    position.0 == target.0 && position.1 == target.1
  }

  /**
   * One robot's turn in `step`: `state` is its assignment (if any), `position` its grid cell,
   * `bin` the index the random choice would pick and `binCell` that bin's truncated position.
   * The result is the new assignment, or `None` when the old one is kept.
   */
  function Turn(state: Option<Assignment>, position: Cell, base: Cell, bin: nat, binCell: Cell): (r: Option<Assignment>)
    ensures state.None? ==> r == Some(Assignment(ToDest, binCell, bin))
    ensures state.Some? && !IsAt(position, state.value.target) ==> r.None?
    ensures state.Some? && IsAt(position, state.value.target) && state.value.phase == ToDest ==>
      r == Some(Assignment(ToBase, base, state.value.dest))
    ensures state.Some? && IsAt(position, state.value.target) && state.value.phase == ToBase ==>
      r == Some(Assignment(ToDest, binCell, bin))
  {
    if state.None? then Some(Assignment(ToDest, binCell, bin))
    else if !IsAt(position, state.value.target) then None
    else if state.value.phase == ToDest then Some(Assignment(ToBase, base, state.value.dest))
    else Some(Assignment(ToDest, binCell, bin))
  }

  /** The phase a robot's turn leaves it in: a new assignment always flips the phase. */
  lemma TurnAlternates(state: Option<Assignment>, position: Cell, base: Cell, bin: nat, binCell: Cell)
    requires state.Some? && Turn(state, position, base, bin, binCell).Some?
    ensures Turn(state, position, base, bin, binCell).value.phase != state.value.phase
  {
  }

  /** The robot ids `ids[..i]` have all taken their turn: the assignments and the moves commanded so far. */
  function Run(assignments: map<string, Assignment>, ids: seq<string>, positions: map<string, Cell>,
               choices: seq<nat>, base: Cell, binCells: seq<Cell>, i: nat): (r: (map<string, Assignment>, seq<(string, Cell)>))
    requires RunInputs(ids, positions, choices, binCells) && i <= |ids|
    ensures |r.1| <= i
  {
    if i == 0 then (assignments, [])
    else
      var (a, moves) := Run(assignments, ids, positions, choices, base, binCells, i - 1);
      var rid := ids[i - 1];
      var turn := TurnOf(a, ids, positions, choices, base, binCells, i - 1);
      if turn.Some? then (a[rid := turn.value], moves + [(rid, turn.value.target)]) else (a, moves)
  }

  /** The preconditions of `Run`, shared by the lemmas about it. */
  predicate RunInputs(ids: seq<string>, positions: map<string, Cell>, choices: seq<nat>, binCells: seq<Cell>)
  {
    |ids| == |choices|
    && (forall k :: 0 <= k < |choices| ==> choices[k] < |binCells|)
    && (forall k :: 0 <= k < |ids| ==> ids[k] in positions)
  }

  /** A robot's turn as `step` takes it, from its assignment before the step. */
  function TurnOf(assignments: map<string, Assignment>, ids: seq<string>, positions: map<string, Cell>,
                  choices: seq<nat>, base: Cell, binCells: seq<Cell>, k: nat): Option<Assignment>
    requires RunInputs(ids, positions, choices, binCells) && k < |ids|
  {
    var rid := ids[k];
    Turn(if rid in assignments then Some(assignments[rid]) else None, positions[rid], base, choices[k], binCells[choices[k]])
  }

  /** Ids that have not taken their turn keep their assignment (or their lack of one). */
  lemma {:induction false} RunKeepsOthers(assignments: map<string, Assignment>, ids: seq<string>, positions: map<string, Cell>,
                                          choices: seq<nat>, base: Cell, binCells: seq<Cell>, i: nat, rid: string)
    requires RunInputs(ids, positions, choices, binCells) && i <= |ids|
    requires rid !in ids[..i]
    ensures var a := Run(assignments, ids, positions, choices, base, binCells, i).0;
      (rid in a <==> rid in assignments) && (rid in a ==> a[rid] == assignments[rid])
  {
    if i > 0 {
      assert ids[..i] == ids[..i - 1] + [ids[i - 1]];
      RunKeepsOthers(assignments, ids, positions, choices, base, binCells, i - 1, rid);
    }
  }

  /** Every move commanded is for an id that has taken its turn, towards its current target. */
  lemma {:induction false} RunMoves(assignments: map<string, Assignment>, ids: seq<string>, positions: map<string, Cell>,
                                    choices: seq<nat>, base: Cell, binCells: seq<Cell>, i: nat)
    requires RunInputs(ids, positions, choices, binCells) && i <= |ids|
    requires forall j, k :: 0 <= j < k < |ids| ==> ids[j] != ids[k]
    ensures var (a, moves) := Run(assignments, ids, positions, choices, base, binCells, i);
      forall m :: m in moves ==> m.0 in ids[..i] && m.0 in a && a[m.0].target == m.1
  {
    if i > 0 {
      RunMoves(assignments, ids, positions, choices, base, binCells, i - 1);
      assert ids[..i] == ids[..i - 1] + [ids[i - 1]];
      assert ids[i - 1] !in ids[..i - 1];
    }
  }

  /**
   * With distinct ids, `step` gives each robot exactly the turn its own old assignment calls
   * for, and commands a move for it exactly when that turn makes a new assignment.
   */
  lemma {:induction false} RunTurns(assignments: map<string, Assignment>, ids: seq<string>, positions: map<string, Cell>,
                                    choices: seq<nat>, base: Cell, binCells: seq<Cell>, i: nat, k: nat)
    requires RunInputs(ids, positions, choices, binCells) && k < i <= |ids|
    requires forall j, l :: 0 <= j < l < |ids| ==> ids[j] != ids[l]
    ensures var (a, moves) := Run(assignments, ids, positions, choices, base, binCells, i);
      var turn := TurnOf(assignments, ids, positions, choices, base, binCells, k);
      && ids[k] in a && a[ids[k]] == (if turn.Some? then turn.value else assignments[ids[k]])
      && (turn.Some? ==> (ids[k], turn.value.target) in moves)
      && (turn.None? ==> forall m :: m in moves ==> m.0 != ids[k])
  {
    var (a, moves) := Run(assignments, ids, positions, choices, base, binCells, i - 1);
    if k == i - 1 {
      assert ids[k] !in ids[..k] by {
        forall j | 0 <= j < k ensures ids[j] != ids[k] {}
      }
      RunKeepsOthers(assignments, ids, positions, choices, base, binCells, k, ids[k]);
      RunMoves(assignments, ids, positions, choices, base, binCells, k);
    } else {
      RunTurns(assignments, ids, positions, choices, base, binCells, i - 1, k);
      assert ids[i - 1] != ids[k];
    }
  }

  /** Bin indices stay in range. */
  lemma {:induction false} RunDests(assignments: map<string, Assignment>, ids: seq<string>, positions: map<string, Cell>,
                                    choices: seq<nat>, base: Cell, binCells: seq<Cell>, i: nat)
    requires RunInputs(ids, positions, choices, binCells) && i <= |ids|
    requires forall rid :: rid in assignments ==> assignments[rid].dest < |binCells|
    ensures forall rid :: rid in Run(assignments, ids, positions, choices, base, binCells, i).0 ==>
      Run(assignments, ids, positions, choices, base, binCells, i).0[rid].dest < |binCells|
  {
    if i > 0 {
      RunDests(assignments, ids, positions, choices, base, binCells, i - 1);
      var a := Run(assignments, ids, positions, choices, base, binCells, i - 1).0;
      var rid := ids[i - 1];
      var state := if rid in a then Some(a[rid]) else None;
      assert state.Some? ==> state.value.dest < |binCells|;
      assert TurnOf(a, ids, positions, choices, base, binCells, i - 1)
        == Turn(state, positions[rid], base, choices[i - 1], binCells[choices[i - 1]]);
    }
  }

  class Hivemind {
    /** The robot ids, in the dictionary's order. */
    const robotIds: seq<string>
    const base: Cell
    const bins: seq<DestinationBins.DestinationBin>
    var assignments: map<string, Assignment>

    ghost predicate Valid()
      reads this
    {
      |bins| > 0
      && (forall i, j :: 0 <= i < j < |robotIds| ==> robotIds[i] != robotIds[j])
      && forall rid :: rid in assignments ==> assignments[rid].dest < |bins|
    }

    constructor (ids: seq<string>, baseCell: Cell, destinationBins: seq<DestinationBins.DestinationBin>)
      requires |destinationBins| > 0 && forall i, j :: 0 <= i < j < |ids| ==> ids[i] != ids[j]
      ensures Valid() && robotIds == ids && base == baseCell && bins == destinationBins && assignments == map[]
    {
      robotIds, base, bins := ids, baseCell, destinationBins;
      assignments := map[];
    }

    /** The grid cells of the bins: their positions truncated toward zero. */
    function BinCells(): (r: seq<Cell>)
      ensures |r| == |bins|
      ensures forall k :: 0 <= k < |bins| ==> r[k] == (Trunc(bins[k].x), Trunc(bins[k].y))
    {
      seq(|bins|, k requires 0 <= k < |bins| => (Trunc(bins[k].x), Trunc(bins[k].y)))
    }

    /**
     * `step`: every robot takes its turn, in order. `positions[rid]` is the grid cell of robot
     * `rid`, and `choices[i]` the bin the random choice picks if robot `i` needs one. The moves
     * commanded are returned in order.
     */
    method Step(positions: map<string, Cell>, choices: seq<nat>) returns (moves: seq<(string, Cell)>)
      requires Valid() && |choices| == |robotIds|
      requires forall i :: 0 <= i < |choices| ==> choices[i] < |bins|
      requires forall i :: 0 <= i < |robotIds| ==> robotIds[i] in positions
      modifies this`assignments
      ensures Valid()
      ensures (assignments, moves) == Run(old(assignments), robotIds, positions, choices, base, BinCells(), |robotIds|)
      ensures forall k :: 0 <= k < |robotIds| ==>
        var turn := TurnOf(old(assignments), robotIds, positions, choices, base, BinCells(), k);
        && robotIds[k] in assignments
        && assignments[robotIds[k]] == (if turn.Some? then turn.value else old(assignments)[robotIds[k]])
        && (turn.Some? ==> (robotIds[k], turn.value.target) in moves)
        && (turn.None? ==> forall m :: m in moves ==> m.0 != robotIds[k])
      ensures forall rid :: rid !in robotIds ==>
        (rid in assignments <==> rid in old(assignments)) && (rid in assignments ==> assignments[rid] == old(assignments)[rid])
      ensures forall m :: m in moves ==> m.0 in assignments && assignments[m.0].target == m.1
    {
      var cells := BinCells();
      var a := assignments;
      moves := [];
      for i := 0 to |robotIds|
        invariant (a, moves) == Run(assignments, robotIds, positions, choices, base, cells, i)
      {
        var rid := robotIds[i];
        var turn := Turn(if rid in a then Some(a[rid]) else None, positions[rid], base, choices[i], cells[choices[i]]);
        if turn.Some? {
          a := a[rid := turn.value];
          moves := moves + [(rid, turn.value.target)];
        }
      }
      var n := |robotIds|;
      assert robotIds[..n] == robotIds;
      forall k | 0 <= k < n
        ensures var turn := TurnOf(assignments, robotIds, positions, choices, base, cells, k);
          && robotIds[k] in a && a[robotIds[k]] == (if turn.Some? then turn.value else assignments[robotIds[k]])
          && (turn.Some? ==> (robotIds[k], turn.value.target) in moves)
          && (turn.None? ==> forall m :: m in moves ==> m.0 != robotIds[k])
      {
        RunTurns(assignments, robotIds, positions, choices, base, cells, n, k);
      }
      forall rid | rid !in robotIds
        ensures (rid in a <==> rid in assignments) && (rid in a ==> a[rid] == assignments[rid])
      {
        RunKeepsOthers(assignments, robotIds, positions, choices, base, cells, n, rid);
      }
      RunMoves(assignments, robotIds, positions, choices, base, cells, n);
      RunDests(assignments, robotIds, positions, choices, base, cells, n);
      assignments := a;
    }
  }
}
