/**
 * Goal picking of the lock-based controller (src/ts/TwoController.tsx, `pickNewGoal`). It
 * differs from the second controller's only when every unoccupied cell is somebody else's
 * goal and no cell is free at all: it then falls back to cell 0 instead of giving up.
 */
module LockGoals {
  import opened Wrappers
  import Controller2

  /** What `pickNewGoal` reads of an agent: its id, the cell it stands on (`from`) and its goal. */
  datatype Placement = Placement(id: int, from: nat, goal: nat)

  /** Some agent stands on `c`. */
  predicate Occupied(agents: seq<Placement>, c: nat)
  {
    exists i :: 0 <= i < |agents| && agents[i].from == c
  }

  /** `c` is the goal of an agent other than `agentId`. */
  predicate OtherGoal(agents: seq<Placement>, agentId: int, c: nat)
  {
    exists i :: 0 <= i < |agents| && agents[i].id != agentId && agents[i].goal == c
  }

  /**
   * `pickNewGoal(agentId)` on `n` cells: a shuffled choice among the cells neither occupied nor
   * another agent's goal (`pick` stands for the shuffle); with none, the first unoccupied cell;
   * with none of those either, cell 0 (`allIds[0]`, which does not exist on an empty grid).
   */
  function PickNewGoal(agents: seq<Placement>, agentId: int, n: nat, pick: nat): Option<nat>
  {
    var candidates := Controller2.Filter(n, (c: nat) => !Occupied(agents, c) && !OtherGoal(agents, agentId, c));
    if candidates == [] then
      var unoccupied := Controller2.Filter(n, (c: nat) => !Occupied(agents, c));
      if unoccupied != [] then Some(unoccupied[0])
      else if n > 0 then Some(0)
      else None
    else Some(candidates[pick % |candidates|])
  }

  /**
   * The result is a cell of the grid, and there is one unless the grid is empty. It avoids the
   * occupied cells and the other agents' goals whenever some cell does; otherwise it is the
   * smallest unoccupied cell; and when every cell is occupied it is cell 0.
   */
  lemma PickNewGoalSpec(agents: seq<Placement>, agentId: int, n: nat, pick: nat)
    ensures var r := PickNewGoal(agents, agentId, n, pick);
      (r.None? <==> n == 0)
      && (r.Some? ==> r.value < n)
      && ((exists c :: 0 <= c < n && !Occupied(agents, c) && !OtherGoal(agents, agentId, c)) ==>
            r.Some? && !Occupied(agents, r.value) && !OtherGoal(agents, agentId, r.value))
      && ((forall c :: 0 <= c < n && !Occupied(agents, c) ==> OtherGoal(agents, agentId, c)) &&
          (exists c :: 0 <= c < n && !Occupied(agents, c)) ==>
            r.Some? && !Occupied(agents, r.value) && forall c :: 0 <= c < r.value ==> Occupied(agents, c))
      && ((forall c :: 0 <= c < n ==> Occupied(agents, c)) && n > 0 ==> r == Some(0))
  {
    var keepA := (c: nat) => !Occupied(agents, c) && !OtherGoal(agents, agentId, c);
    var keepB := (c: nat) => !Occupied(agents, c);
    var candidates := Controller2.Filter(n, keepA);
    var unoccupied := Controller2.Filter(n, keepB);
    if candidates == [] {
      forall c | 0 <= c < n && !Occupied(agents, c)
        ensures OtherGoal(agents, agentId, c)
      {
        assert c !in candidates;
      }
      if unoccupied == [] {
        forall c | 0 <= c < n
          ensures Occupied(agents, c)
        {
          assert c !in unoccupied;
        }
      } else {
        assert keepB(unoccupied[0]);
        forall c | 0 <= c < unoccupied[0]
          ensures Occupied(agents, c)
        {
          forall j | 0 <= j < |unoccupied|
            ensures unoccupied[j] != c
          {
            if j > 0 {
              assert unoccupied[0] < unoccupied[j];
            }
          }
          assert c !in unoccupied;
        }
      }
    } else {
      assert keepA(candidates[pick % |candidates|]);
    }
  }
}
