/**
 * The recursive `pibt` of the map-based MAPD step, over one shared plan and one shared set of
 * agents whose call is still open (`visiting`). An agent takes the first candidate cell that is
 * not planned, does not cross a planned move, and is free, held by a planned agent, or held by
 * an agent of lower priority that can itself be pushed away.
 */
module PibtPlanning {
  import opened Wrappers
  import opened PibtMaps
  import Ordering

  /** No two planned agents go to the same cell. */
  predicate Injective(plan: map<nat, Vec>)
  {
    forall i, j :: i in plan && j in plan && i != j ==> plan[i] != plan[j]
  }

  /** A planned cell that somebody stands on is left by its occupant, who has a plan too. */
  predicate Follows(agents: seq<Agent>, plan: map<nat, Vec>)
  {
    forall i {:trigger plan[i]} :: i in plan ==> OccupantAt(plan[i], agents).None? || OccupantAt(plan[i], agents).value in plan
  }

  /** Every plan entry is one of the agent's offered cells: a walkable step or staying put. */
  predicate Steps(g: Grid, agents: seq<Agent>, plan: map<nat, Vec>)
  {
    forall i :: i in plan ==> i < |agents| && plan[i] in Neigh(g, agents[i].pos)
  }

  predicate Planned(g: Grid, agents: seq<Agent>, plan: map<nat, Vec>)
  {
    Steps(g, agents, plan) && Injective(plan) && Follows(agents, plan)
  }

  /** No two planned agents trade cells. */
  predicate NoSwap(agents: seq<Agent>, plan: map<nat, Vec>)
  {
    forall i, j :: i in plan && j in plan && i != j && i < |agents| && j < |agents| ==>
      !(plan[i] == agents[j].pos && plan[j] == agents[i].pos)
  }

  /** A cell held by an agent whose call is open and who has no plan yet. */
  predicate Protected(c: Vec, agents: seq<Agent>, open: set<nat>, plan: map<nat, Vec>)
  {
    OccupantAt(c, agents).Some? && OccupantAt(c, agents).value in open && OccupantAt(c, agents).value !in plan
  }

  /** Where agent `i` ends the step: its plan entry, or where it stands. */
  function Next(agents: seq<Agent>, plan: map<nat, Vec>, i: nat): Vec
    requires i < |agents|
  {
    if i in plan then plan[i] else agents[i].pos
  }

  class Planner {
    const g: Grid
    const agents: seq<Agent>
    const tasks: seq<Task>
    var plan: map<nat, Vec>
    var visiting: set<nat>

    /** The agents' numbers. */
    function Idx(): set<nat>
    {
      set i | i in Ordering.Indices(|agents|)
    }

    lemma InIdx(i: nat)
      requires i < |agents|
      ensures i in Idx()
    {
      assert Ordering.Indices(|agents|)[i] == i;
    }

    ghost predicate Valid()
      reads this
    {
      && Spread(agents)
      && (forall i :: 0 <= i < |agents| ==> Known(agents[i], tasks))
      && visiting <= Idx()
      && Planned(g, agents, plan)
    }

    /** A fresh, empty plan over a fleet on distinct cells. */
    constructor (g: Grid, agents: seq<Agent>, tasks: seq<Task>)
      requires Spread(agents) && forall i :: 0 <= i < |agents| ==> Known(agents[i], tasks)
      ensures Valid() && this.g == g && this.agents == agents && this.tasks == tasks
      ensures plan == map[] && visiting == {}
    {
      this.g, this.agents, this.tasks := g, agents, tasks;
      plan, visiting := map[], {};
    }

    /**
     * `pibt(aid)`: false at once for an agent whose call is open; otherwise tries the agent's
     * candidates in order and on success plans it. A failed call leaves the plan as it was;
     * every call leaves `visiting` as it was; a successful one only adds or changes entries of
     * agents outside `visiting`, never onto a cell held by an unplanned agent with an open call.
     */
    method Pibt(aid: nat) returns (ok: bool)
      requires Valid() && aid < |agents|
      modifies this`plan, this`visiting
      decreases Idx() - visiting
      ensures Valid()
      ensures visiting == old(visiting)
      ensures aid in old(visiting) ==> !ok
      ensures !ok ==> plan == old(plan)
      ensures ok ==> aid in plan && old(plan).Keys <= plan.Keys
      ensures Untouched(old(plan), plan, old(visiting))
      ensures Clear(agents, old(plan), plan, old(visiting) + {aid})
      ensures aid !in old(plan) && NoSwap(agents, old(plan)) ==> NoSwap(agents, plan)
    {
      if aid in visiting {
        return false;
      }
      var v0 := visiting;
      InIdx(aid);
      visiting := visiting + {aid};
      assert visiting - {aid} == v0;
      var a := agents[aid];
      var cand := ChooseOrder(g, a.pos, TargetOf(a, tasks));
      for i := 0 to |cand|
        invariant Valid()
        invariant visiting == v0 + {aid}
        invariant plan == old(plan)
      {
        var c := cand[i];
        assert c in Neigh(g, a.pos) by {
          assert c in multiset(cand);
        }
        var d := Verdict(aid, c, agents, tasks, plan);
        if d.Take? {
          AfterTake(g, agents, aid, c, plan, v0);
          plan := plan[aid := c];
          visiting := visiting - {aid};
          return true;
        } else if d.Push? {
          var pushed := Pibt(d.occupant);
          if pushed {
            AfterPush(g, agents, aid, c, d.occupant, old(plan), plan, v0);
            plan := plan[aid := c];
            visiting := visiting - {aid};
            return true;
          }
        }
      }
      visiting := visiting - {aid};
      return false;
    }

    /**
     * The planning loop of `step` as written: `pibt` for every agent of `order`, each time with
     * an empty `visiting`, including agents an earlier call has already planned.
     */
    method PlanAll(order: seq<nat>)
      requires Valid() && plan == map[] && forall k :: 0 <= k < |order| ==> order[k] < |agents|
      modifies this`plan, this`visiting
      ensures Valid() && visiting == {}
      ensures plan.Keys <= Idx()
    {
      visiting := {};
      for k := 0 to |order|
        invariant Valid() && visiting == {}
      {
        var _ := Pibt(order[k]);
      }
      PlanKeys();
    }

    /**
     * The planning loop with the guard the algorithm intends: `pibt` only for agents that have
     * no plan yet. Besides a sound plan it never lets two agents trade cells.
     */
    method PlanGuarded(order: seq<nat>)
      requires Valid() && plan == map[] && forall k :: 0 <= k < |order| ==> order[k] < |agents|
      modifies this`plan, this`visiting
      ensures Valid() && visiting == {}
      ensures plan.Keys <= Idx() && NoSwap(agents, plan)
    {
      visiting := {};
      for k := 0 to |order|
        invariant Valid() && visiting == {} && NoSwap(agents, plan)
      {
        if order[k] !in plan {
          var _ := Pibt(order[k]);
        }
      }
      PlanKeys();
    }

    lemma PlanKeys()
      requires Valid()
      ensures plan.Keys <= Idx()
    {
      forall i | i in plan
        ensures i in Idx()
      {
        InIdx(i);
      }
    }
  }

  /** The entries of the agents in `v` are as they were. */
  predicate Untouched(p0: map<nat, Vec>, p1: map<nat, Vec>, v: set<nat>)
  {
    forall id :: id in v ==> (id in p1 <==> id in p0) && (id in p1 ==> p1[id] == p0[id])
  }

  /** Every entry added or changed since `p0` avoids the cells `Protected` by `open` and `p0`. */
  predicate Clear(agents: seq<Agent>, p0: map<nat, Vec>, p1: map<nat, Vec>, open: set<nat>)
  {
    forall id {:trigger p1[id]} :: id in p1 && (id !in p0 || p1[id] != p0[id]) ==> !Protected(p1[id], agents, open, p0)
  }

  /** Taking a free cell, or one whose occupant is planned, keeps the plan sound. */
  lemma AfterTake(g: Grid, agents: seq<Agent>, aid: nat, c: Vec, p0: map<nat, Vec>, v0: set<nat>)
    requires Spread(agents) && aid < |agents| && c in Neigh(g, agents[aid].pos) && aid !in v0
    requires Planned(g, agents, p0)
    requires c !in p0.Values && !Swap(agents[aid].pos, c, p0, agents)
    requires OccupantAt(c, agents).None? || OccupantAt(c, agents).value in p0
    ensures Planned(g, agents, p0[aid := c]) && Untouched(p0, p0[aid := c], v0)
    ensures Clear(agents, p0, p0[aid := c], v0 + {aid})
    ensures aid !in p0 && NoSwap(agents, p0) ==> NoSwap(agents, p0[aid := c])
  {
    TakeInjective(aid, c, p0);
    StepsPut(g, agents, aid, c, p0);
    FollowsPut(agents, aid, c, p0);
    TakeUntouched(aid, c, p0, v0);
    TakeClear(agents, aid, c, p0, v0);
    if aid !in p0 && NoSwap(agents, p0) {
      TakeNoSwap(agents, aid, c, p0);
    }
  }

  lemma TakeInjective(aid: nat, c: Vec, p0: map<nat, Vec>)
    requires Injective(p0) && c !in p0.Values
    ensures Injective(p0[aid := c])
  {
    forall id | id in p0 && id != aid
      ensures p0[id] != c
    {
      assert p0[id] in p0.Values;
    }
  }

  lemma TakeUntouched(aid: nat, c: Vec, p0: map<nat, Vec>, v0: set<nat>)
    requires aid !in v0
    ensures Untouched(p0, p0[aid := c], v0)
  {
    forall id | id in v0
      ensures (id in p0[aid := c] <==> id in p0) && (id in p0[aid := c] ==> p0[aid := c][id] == p0[id])
    {
      assert id != aid;
    }
  }

  lemma TakeClear(agents: seq<Agent>, aid: nat, c: Vec, p0: map<nat, Vec>, v0: set<nat>)
    requires OccupantAt(c, agents).None? || OccupantAt(c, agents).value in p0
    ensures Clear(agents, p0, p0[aid := c], v0 + {aid})
  {
  }

  lemma TakeNoSwap(agents: seq<Agent>, aid: nat, c: Vec, p0: map<nat, Vec>)
    requires aid < |agents| && aid !in p0 && NoSwap(agents, p0) && !Swap(agents[aid].pos, c, p0, agents)
    ensures NoSwap(agents, p0[aid := c])
  {
  }

  /** After a successful push the pusher's entry keeps the plan sound. */
  lemma AfterPush(g: Grid, agents: seq<Agent>, aid: nat, c: Vec, o: nat, p0: map<nat, Vec>, p1: map<nat, Vec>, v0: set<nat>)
    requires Spread(agents) && aid < |agents| && c in Neigh(g, agents[aid].pos) && aid !in v0
    requires c !in p0.Values && !Swap(agents[aid].pos, c, p0, agents)
    requires OccupantAt(c, agents) == Some(o) && o !in p0 && o !in v0 && o != aid
    requires Planned(g, agents, p1) && o in p1
    requires Untouched(p0, p1, v0 + {aid}) && Clear(agents, p0, p1, v0 + {aid} + {o})
    requires aid !in p0 && NoSwap(agents, p0) ==> NoSwap(agents, p1)
    ensures Planned(g, agents, p1[aid := c]) && Untouched(p0, p1[aid := c], v0)
    ensures Clear(agents, p0, p1[aid := c], v0 + {aid})
    ensures aid !in p0 && NoSwap(agents, p0) ==> NoSwap(agents, p1[aid := c])
  {
    FollowAfterPush(g, agents, aid, c, o, p1);
    UntouchedAfterPush(aid, c, p0, p1, v0);
    TakeAfterPush(agents, aid, c, o, p0, p1, v0);
    FreeAfterPush(agents, aid, c, o, p0, p1, v0);
    if aid !in p0 && NoSwap(agents, p0) {
      NoSwapAfterPush(agents, aid, c, o, p0, p1, v0);
    }
  }

  /** The pushed occupant has a plan, so the pusher may follow it onto `c`. */
  lemma FollowAfterPush(g: Grid, agents: seq<Agent>, aid: nat, c: Vec, o: nat, p1: map<nat, Vec>)
    requires aid < |agents| && c in Neigh(g, agents[aid].pos)
    requires OccupantAt(c, agents) == Some(o) && o in p1
    requires Steps(g, agents, p1) && Follows(agents, p1)
    ensures Steps(g, agents, p1[aid := c]) && Follows(agents, p1[aid := c])
  {
    StepsPut(g, agents, aid, c, p1);
    FollowsPut(agents, aid, c, p1);
  }

  /** An entry onto an offered cell keeps every entry an offered cell. */
  lemma StepsPut(g: Grid, agents: seq<Agent>, aid: nat, c: Vec, p: map<nat, Vec>)
    requires aid < |agents| && c in Neigh(g, agents[aid].pos) && Steps(g, agents, p)
    ensures Steps(g, agents, p[aid := c])
  {
  }

  /** An entry onto a free cell, or onto one whose occupant is planned, keeps `Follows`. */
  lemma FollowsPut(agents: seq<Agent>, aid: nat, c: Vec, p: map<nat, Vec>)
    requires Follows(agents, p) && (OccupantAt(c, agents).None? || OccupantAt(c, agents).value in p)
    ensures Follows(agents, p[aid := c])
  {
    forall i | i in p || i == aid
      ensures OccupantAt(p[aid := c][i], agents).None? || OccupantAt(p[aid := c][i], agents).value in p[aid := c]
    {
      if i != aid {
        assert p[aid := c][i] == p[i];
      }
    }
  }

  /** The pusher is not among the agents `v0`, so its entry leaves theirs alone. */
  lemma UntouchedAfterPush(aid: nat, c: Vec, p0: map<nat, Vec>, p1: map<nat, Vec>, v0: set<nat>)
    requires aid !in v0 && Untouched(p0, p1, v0 + {aid})
    ensures Untouched(p0, p1[aid := c], v0)
  {
  }

  /** Neither the push nor the pusher's entry lands on a cell held by an unplanned agent with an open call. */
  lemma TakeAfterPush(agents: seq<Agent>, aid: nat, c: Vec, o: nat, p0: map<nat, Vec>, p1: map<nat, Vec>, v0: set<nat>)
    requires OccupantAt(c, agents) == Some(o) && o !in v0 && o != aid
    requires Clear(agents, p0, p1, v0 + {aid} + {o})
    ensures Clear(agents, p0, p1[aid := c], v0 + {aid})
  {
    forall id | id in p1[aid := c] && (id !in p0 || p1[aid := c][id] != p0[id])
      ensures !Protected(p1[aid := c][id], agents, v0 + {aid}, p0)
    {
      if id != aid {
        assert !Protected(p1[id], agents, v0 + {aid} + {o}, p0);
      }
    }
  }

  /** No entry the push left behind, other than the pusher's own, goes to `c`. */
  lemma FreeAfterPush(agents: seq<Agent>, aid: nat, c: Vec, o: nat, p0: map<nat, Vec>, p1: map<nat, Vec>, v0: set<nat>)
    requires c !in p0.Values
    requires OccupantAt(c, agents) == Some(o) && o !in p0
    requires Clear(agents, p0, p1, v0 + {aid} + {o})
    requires Injective(p1)
    ensures Injective(p1[aid := c])
  {
    forall id | id in p1 && id != aid
      ensures p1[id] != c
    {
      if id !in p0 || p1[id] != p0[id] {
        assert Protected(c, agents, v0 + {aid} + {o}, p0);
      } else {
        assert p0[id] in p0.Values;
      }
    }
  }

  /** The pusher's new entry does not trade cells with an entry made before or during the push. */
  lemma NoSwapAfterPush(agents: seq<Agent>, aid: nat, c: Vec, o: nat, p0: map<nat, Vec>, p1: map<nat, Vec>, v0: set<nat>)
    requires Spread(agents) && aid < |agents|
    requires aid !in p0 && NoSwap(agents, p0) && NoSwap(agents, p1) && !Swap(agents[aid].pos, c, p0, agents)
    requires aid in v0 + {aid} && (aid in p1 <==> aid in p0)
    requires Clear(agents, p0, p1, v0 + {aid} + {o})
    ensures NoSwap(agents, p1[aid := c])
  {
    var p2 := p1[aid := c];
    OccupantOfOwnCell(agents, aid);
    forall j | j in p2 && j != aid && j < |agents| && c == agents[j].pos
      ensures p2[j] != agents[aid].pos
    {
      if j !in p0 || p1[j] != p0[j] {
        assert !Protected(p1[j], agents, v0 + {aid} + {o}, p0);
      }
    }
  }

  /**
   * After planning, every agent ends on a cell of its own, one walkable step away or where it
   * stood; without a swap in the plan, no two agents trade cells either.
   */
  lemma FinalCells(g: Grid, agents: seq<Agent>, plan: map<nat, Vec>)
    requires Spread(agents) && Planned(g, agents, plan)
    ensures forall i, j :: 0 <= i < j < |agents| ==> Next(agents, plan, i) != Next(agents, plan, j)
    ensures forall i :: 0 <= i < |agents| ==> Next(agents, plan, i) in Neigh(g, agents[i].pos)
    ensures NoSwap(agents, plan) ==> forall i, j :: 0 <= i < |agents| && 0 <= j < |agents| && i != j ==>
      !(Next(agents, plan, i) == agents[j].pos && Next(agents, plan, j) == agents[i].pos)
  {
    forall i, j | 0 <= i < j < |agents|
      ensures Next(agents, plan, i) != Next(agents, plan, j)
    {
      if i in plan && j !in plan && plan[i] == agents[j].pos {
        OccupantOfOwnCell(agents, j);
      }
      if j in plan && i !in plan && plan[j] == agents[i].pos {
        OccupantOfOwnCell(agents, i);
      }
    }
  }
}
