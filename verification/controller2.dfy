/**
 * The second controller: agents with fixed goals on an obstacle-free grid, a PIBT resolver
 * whose candidate lists are shuffled and then sorted by the agent's BFS distance table,
 * priorities that grow by one each step an agent is away from its goal, and re-planning
 * when an agent that reached its goal is given a new one.
 */
module Controller2 {
  import opened Wrappers
  import Grid
  import Ordering
  import DistTables
  import ResolverStep

  datatype Motion = Contracted | Extended

  datatype Agent = Agent(id: int, current: nat, next: Option<nat>, goal: nat, state: Motion)

  /** `Agent.done`: contracted on its goal. */
  predicate Done(a: Agent)
  {
    a.current == a.goal && a.state == Contracted
  }

  /** The discrete half of `Agent.step`: an arrived extended agent settles on `next`. */
  function Arrive(a: Agent, arrived: bool): (r: Agent)
    ensures a.state == Contracted || !arrived ==> r == a
    ensures a.state == Extended && arrived && a.next.Some? ==>
      r == a.(current := a.next.value, next := None, state := Contracted)
    ensures Target(r) == Target(a) && r.goal == a.goal && r.id == a.id
  {
    if a.state == Contracted || !arrived || a.next.None? then a
    else a.(current := a.next.value, next := None, state := Contracted)
  }

  /** The cell an agent occupies or is bound for. */
  function Target(a: Agent): nat
  {
    if a.next.Some? then a.next.value else a.current
  }

  predicate AllContracted(agents: seq<Agent>)
  {
    forall i :: 0 <= i < |agents| ==> agents[i].state == Contracted
  }

  /** The cells `0..n-1` that satisfy `keep`, in increasing order (`allIds.filter(keep)`). */
  function Filter(n: nat, keep: nat -> bool): (r: seq<nat>)
    ensures forall k :: 0 <= k < |r| ==> r[k] < n && keep(r[k])
    ensures forall c :: 0 <= c < n && keep(c) ==> c in r
    ensures forall a, b :: 0 <= a < b < |r| ==> r[a] < r[b]
  {
    if n == 0 then []
    else
      var rest := Filter(n - 1, keep);
      if keep(n - 1) then rest + [n - 1] else rest
  }

  predicate Occupied(agents: seq<Agent>, c: nat)
  {
    exists i :: 0 <= i < |agents| && agents[i].current == c
  }

  /** `c` is the goal of an agent other than `agentId`. */
  predicate OtherGoal(agents: seq<Agent>, agentId: int, c: nat)
  {
    exists i :: 0 <= i < |agents| && agents[i].id != agentId && agents[i].goal == c
  }

  /**
   * `pickNewGoal(agentId)` on `n` cells. The cells neither occupied nor another agent's goal
   * are shuffled and the first is taken; `pick` stands for the shuffle's choice among them.
   * With no such cell, the first unoccupied cell; with none at all, `null`.
   */
  function PickNewGoal(agents: seq<Agent>, agentId: int, n: nat, pick: nat): (r: Option<nat>)
    ensures r.Some? ==> r.value < n
  {
    var candidates := Filter(n, (c: nat) => !Occupied(agents, c) && !OtherGoal(agents, agentId, c));
    if candidates == [] then
      var unoccupied := Filter(n, (c: nat) => !Occupied(agents, c));
      if unoccupied == [] then None else Some(unoccupied[0])
    else Some(candidates[pick % |candidates|])
  }

  /**
   * The result is a cell below `n` that no agent stands on; it avoids the other agents'
   * goals whenever some cell does; otherwise it is the smallest unoccupied cell; and there
   * is no result only when every cell is occupied.
   */
  lemma PickNewGoalSpec(agents: seq<Agent>, agentId: int, n: nat, pick: nat)
    ensures var r := PickNewGoal(agents, agentId, n, pick);
      (r.None? <==> forall c :: 0 <= c < n ==> Occupied(agents, c))
      && (r.Some? ==> r.value < n && !Occupied(agents, r.value))
      && ((exists c :: 0 <= c < n && !Occupied(agents, c) && !OtherGoal(agents, agentId, c)) ==>
            r.Some? && !OtherGoal(agents, agentId, r.value))
      && ((forall c :: 0 <= c < n && !Occupied(agents, c) ==> OtherGoal(agents, agentId, c)) && r.Some? ==>
            forall c :: 0 <= c < r.value ==> Occupied(agents, c))
  {
    var keepA := (c: nat) => !Occupied(agents, c) && !OtherGoal(agents, agentId, c);
    var keepB := (c: nat) => !Occupied(agents, c);
    var candidates := Filter(n, keepA);
    var unoccupied := Filter(n, keepB);
    var r := PickNewGoal(agents, agentId, n, pick);
    if candidates == [] {
      forall c | 0 <= c < n && !Occupied(agents, c) ensures OtherGoal(agents, agentId, c) {
        assert c !in candidates;
      }
      if unoccupied == [] {
        forall c | 0 <= c < n ensures Occupied(agents, c) {
          assert c !in unoccupied;
        }
      } else {
        assert keepB(unoccupied[0]);
        forall c | 0 <= c < unoccupied[0] ensures Occupied(agents, c) {
          forall j | 0 <= j < |unoccupied| ensures unoccupied[j] != c {
            if j > 0 { assert unoccupied[0] < unoccupied[j]; }
          }
          assert c !in unoccupied;
        }
      }
    } else {
      assert keepA(candidates[pick % |candidates|]);
    }
  }

  /** Every agent's arrival step. */
  function ArriveEach(agents: seq<Agent>, arrived: seq<bool>): (r: seq<Agent>)
    requires |arrived| == |agents|
    ensures |r| == |agents| && forall i :: 0 <= i < |agents| ==> r[i] == Arrive(agents[i], arrived[i])
  {
    seq(|agents|, i requires 0 <= i < |agents| => Arrive(agents[i], arrived[i]))
  }

  /** The obstacle-free neighbourhood of this controller's grid. */
  function Nbrs(w: nat, h: nat): nat -> seq<nat>
  {
    (u: nat) => if w > 0 then Grid.NeighborList(w, h, {}, u) else []
  }

  /** The agent's cell and its neighbours, in the shuffled order and then stably sorted by table distance. */
  function Candidates(w: nat, h: nat, table: seq<int>, shuffled: seq<nat>): seq<nat>
  {
    Ordering.SortBy<nat>(shuffled, (v: nat) => if v < |table| then table[v] as real else 0.0)
  }

  /** Whatever the shuffle did, the candidates are the agent's cell and its grid neighbours. */
  lemma CandidatesCells(w: nat, h: nat, table: seq<int>, u: nat, shuffled: seq<nat>)
    requires w > 0 && u < w * h
    requires multiset(shuffled) == multiset([u] + Grid.NeighborList(w, h, {}, u))
    ensures forall v :: v in Candidates(w, h, table, shuffled) ==>
      v < w * h && (v == u || v in Grid.NeighborList(w, h, {}, u))
  {
    var c := Candidates(w, h, table, shuffled);
    Ordering.SortBySorted<nat>(shuffled, (v: nat) => if v < |table| then table[v] as real else 0.0);
    forall v | v in c ensures v < w * h && (v == u || v in Grid.NeighborList(w, h, {}, u)) {
      assert v in multiset(c);
      assert v in multiset([u] + Grid.NeighborList(w, h, {}, u));
      if v != u { Grid.NeighborListSpec(w, h, {}, u, v); }
    }
  }

  /** The initial priority: the distance to the goal as a fraction of the cell count. */
  function Share(d: int, cells: nat): real
  {
    if cells == 0 then 0.0 else d as real / cells as real
  }

  /** A distance below `cells` gives a priority in `[0, 1)`, and a nearer agent a smaller one. */
  lemma ShareBounds(d: int, e: int, cells: nat)
    requires 0 <= d < cells && d <= e
    ensures 0.0 <= Share(d, cells) < 1.0 && Share(d, cells) <= Share(e, cells)
  {
  }

  /** The priority update after a step: +1 away from the goal, only the fractional part on it. */
  function Bump(p: real, atGoal: bool): (r: real)
    ensures !atGoal ==> r == p + 1.0
    ensures atGoal ==> 0.0 <= r < 1.0 && (p - r).Floor as real == p - r
  {
    if atGoal then p - p.Floor as real else p + 1.0
  }

  /** `PIBT`'s tables: one distance table per goal. */
  method BuildTables(w: nat, h: nat, goals: seq<nat>) returns (ts: seq<seq<int>>)
    requires w > 0 && forall k :: 0 <= k < |goals| ==> goals[k] < w * h
    ensures |ts| == |goals|
    ensures forall k :: 0 <= k < |goals| ==>
      |ts[k]| == w * h && DistTables.IsDistanceTable(ts[k], DistTables.GridNeighbors(w, h), goals[k], w * h)
  {
    ts := [];
    for i := 0 to |goals|
      invariant |ts| == i
      invariant forall k :: 0 <= k < i ==>
        |ts[k]| == w * h && DistTables.IsDistanceTable(ts[k], DistTables.GridNeighbors(w, h), goals[k], w * h)
    {
      var t := DistTables.GridDistTable(w, h, goals[i]);
      ts := ts + [t];
    }
  }

  /** Agent `i` has id `i`, its cells and goal are on the grid, and no two agents share a target. */
  ghost predicate Placed(w: nat, h: nat, agents: seq<Agent>)
  {
    (forall i :: 0 <= i < |agents| ==>
       agents[i].id == i && agents[i].current < w * h && agents[i].goal < w * h
       && (agents[i].state == Extended <==> agents[i].next.Some?)
       && (agents[i].next.Some? ==> agents[i].next.value < w * h))
    && forall i, j :: 0 <= i < j < |agents| ==> Target(agents[i]) != Target(agents[j])
  }

  /** A new goal on the grid keeps the agents placed. */
  lemma Retargeted(w: nat, h: nat, agents: seq<Agent>, i: nat, g: nat)
    requires Placed(w, h, agents) && i < |agents| && g < w * h
    ensures Placed(w, h, agents[i := agents[i].(goal := g)])
  {
    var r := agents[i := agents[i].(goal := g)];
    assert forall k :: 0 <= k < |r| ==> Target(r[k]) == Target(agents[k]);
  }

  /**
   * The goal the loop of `update` gives agent `i` of `agents`, if any, when `ags` are the
   * agents as the loop leaves them: a done agent that is not a finisher gets `pickNewGoal`
   * over the agents as they stand at its turn, the earlier ones already re-targeted.
   */
  function Pick(n: nat, agents: seq<Agent>, finishers: set<int>, picks: seq<nat>, ags: seq<Agent>, i: nat): Option<nat>
    requires |ags| == |agents| == |picks| && i < |agents|
  {
    if Done(agents[i]) && agents[i].id !in finishers then PickNewGoal(ags[..i] + agents[i..], agents[i].id, n, picks[i])
    else None
  }

  /**
   * The goal loop of `update` took `agents`, the finishers and the re-plan request to `ags`,
   * `fs` and `rr`: each agent keeps everything but its goal, which is its pick when it has
   * one; exactly the agents with a pick join the finishers; and a re-plan is requested
   * exactly when one was already or some agent got a pick.
   */
  ghost predicate GoalsChosen(n: nat, agents: seq<Agent>, finishers: set<int>, replan: bool, picks: seq<nat>,
                              ags: seq<Agent>, rr: bool, fs: set<int>)
  {
    |ags| == |agents| == |picks|
    && (forall i :: 0 <= i < |agents| ==>
          ags[i] == agents[i].(goal := if Pick(n, agents, finishers, picks, ags, i).Some?
                                       then Pick(n, agents, finishers, picks, ags, i).value else agents[i].goal))
    && (forall i :: 0 <= i < |agents| ==> (i in fs <==> i in finishers || Pick(n, agents, finishers, picks, ags, i).Some?))
    && (forall x :: x in fs && x !in finishers ==> 0 <= x < |agents|)
    && (rr <==> replan || exists i :: 0 <= i < |agents| && Pick(n, agents, finishers, picks, ags, i).Some?)
  }

  /** The loop prefix: agents before `i` are done as `GoalsChosen` says, the others untouched. */
  ghost predicate ChosenUpTo(n: nat, agents: seq<Agent>, finishers: set<int>, replan: bool, picks: seq<nat>,
                             ags: seq<Agent>, rr: bool, fs: set<int>, i: nat)
  {
    |ags| == |agents| == |picks| && i <= |agents|
    && (forall k :: 0 <= k < i ==>
          ags[k] == agents[k].(goal := if Pick(n, agents, finishers, picks, ags, k).Some?
                                       then Pick(n, agents, finishers, picks, ags, k).value else agents[k].goal))
    && (forall k :: i <= k < |agents| ==> ags[k] == agents[k])
    && (forall k :: 0 <= k < i ==> (k in fs <==> k in finishers || Pick(n, agents, finishers, picks, ags, k).Some?))
    && (forall k :: i <= k < |agents| ==> (k in fs <==> k in finishers))
    && (forall x :: x in fs && x !in finishers ==> 0 <= x < i)
    && (rr <==> replan || exists k :: 0 <= k < i && Pick(n, agents, finishers, picks, ags, k).Some?)
  }

  /** Changing entry `i` of the loop's agents leaves the picks of the agents before it unchanged. */
  lemma PickStable(n: nat, agents: seq<Agent>, finishers: set<int>, picks: seq<nat>, ags: seq<Agent>, i: nat, a: Agent)
    requires |ags| == |agents| == |picks| && i < |agents|
    ensures forall k :: 0 <= k < i ==>
      Pick(n, agents, finishers, picks, ags[i := a], k) == Pick(n, agents, finishers, picks, ags, k)
  {
    forall k | 0 <= k < i
      ensures Pick(n, agents, finishers, picks, ags[i := a], k) == Pick(n, agents, finishers, picks, ags, k)
    {
      assert ags[i := a][..k] == ags[..k];
    }
  }

  /** A turn in which agent `i` gets no pick only moves the loop on. */
  lemma ChosenSkipped(n: nat, agents: seq<Agent>, finishers: set<int>, replan: bool, picks: seq<nat>,
                      ags: seq<Agent>, rr: bool, fs: set<int>, i: nat)
    requires ChosenUpTo(n, agents, finishers, replan, picks, ags, rr, fs, i) && i < |agents|
    requires Pick(n, agents, finishers, picks, ags, i).None?
    ensures ChosenUpTo(n, agents, finishers, replan, picks, ags, rr, fs, i + 1)
  {
  }

  /** A turn in which agent `i` gets the pick `g` re-targets it and adds it to the finishers. */
  lemma ChosenPicked(n: nat, agents: seq<Agent>, finishers: set<int>, replan: bool, picks: seq<nat>,
                     ags: seq<Agent>, rr: bool, fs: set<int>, i: nat, g: nat)
    requires ChosenUpTo(n, agents, finishers, replan, picks, ags, rr, fs, i) && i < |agents|
    requires agents[i].id == i && Pick(n, agents, finishers, picks, ags, i) == Some(g)
    ensures ChosenUpTo(n, agents, finishers, replan, picks, ags[i := agents[i].(goal := g)], true, fs + {i}, i + 1)
  {
    var ags' := ags[i := agents[i].(goal := g)];
    PickStable(n, agents, finishers, picks, ags, i, agents[i].(goal := g));
    assert ags'[..i] == ags[..i];
    assert Pick(n, agents, finishers, picks, ags', i) == Some(g);
  }

  /** One turn of the goal loop keeps `ChosenUpTo`, one agent further. */
  method PickOne(w: nat, h: nat, agents: seq<Agent>, replan: bool, finishers: set<int>, picks: seq<nat>,
                 ags0: seq<Agent>, rr0: bool, fs0: set<int>, i: nat)
    returns (ags: seq<Agent>, rr: bool, fs: set<int>)
    requires Placed(w, h, agents) && Placed(w, h, ags0) && i < |agents|
    requires ChosenUpTo(w * h, agents, finishers, replan, picks, ags0, rr0, fs0, i)
    ensures Placed(w, h, ags) && ChosenUpTo(w * h, agents, finishers, replan, picks, ags, rr, fs, i + 1)
  {
    ags, rr, fs := ags0, rr0, fs0;
    var a := ags[i];
    assert ags0[..i] + agents[i..] == ags0;
    assert a == agents[i] && a.id == i;
    if Done(a) && a.id !in fs {
      var g := PickNewGoal(ags, a.id, w * h, picks[i]);
      assert g == Pick(w * h, agents, finishers, picks, ags0, i);
      if g.Some? {
        Retargeted(w, h, ags, i, g.value);
        ChosenPicked(w * h, agents, finishers, replan, picks, ags0, rr0, fs0, i, g.value);
        ags := ags[i := a.(goal := g.value)];
        rr := true;
        fs := fs + {a.id};
      } else {
        ChosenSkipped(w * h, agents, finishers, replan, picks, ags0, rr0, fs0, i);
      }
    } else {
      ChosenSkipped(w * h, agents, finishers, replan, picks, ags0, rr0, fs0, i);
    }
  }

  /** Every goal the loop changes is a cell below `n` on which no agent stands. */
  lemma ChosenUnoccupied(n: nat, agents: seq<Agent>, finishers: set<int>, replan: bool, picks: seq<nat>,
                         ags: seq<Agent>, rr: bool, fs: set<int>)
    requires GoalsChosen(n, agents, finishers, replan, picks, ags, rr, fs)
    ensures forall i :: 0 <= i < |agents| && ags[i].goal != agents[i].goal ==>
      ags[i].goal < n && !Occupied(agents, ags[i].goal)
  {
    forall i | 0 <= i < |agents| && ags[i].goal != agents[i].goal
      ensures ags[i].goal < n && !Occupied(agents, ags[i].goal)
    {
      assert Pick(n, agents, finishers, picks, ags, i).Some?;
      PickedFree(n, agents, finishers, picks, ags, i);
    }
  }

  /** A pick is a cell below `n` on which no agent stands, since the loop moves no agent. */
  lemma PickedFree(n: nat, agents: seq<Agent>, finishers: set<int>, picks: seq<nat>, ags: seq<Agent>, i: nat)
    requires |ags| == |agents| == |picks| && i < |agents|
    requires forall j :: 0 <= j < |agents| ==> ags[j].current == agents[j].current
    requires Pick(n, agents, finishers, picks, ags, i).Some?
    ensures Pick(n, agents, finishers, picks, ags, i).value < n
    ensures !Occupied(agents, Pick(n, agents, finishers, picks, ags, i).value)
  {
    var turn := ags[..i] + agents[i..];
    PickNewGoalSpec(turn, agents[i].id, n, picks[i]);
    SameCells(agents, turn);
  }

  /** Agent lists whose agents stand on the same cells occupy the same cells. */
  lemma SameCells(agents: seq<Agent>, other: seq<Agent>)
    requires |other| == |agents| && forall j :: 0 <= j < |agents| ==> other[j].current == agents[j].current
    ensures forall c :: Occupied(other, c) <==> Occupied(agents, c)
  {
    forall c ensures Occupied(other, c) <==> Occupied(agents, c) {
      if Occupied(other, c) {
        var j :| 0 <= j < |other| && other[j].current == c;
        assert agents[j].current == c;
      }
      if Occupied(agents, c) {
        var j :| 0 <= j < |agents| && agents[j].current == c;
        assert other[j].current == c;
      }
    }
  }

  /** The goal loop of `update` on values; see `TwoController2.ChooseGoals`. */
  method PickGoals(w: nat, h: nat, agents: seq<Agent>, replan: bool, finishers: set<int>, picks: seq<nat>)
    returns (ags: seq<Agent>, rr: bool, fs: set<int>)
    requires Placed(w, h, agents) && |picks| == |agents|
    ensures Placed(w, h, ags) && |ags| == |agents|
    ensures forall i :: 0 <= i < |ags| ==> ags[i] == agents[i].(goal := ags[i].goal)
    ensures forall i :: 0 <= i < |ags| && ags[i].goal != agents[i].goal ==>
      Done(agents[i]) && i !in finishers && i in fs && rr
    ensures replan ==> rr
    ensures forall x :: x in fs && x !in finishers ==> 0 <= x < |agents|
    ensures GoalsChosen(w * h, agents, finishers, replan, picks, ags, rr, fs)
  {
    ags, rr, fs := agents, replan, finishers;
    for i := 0 to |ags|
      invariant Placed(w, h, ags) && ChosenUpTo(w * h, agents, finishers, replan, picks, ags, rr, fs, i)
    {
      ags, rr, fs := PickOne(w, h, agents, replan, finishers, picks, ags, rr, fs, i);
    }
    ChosenChanges(w * h, agents, finishers, replan, picks, ags, rr, fs);
  }

  /**
   * After the whole loop, an agent's goal differs only where it got a pick: it was done and no
   * finisher, and it is one now with a re-plan requested.
   */
  lemma ChosenChanges(n: nat, agents: seq<Agent>, finishers: set<int>, replan: bool, picks: seq<nat>,
                      ags: seq<Agent>, rr: bool, fs: set<int>)
    requires forall i :: 0 <= i < |agents| ==> agents[i].id == i
    requires ChosenUpTo(n, agents, finishers, replan, picks, ags, rr, fs, |agents|)
    ensures GoalsChosen(n, agents, finishers, replan, picks, ags, rr, fs)
    ensures forall i :: 0 <= i < |ags| ==> ags[i] == agents[i].(goal := ags[i].goal)
    ensures forall i :: 0 <= i < |ags| && ags[i].goal != agents[i].goal ==>
      Done(agents[i]) && i !in finishers && i in fs && rr
    ensures replan ==> rr
  {
    forall i | 0 <= i < |ags| && ags[i].goal != agents[i].goal
      ensures Done(agents[i]) && i !in finishers && i in fs && rr
    {
      assert Pick(n, agents, finishers, picks, ags, i).Some?;
      assert Done(agents[i]) && agents[i].id !in finishers;
    }
  }

  /** `mount`'s agents: agent `i` starts on the `i`-th shuffled cell and heads for the `(n+i)`-th. */
  function Mount(w: nat, h: nat, n: nat, shuffled: seq<nat>): (r: seq<Agent>)
    requires 2 * n <= |shuffled|
    requires forall k :: 0 <= k < |shuffled| ==> shuffled[k] < w * h
    requires forall a, b :: 0 <= a < b < |shuffled| ==> shuffled[a] != shuffled[b]
    ensures |r| == n && Placed(w, h, r)
    ensures forall i :: 0 <= i < n ==> r[i].current == shuffled[i] && r[i].goal == shuffled[n + i]
    ensures AllContracted(r)
  {
    seq(n, i requires 0 <= i < n => Agent(i, shuffled[i], None, shuffled[n + i], Contracted))
  }

  function Currents(agents: seq<Agent>): seq<nat>
  {
    seq(|agents|, i requires 0 <= i < |agents| => agents[i].current)
  }

  /** The arming loop of `update`: an agent whose resolved cell differs heads there. */
  function Armed(agents: seq<Agent>, qto: seq<int>): seq<Agent>
    requires |qto| == |agents| && forall i :: 0 <= i < |qto| ==> qto[i] >= 0
  {
    seq(|agents|, i requires 0 <= i < |agents| =>
      if qto[i] != agents[i].current then agents[i].(next := Some(qto[i] as nat), state := Extended) else agents[i])
  }

  /**
   * `PIBT.step` for the controller's agents: the candidates of agent `i` are its cell and its
   * neighbours in the shuffled order `shuffled[i]`, stably sorted by its table; agents are
   * taken by decreasing priority. The result is a safe step onto grid cells.
   */
  method PlanStep(w: nat, h: nat, agents: seq<Agent>, tables: seq<seq<int>>, priorities: seq<real>,
                  shuffled: seq<seq<nat>>) returns (qto: seq<int>)
    requires w > 0 && Placed(w, h, agents) && AllContracted(agents)
    requires |tables| == |agents| && |priorities| == |agents| && Shuffled(w, h, Currents(agents), shuffled)
    ensures ResolverStep.SafeStep(Currents(agents), Nbrs(w, h), qto)
    ensures forall i :: 0 <= i < |qto| ==> 0 <= qto[i] < w * h
  {
    var qfrom := Currents(agents);
    var cands := CandidateLists(w, h, tables, qfrom, shuffled);
    var order := Ordering.ByPriority(priorities);
    PlanInputs(w, h, agents, tables, priorities, shuffled);
    qto := ResolverStep.Step(qfrom, w * h, cands, order, Nbrs(w, h), |agents|);
    SafeStepOnGrid(w, h, qfrom, qto);
  }

  /** What `PlanStep` hands the resolver meets the resolver's demands. */
  lemma PlanInputs(w: nat, h: nat, agents: seq<Agent>, tables: seq<seq<int>>, priorities: seq<real>,
                   shuffled: seq<seq<nat>>)
    requires w > 0 && Placed(w, h, agents) && AllContracted(agents)
    requires |tables| == |agents| && |priorities| == |agents| && Shuffled(w, h, Currents(agents), shuffled)
    ensures ResolverStep.StepInputs(Currents(agents), w * h, CandidateLists(w, h, tables, Currents(agents), shuffled),
                                    Ordering.ByPriority(priorities), Nbrs(w, h), |agents|)
  {
    var qfrom := Currents(agents);
    Ordering.ByPriorityOrder(priorities);
    forall i, j | 0 <= i < j < |qfrom| ensures qfrom[i] != qfrom[j] {
      assert Target(agents[i]) != Target(agents[j]);
    }
  }

  /** A safe step from grid cells lands on grid cells. */
  lemma SafeStepOnGrid(w: nat, h: nat, qfrom: seq<nat>, qto: seq<int>)
    requires w > 0 && forall i :: 0 <= i < |qfrom| ==> qfrom[i] < w * h
    requires ResolverStep.SafeStep(qfrom, Nbrs(w, h), qto)
    ensures forall i :: 0 <= i < |qto| ==> 0 <= qto[i] < w * h
  {
    forall i | 0 <= i < |qto| ensures 0 <= qto[i] < w * h {
      if qto[i] != qfrom[i] { Grid.NeighborListSpec(w, h, {}, qfrom[i], qto[i] as nat); }
    }
  }

  /** The list the shuffle reorders for an agent on `u`: its own cell and its neighbours. */
  function CandidateBase(w: nat, h: nat, u: nat): seq<nat>
    requires w > 0
  {
    [u] + Grid.NeighborList(w, h, {}, u)
  }

  /** `shuffled[i]` is a reordering of agent `i`'s candidate base. */
  ghost predicate Shuffled(w: nat, h: nat, qfrom: seq<nat>, shuffled: seq<seq<nat>>)
    requires w > 0
  {
    |shuffled| == |qfrom| && forall i :: 0 <= i < |qfrom| ==> multiset(shuffled[i]) == multiset(CandidateBase(w, h, qfrom[i]))
  }

  /** Every agent's candidate list. */
  function CandidateLists(w: nat, h: nat, tables: seq<seq<int>>, qfrom: seq<nat>, shuffled: seq<seq<nat>>): (r: seq<seq<nat>>)
    requires w > 0 && |tables| == |qfrom| && forall i :: 0 <= i < |qfrom| ==> qfrom[i] < w * h
    requires Shuffled(w, h, qfrom, shuffled)
    ensures |r| == |qfrom|
    ensures forall i, v :: 0 <= i < |qfrom| && v in r[i] ==> v < w * h && (v == qfrom[i] || v in Nbrs(w, h)(qfrom[i]))
  {
    var r := seq(|qfrom|, i requires 0 <= i < |qfrom| => Candidates(w, h, tables[i], shuffled[i]));
    assert forall i, v :: 0 <= i < |qfrom| && v in r[i] ==> v < w * h && (v == qfrom[i] || v in Nbrs(w, h)(qfrom[i])) by {
      forall i, v | 0 <= i < |qfrom| && v in r[i]
        ensures v < w * h && (v == qfrom[i] || v in Nbrs(w, h)(qfrom[i]))
      {
        CandidatesCells(w, h, tables[i], qfrom[i], shuffled[i]);
      }
    }
    r
  }

  /** Arming contracted agents along a safe step keeps every target distinct and on the grid. */
  lemma ArmedPlaced(w: nat, h: nat, agents: seq<Agent>, qto: seq<int>)
    requires Placed(w, h, agents) && AllContracted(agents)
    requires ResolverStep.SafeStep(Currents(agents), Nbrs(w, h), qto)
    requires forall i :: 0 <= i < |qto| ==> 0 <= qto[i] < w * h
    ensures Placed(w, h, Armed(agents, qto))
    ensures forall i :: 0 <= i < |qto| ==> Target(Armed(agents, qto)[i]) == qto[i]
  {
  }

  /** The arming loop, in place over the agent list. */
  method ArmEach(agents: seq<Agent>, qto: seq<int>) returns (r: seq<Agent>)
    requires |qto| == |agents| && forall i :: 0 <= i < |qto| ==> qto[i] >= 0
    ensures r == Armed(agents, qto)
  {
    r := agents;
    for i := 0 to |r|
      invariant |r| == |agents|
      invariant forall k :: 0 <= k < i ==> r[k] == Armed(agents, qto)[k]
      invariant forall k :: i <= k < |r| ==> r[k] == agents[k]
    {
      if qto[i] != r[i].current {
        r := r[i := r[i].(next := Some(qto[i] as nat), state := Extended)];
      }
    }
  }

  /** The priority loop of `update`. */
  method BumpEach(priorities: seq<real>, qto: seq<int>, agents: seq<Agent>) returns (r: seq<real>)
    requires |qto| == |priorities| == |agents|
    ensures |r| == |priorities|
    ensures forall i :: 0 <= i < |r| ==> r[i] == Bump(priorities[i], qto[i] == agents[i].goal)
  {
    r := priorities;
    for i := 0 to |r|
      invariant |r| == |priorities|
      invariant forall k :: 0 <= k < i ==> r[k] == Bump(priorities[k], qto[k] == agents[k].goal)
      invariant forall k :: i <= k < |r| ==> r[k] == priorities[k]
    {
      if qto[i] != agents[i].goal {
        r := r[i := r[i] + 1.0];
      } else {
        r := r[i := r[i] - r[i].Floor as real];
      }
    }
  }

  /** Arrivals keep every target, so the agents stay placed. */
  lemma ArrivePlaced(w: nat, h: nat, agents: seq<Agent>, arrived: seq<bool>)
    requires Placed(w, h, agents) && |arrived| == |agents|
    ensures Placed(w, h, ArriveEach(agents, arrived))
  {
  }

  /** Agents that differ only in their goals stand on the same cells and are contracted alike. */
  lemma GoalsOnly(agents: seq<Agent>, ags: seq<Agent>)
    requires |ags| == |agents| && forall i :: 0 <= i < |ags| ==> ags[i] == agents[i].(goal := ags[i].goal)
    ensures Currents(ags) == Currents(agents)
    ensures AllContracted(ags) <==> AllContracted(agents)
  {
    assert forall i :: 0 <= i < |ags| ==> ags[i].state == agents[i].state;
  }

  /** The controller: a `w`×`h` grid, its agents, the resolver's distance tables and the priorities. */
  class TwoController2 {
    const w: nat
    const h: nat
    var agents: seq<Agent>
    var tables: seq<seq<int>>
    var priorities: seq<real>
    var replanRequested: bool
    var finishers: set<int>

    ghost predicate Valid()
      reads this
    {
      w > 0 && |tables| == |agents| && |priorities| == |agents| && Placed(w, h, agents)
      && forall i :: 0 <= i < |agents| ==> |tables[i]| == w * h
    }

    /**
     * `mount`: the first `n` cells of a shuffle of all cells are the starts, the next `n`
     * the goals; one distance table per goal, and priority `dist(start)/(w*h)`.
     */
    constructor (width: nat, height: nat, n: nat, shuffled: seq<nat>)
      requires width > 0 && 2 * n <= width * height
      requires |shuffled| == width * height
      requires forall k :: 0 <= k < |shuffled| ==> shuffled[k] < width * height
      requires forall a, b :: 0 <= a < b < |shuffled| ==> shuffled[a] != shuffled[b]
      ensures Valid() && w == width && h == height && !replanRequested && finishers == {}
      ensures agents == Mount(width, height, n, shuffled)
      ensures forall i :: 0 <= i < n ==>
        DistTables.IsDistanceTable(tables[i], DistTables.GridNeighbors(w, h), shuffled[n + i], w * h)
      ensures forall i :: 0 <= i < n ==> priorities[i] == Share(tables[i][shuffled[i]], w * h)
    {
      w, h := width, height;
      agents := Mount(width, height, n, shuffled);
      replanRequested, finishers := false, {};
      tables, priorities := [], [];
      new;
      Replan();
    }

    /** Builds one distance table per agent goal and the priorities `dist(current)/(w*h)`. */
    method Replan()
      requires w > 0 && forall i :: 0 <= i < |agents| ==> agents[i].goal < w * h && agents[i].current < w * h
      modifies this`tables, this`priorities
      ensures |tables| == |agents| && |priorities| == |agents|
      ensures forall i :: 0 <= i < |agents| ==>
        |tables[i]| == w * h && DistTables.IsDistanceTable(tables[i], DistTables.GridNeighbors(w, h), agents[i].goal, w * h)
      ensures forall i :: 0 <= i < |agents| ==> priorities[i] == Share(tables[i][agents[i].current], w * h)
    {
      var ags := agents;
      var ts := BuildTables(w, h, seq(|ags|, i requires 0 <= i < |ags| => ags[i].goal));
      tables := ts;
      priorities := seq(|ags|, i requires 0 <= i < |ags| => Share(ts[i][ags[i].current], w * h));
    }

    /** `performReplan`: fresh tables and priorities from the current cells and goals; the request and the finishers are cleared. */
    method PerformReplan()
      requires Valid()
      modifies this`tables, this`priorities, this`replanRequested, this`finishers
      ensures Valid() && !replanRequested && finishers == {}
      ensures forall i :: 0 <= i < |agents| ==>
        DistTables.IsDistanceTable(tables[i], DistTables.GridNeighbors(w, h), agents[i].goal, w * h)
      ensures forall i :: 0 <= i < |agents| ==> priorities[i] == Share(tables[i][agents[i].current], w * h)
    {
      Replan();
      replanRequested := false;
      finishers := {};
    }

    /**
     * The goal loop of `update`: each done agent not yet among the finishers gets
     * `pickNewGoal` (with shuffle choice `picks[i]`); when it gets one, a re-plan is requested
     * and the agent becomes a finisher.
     */
    method ChooseGoals(picks: seq<nat>)
      requires Valid() && |picks| == |agents|
      modifies this`agents, this`replanRequested, this`finishers
      ensures Valid() && |agents| == |old(agents)|
      ensures forall i :: 0 <= i < |agents| ==>
        agents[i] == old(agents[i]).(goal := agents[i].goal)
      ensures forall i :: 0 <= i < |agents| && agents[i].goal != old(agents[i].goal) ==>
        Done(old(agents[i])) && i !in old(finishers) && i in finishers && replanRequested
      ensures old(replanRequested) ==> replanRequested
      ensures forall x :: x in finishers && x !in old(finishers) ==> 0 <= x < |agents|
      ensures GoalsChosen(w * h, old(agents), old(finishers), old(replanRequested), picks, agents, replanRequested, finishers)
    {
      agents, replanRequested, finishers := PickGoals(w, h, agents, replanRequested, finishers, picks);
    }

    /**
     * One resolver call and what follows it in `update`: the agents whose resolved cell
     * differs are armed, and each priority grows by one or keeps its fractional part.
     * `shuffled[i]` is the order the random shuffle gives agent `i`'s cell and neighbours.
     */
    method StepAndBump(shuffled: seq<seq<nat>>) returns (qto: seq<int>)
      requires Valid() && AllContracted(agents) && Shuffled(w, h, Currents(agents), shuffled)
      modifies this`agents, this`priorities
      ensures Valid() && |qto| == |agents| && |agents| == |old(agents)|
      ensures ResolverStep.SafeStep(Currents(old(agents)), Nbrs(w, h), qto)
      ensures agents == Armed(old(agents), qto)
      ensures forall i :: 0 <= i < |agents| ==> Target(agents[i]) == qto[i] && agents[i].current == old(agents[i]).current
      ensures forall i :: 0 <= i < |agents| ==> priorities[i] == Bump(old(priorities[i]), qto[i] == agents[i].goal)
    {
      var ags, ps := agents, priorities;
      qto := PlanStep(w, h, ags, tables, ps, shuffled);
      ArmedPlaced(w, h, ags, qto);
      ags := ArmEach(ags, qto);
      ps := BumpEach(ps, qto, ags);
      agents, priorities := ags, ps;
    }

    /**
     * `update`: arrivals, new goals for agents that finished, a re-plan once requested and
     * every agent is contracted, and then, with every agent contracted, one resolver step.
     * `arrived[i]` says whether agent `i` reached its next cell during this frame.
     */
    /**
     * What `update` leaves after the goal loop produced `chosen`, `rr` and `fs`: when a re-plan
     * was requested and every agent is contracted, fresh tables for the chosen goals, no request
     * and no finishers, otherwise the request, finishers and tables as they were; a plan exactly
     * when every agent is contracted, and then a safe step along which the agents are armed and
     * every priority, as it stood after any re-plan, is bumped; otherwise the chosen agents and
     * the old priorities.
     */
    ghost predicate Stepped(chosen: seq<Agent>, rr: bool, fs: set<int>, priorities0: seq<real>,
                            tables0: seq<seq<int>>, plan: Option<seq<int>>)
      reads this
    {
      var replanned := rr && AllContracted(chosen);
      |agents| == |chosen| == |priorities| == |priorities0| == |tables|
      && (replanned ==>
            !replanRequested && finishers == {}
            && forall i :: 0 <= i < |agents| ==>
                 DistTables.IsDistanceTable(tables[i], DistTables.GridNeighbors(w, h), chosen[i].goal, w * h))
      && (!replanned ==> replanRequested == rr && finishers == fs && tables == tables0)
      && (plan.Some? <==> AllContracted(chosen))
      && (plan.Some? ==>
            ResolverStep.SafeStep(Currents(chosen), Nbrs(w, h), plan.value)
            && (forall i :: 0 <= i < |agents| ==> plan.value[i] >= 0)
            && agents == Armed(chosen, plan.value)
            && forall i :: 0 <= i < |agents| ==>
                 |tables[i]| == w * h && chosen[i].current < w * h &&
                 priorities[i] == Bump(if replanned then Share(tables[i][chosen[i].current], w * h) else priorities0[i],
                                       plan.value[i] == agents[i].goal))
      && (plan.None? ==> agents == chosen && priorities == priorities0)
    }

    method Update(arrived: seq<bool>, picks: seq<nat>, shuffled: seq<seq<nat>>)
      returns (plan: Option<seq<int>>, ghost chosen: seq<Agent>, ghost rr: bool, ghost fs: set<int>)
      requires Valid() && |arrived| == |agents| && |picks| == |agents|
      requires Shuffled(w, h, Currents(ArriveEach(agents, arrived)), shuffled)
      modifies this
      ensures GoalsChosen(w * h, ArriveEach(old(agents), arrived), old(finishers), old(replanRequested), picks, chosen, rr, fs)
      ensures Stepped(chosen, rr, fs, old(priorities), old(tables), plan)
      ensures Valid() && |agents| == |old(agents)|
      ensures var mid := ArriveEach(old(agents), arrived);
        && (plan.Some? <==> AllContracted(mid))
        && (plan.None? ==> forall i :: 0 <= i < |agents| ==> agents[i] == mid[i].(goal := agents[i].goal))
        && (plan.Some? ==>
              ResolverStep.SafeStep(Currents(mid), Nbrs(w, h), plan.value)
              && (forall i :: 0 <= i < |agents| ==> Target(agents[i]) == plan.value[i] && agents[i].current == mid[i].current)
              && !replanRequested)
      ensures forall i :: 0 <= i < |agents| && agents[i].goal != old(agents[i].goal) ==>
        Done(ArriveEach(old(agents), arrived)[i])
    {
      ghost var mid := ArriveAndChoose(arrived, picks);
      chosen, rr, fs := agents, replanRequested, finishers;
      plan := Settle(shuffled, mid);
    }

    /** The start of `update`: every agent's arrival step (giving `mid`), then the goal loop. */
    method ArriveAndChoose(arrived: seq<bool>, picks: seq<nat>) returns (ghost mid: seq<Agent>)
      requires Valid() && |arrived| == |agents| && |picks| == |agents|
      modifies this`agents, this`replanRequested, this`finishers
      ensures Valid() && mid == ArriveEach(old(agents), arrived)
      ensures GoalsChosen(w * h, mid, old(finishers), old(replanRequested), picks, agents, replanRequested, finishers)
      ensures |mid| == |agents| && forall i :: 0 <= i < |agents| ==> agents[i] == mid[i].(goal := agents[i].goal)
      ensures Currents(agents) == Currents(mid) && (AllContracted(agents) <==> AllContracted(mid))
      ensures forall i :: 0 <= i < |agents| && agents[i].goal != old(agents)[i].goal ==> Done(mid[i])
    {
      ArrivePlaced(w, h, agents, arrived);
      agents := ArriveEach(agents, arrived);
      mid := agents;
      ChooseGoals(picks);
      GoalsOnly(mid, agents);
    }

    /** The end of `update`: a re-plan once requested and every agent is contracted, then one resolver step. */
    method Settle(shuffled: seq<seq<nat>>, ghost mid: seq<Agent>) returns (plan: Option<seq<int>>)
      requires Valid() && Shuffled(w, h, Currents(agents), shuffled)
      requires |mid| == |agents| && forall i :: 0 <= i < |agents| ==> agents[i] == mid[i].(goal := agents[i].goal)
      requires Currents(agents) == Currents(mid) && (AllContracted(agents) <==> AllContracted(mid))
      modifies this`agents, this`tables, this`priorities, this`replanRequested, this`finishers
      ensures Valid() && |agents| == |old(agents)|
      ensures Stepped(old(agents), old(replanRequested), old(finishers), old(priorities), old(tables), plan)
      ensures forall i :: 0 <= i < |agents| ==> agents[i].goal == old(agents)[i].goal
      ensures (plan.Some? <==> AllContracted(mid))
        && (plan.None? ==> forall i :: 0 <= i < |agents| ==> agents[i] == mid[i].(goal := agents[i].goal))
        && (plan.Some? ==>
              ResolverStep.SafeStep(Currents(mid), Nbrs(w, h), plan.value)
              && (forall i :: 0 <= i < |agents| ==> Target(agents[i]) == plan.value[i] && agents[i].current == mid[i].current)
              && !replanRequested)
    {
      if replanRequested && AllContracted(agents) {
        PerformReplan();
      }
      if AllContracted(agents) {
        var qto := StepAndBump(shuffled);
        plan := Some(qto);
      } else {
        plan := None;
      }
    }
  }
}
