/**
 * The map-based PIBT of the MAPD step: cells, their text keys, the walkable neighbourhood,
 * the agents' targets and priorities, and the per-candidate decision of one `pibt` call.
 * Agents are numbered by their position in the agent list (ids are distinct), so the plan
 * and the current-position table are keyed by that number.
 */
module PibtMaps {
  import opened Wrappers
  import opened Decimal
  import Ordering

  datatype Vec = Vec(x: int, y: int)

  /** `k`: the text key `x,y` of a cell. */
  function K(p: Vec): string
  {
    IntToString(p.x) + "," + IntToString(p.y)
  }

  /** What `v` reads back: the first part as a number and the second, when there is one. */
  datatype Decoded = Decoded(x: Number, y: Option<Number>)

  /** `v`: split on `,` and read the first two parts as numbers. */
  function V(s: string): Decoded
  {
    var parts := Split(s, ',');
    Decoded(JsNumber(parts[0]), if |parts| >= 2 then Some(JsNumber(parts[1])) else None)
  }

  /** Reading back the key of a cell gives the cell. */
  lemma KeyRoundTrip(p: Vec)
    ensures V(K(p)) == Decoded(Num(p.x), Some(Num(p.y)))
  {
    var X, Y := IntToString(p.x), IntToString(p.y);
    assert [X, Y][1..] == [Y];
    assert K(p) == Join([X, Y], ',');
    SplitJoin([X, Y], ',');
    IntRoundTrip(p.x);
    IntRoundTrip(p.y);
  }

  /** Two cells share a key iff they are the same cell, so a key table is a table of cells. */
  lemma KeyInjective(p: Vec, q: Vec)
    ensures K(p) == K(q) <==> p == q
  {
    if K(p) == K(q) {
      KeyRoundTrip(p);
      KeyRoundTrip(q);
    }
  }

  datatype Grid = Grid(width: int, height: int, blocked: set<string>)

  predicate Inb(g: Grid, p: Vec)
  {
    p.x >= 0 && p.y >= 0 && p.x < g.width && p.y < g.height
  }

  /** In bounds and not blocked; blocked cells are listed by key. */
  predicate Walkable(g: Grid, p: Vec)
  {
    Inb(g, p) && K(p) !in g.blocked
  }

  function Abs(n: int): nat
  {
    if n < 0 then -n else n
  }

  function Manhattan(a: Vec, b: Vec): (r: nat)
    ensures r == 0 <==> a == b
  {
    Abs(a.x - b.x) + Abs(a.y - b.y)
  }

  /** The walkable cells of `qs`, in order. */
  function Walkables(g: Grid, qs: seq<Vec>): (r: seq<Vec>)
    ensures forall q :: q in r <==> q in qs && Walkable(g, q)
    ensures |r| <= |qs|
  {
    if qs == [] then []
    else (if Walkable(g, qs[0]) then [qs[0]] else []) + Walkables(g, qs[1..])
  }

  /** The four side neighbours of `p`, in the order +x, -x, +y, -y. */
  function Sides(p: Vec): seq<Vec>
  {
    [Vec(p.x + 1, p.y), Vec(p.x - 1, p.y), Vec(p.x, p.y + 1), Vec(p.x, p.y - 1)]
  }

  /** `neigh`: the walkable side neighbours, then the cell itself (walkable or not). */
  function Neigh(g: Grid, p: Vec): (r: seq<Vec>)
    ensures 1 <= |r| <= 5 && r[|r| - 1] == p
  {
    Walkables(g, Sides(p)) + [p]
  }

  /** A cell is offered iff it is the cell itself or a walkable cell one step away. */
  lemma NeighSpec(g: Grid, p: Vec, q: Vec)
    ensures q in Neigh(g, p) <==> q == p || (Walkable(g, q) && Manhattan(p, q) == 1)
  {
    assert q in Neigh(g, p) <==> q == p || q in Walkables(g, Sides(p));
    if Manhattan(p, q) == 1 {
      assert q in Sides(p);
    }
  }

  datatype Mode = Free | ToPickup | Carrying

  datatype Task = Task(id: int, pickup: Vec, delivery: Vec, assignedTo: Option<int>, picked: bool, done: bool)

  datatype Agent = Agent(id: int, pos: Vec, mode: Mode, taskId: Option<int>)

  /** The entry a `Map` built from the task list holds for `id`: the last task with that id. */
  function TaskOf(tasks: seq<Task>, id: int): (r: Option<nat>)
    ensures r.Some? ==> (r.value < |tasks| && tasks[r.value].id == id
                         && forall j :: r.value < j < |tasks| ==> tasks[j].id != id)
    ensures r.None? <==> forall j :: 0 <= j < |tasks| ==> tasks[j].id != id
  {
    if tasks == [] then None
    else if tasks[|tasks| - 1].id == id then Some(|tasks| - 1)
    else TaskOf(tasks[..|tasks| - 1], id)
  }

  /** An agent that is under way names a stored task, so `tasks.get(a.taskId)!` finds one. */
  predicate Known(a: Agent, tasks: seq<Task>)
  {
    a.mode != Free && a.taskId.Some? ==> TaskOf(tasks, a.taskId.value).Some?
  }

  /** `targetOf`: the delivery while carrying, the pickup on the way to it, else the cell it is on. */
  function TargetOf(a: Agent, tasks: seq<Task>): (r: Vec)
    requires Known(a, tasks)
    ensures a.mode == Free || a.taskId.None? ==> r == a.pos
    ensures a.mode == Carrying && a.taskId.Some? ==> r == tasks[TaskOf(tasks, a.taskId.value).value].delivery
    ensures a.mode == ToPickup && a.taskId.Some? ==> r == tasks[TaskOf(tasks, a.taskId.value).value].pickup
  {
    if a.mode == Carrying && a.taskId.Some? then tasks[TaskOf(tasks, a.taskId.value).value].delivery
    else if a.mode == ToPickup && a.taskId.Some? then tasks[TaskOf(tasks, a.taskId.value).value].pickup
    else a.pos
  }

  datatype Prio = Prio(tier: int, eta: int, id: int)

  /** `priority`: tier 3 carrying, 2 on the way to a pickup, 1 free; eta the distance to the target. */
  function Priority(a: Agent, tasks: seq<Task>): (r: Prio)
    requires Known(a, tasks)
    ensures r.tier == 3 <==> a.mode == Carrying
    ensures r.tier == 2 <==> a.mode == ToPickup
    ensures r.tier == 1 <==> a.mode == Free
    ensures r.eta >= 0 && (r.eta == 0 <==> a.pos == TargetOf(a, tasks)) && r.id == a.id
  {
    var tier := if a.mode == Carrying then 3 else if a.mode == ToPickup then 2 else 1;
    Prio(tier, Manhattan(a.pos, TargetOf(a, tasks)), a.id)
  }

  /** The push test of `pibt`: higher tier, then smaller eta, then smaller id. */
  predicate Higher(p: Prio, q: Prio)
  {
    p.tier > q.tier || (p.tier == q.tier && (p.eta < q.eta || (p.eta == q.eta && p.id < q.id)))
  }

  /** `Higher` is a strict total order on priorities. */
  lemma HigherOrder(p: Prio, q: Prio, s: Prio)
    ensures !Higher(p, p)
    ensures Higher(p, q) ==> !Higher(q, p)
    ensures p != q ==> Higher(p, q) || Higher(q, p)
    ensures Higher(p, q) && Higher(q, s) ==> Higher(p, s)
  {
  }

  /** `cmpAgents`: negative iff `a` goes first, zero iff the priorities agree. */
  function CmpAgents(a: Agent, b: Agent, tasks: seq<Task>): (r: int)
    requires Known(a, tasks) && Known(b, tasks)
    ensures r < 0 <==> Higher(Priority(a, tasks), Priority(b, tasks))
    ensures r > 0 <==> Higher(Priority(b, tasks), Priority(a, tasks))
    ensures r == 0 <==> Priority(a, tasks) == Priority(b, tasks)
  {
    var pa, pb := Priority(a, tasks), Priority(b, tasks);
    if pa.tier != pb.tier then pb.tier - pa.tier
    else if pa.eta != pb.eta then pa.eta - pb.eta
    else pa.id - pb.id
  }

  /** The sort key of `chooseOrder`: distance to the goal. */
  function GoalKey(goal: Vec): Vec -> real
  {
    q => Manhattan(q, goal) as real
  }

  /** `chooseOrder`: the offered cells, stably sorted by distance to the goal. */
  function ChooseOrder(g: Grid, cur: Vec, goal: Vec): (r: seq<Vec>)
    ensures multiset(r) == multiset(Neigh(g, cur))
  {
    Ordering.SortBy(Neigh(g, cur), GoalKey(goal))
  }

  /** The offered cells come nearest to the goal first, and each is the cell itself or a walkable step. */
  lemma ChooseOrderSpec(g: Grid, cur: Vec, goal: Vec)
    ensures forall i, j :: 0 <= i < j < |ChooseOrder(g, cur, goal)| ==>
      Manhattan(ChooseOrder(g, cur, goal)[i], goal) <= Manhattan(ChooseOrder(g, cur, goal)[j], goal)
    ensures forall q :: q in ChooseOrder(g, cur, goal) <==> q == cur || (Walkable(g, q) && Manhattan(cur, q) == 1)
  {
    Ordering.SortBySorted(Neigh(g, cur), GoalKey(goal));
    forall q ensures q in ChooseOrder(g, cur, goal) <==> q == cur || (Walkable(g, q) && Manhattan(cur, q) == 1) {
      assert q in ChooseOrder(g, cur, goal) <==> q in multiset(Neigh(g, cur));
      NeighSpec(g, cur, q);
    }
  }

  /**
   * `swap`: some planned agent moves from `a` to `b` or from `b` to `a`, so a move between
   * them would cross it.
   */
  predicate Swap(a: Vec, b: Vec, plan: map<nat, Vec>, agents: seq<Agent>)
  {
    exists id :: id in plan && id < |agents| &&
      ((agents[id].pos == a && plan[id] == b) || (agents[id].pos == b && plan[id] == a))
  }

  /** `occupantAt`: the first agent standing on `c`, if any. */
  function OccupantAt(c: Vec, agents: seq<Agent>): (r: Option<nat>)
    ensures r.Some? ==> (r.value < |agents| && agents[r.value].pos == c
                         && forall j :: 0 <= j < r.value ==> agents[j].pos != c)
    ensures r.None? <==> forall j :: 0 <= j < |agents| ==> agents[j].pos != c
  {
    if agents == [] then None
    else if agents[0].pos == c then Some(0)
    else
      var r := OccupantAt(c, agents[1..]);
      if r.None? then None else Some(r.value + 1)
  }

  /** No two agents stand on the same cell. */
  predicate Spread(agents: seq<Agent>)
  {
    forall i, j :: 0 <= i < j < |agents| ==> agents[i].pos != agents[j].pos
  }

  /** On a spread fleet the occupant of an agent's cell is that agent. */
  lemma OccupantOfOwnCell(agents: seq<Agent>, i: nat)
    requires Spread(agents) && i < |agents|
    ensures OccupantAt(agents[i].pos, agents) == Some(i)
  {
  }

  /** What `pibt` does with one candidate cell. */
  datatype Decision = Skip | Take | Push(occupant: nat)

  /**
   * The tests of one candidate `c` for agent `aid`: skip a cell already planned or one that
   * would cross a planned move; take a free cell or one whose occupant has a plan; push an
   * unplanned occupant of strictly lower priority; skip otherwise.
   */
  function Verdict(aid: nat, c: Vec, agents: seq<Agent>, tasks: seq<Task>, plan: map<nat, Vec>): (r: Decision)
    requires aid < |agents| && forall i :: 0 <= i < |agents| ==> Known(agents[i], tasks)
    ensures r.Skip? <==> (c in plan.Values || Swap(agents[aid].pos, c, plan, agents)
                          || (OccupantAt(c, agents).Some? && OccupantAt(c, agents).value !in plan
                              && !Higher(Priority(agents[aid], tasks), Priority(agents[OccupantAt(c, agents).value], tasks))))
    ensures r.Take? <==> (c !in plan.Values && !Swap(agents[aid].pos, c, plan, agents)
                          && (OccupantAt(c, agents).None? || OccupantAt(c, agents).value in plan))
    ensures r.Push? ==> (r.occupant < |agents| && r.occupant !in plan && OccupantAt(c, agents) == Some(r.occupant)
                         && Higher(Priority(agents[aid], tasks), Priority(agents[r.occupant], tasks)))
  {
    if c in plan.Values then Skip
    else if Swap(agents[aid].pos, c, plan, agents) then Skip
    else match OccupantAt(c, agents)
      case None => Take
      case Some(o) =>
        if o in plan then Take
        else if Higher(Priority(agents[aid], tasks), Priority(agents[o], tasks)) then Push(o)
        else Skip
  }
}
