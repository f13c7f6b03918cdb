/**
 * The pickup-and-delivery game of `MapdGame` (and its duplicate `TwoControllerMapd`):
 * tasks, agents with a mode (free, to_pickup, carrying) and a motion state (contracted at a
 * cell, extended towards `next`), the per-tick task lifecycle and the arming of agents with
 * the targets of one PIBT step. Agents and tasks are records held in two sequences of the game.
 */
module Mapd {
  import opened Wrappers
  import Grid
  import Ordering
  import Resolver
  import ResolverStep

  datatype Mode = Free | ToPickup | Carrying
  datatype Motion = Contracted | Extended

  /** A task; `assignedTo` absent or `null` is `None`, absent `picked`/`done` are `false`. */
  datatype Task = Task(id: int, pickup: nat, delivery: nat, assignedTo: Option<int>, picked: bool, done: bool)

  datatype Agent = Agent(id: int, current: nat, next: Option<nat>, state: Motion, mode: Mode, taskId: Option<int>)

  /** The resolver's `NIL` (1e9). */
  const NIL: int := 1000000000

  /** Manhattan distance between the positions of two cells. */
  function Manhattan(w: nat, u: nat, v: nat): nat
    requires w > 0
  {
    Grid.Abs(Grid.Xy(w, u).0 - Grid.Xy(w, v).0) + Grid.Abs(Grid.Xy(w, u).1 - Grid.Xy(w, v).1)
  }

  /** `tasks.find(t => t.id === id)`: the first task carrying that id. */
  function FindTask(tasks: seq<Task>, id: int): (r: Option<nat>)
    ensures r.Some? ==> r.value < |tasks| && tasks[r.value].id == id
    ensures r.Some? ==> forall j :: 0 <= j < r.value ==> tasks[j].id != id
    ensures r.None? ==> forall j :: 0 <= j < |tasks| ==> tasks[j].id != id
  {
    if tasks == [] then None
    else if tasks[0].id == id then Some(0)
    else match FindTask(tasks[1..], id)
      case None => None
      case Some(k) => Some(k + 1)
  }

  /** Two task lists with the same ids in the same places find the same index. */
  lemma {:induction false} FindTaskSameIds(a: seq<Task>, b: seq<Task>, id: int)
    requires |a| == |b| && forall k :: 0 <= k < |a| ==> a[k].id == b[k].id
    ensures FindTask(a, id) == FindTask(b, id)
  {
    if a != [] && a[0].id != id {
      FindTaskSameIds(a[1..], b[1..], id);
    }
  }

  /** `!t.assignedTo`: absent, `null` and agent id 0 all count as unassigned. */
  predicate LooksUnassigned(t: Task)
  {
    t.assignedTo.None? || t.assignedTo.value == 0
  }

  predicate IsAvailable(t: Task)
  {
    !t.done && LooksUnassigned(t)
  }

  /** `tasks.filter(t => !t.done && !t.assignedTo)`, as indices in list order. */
  function Available(tasks: seq<Task>): (r: seq<nat>)
    ensures forall a :: 0 <= a < |r| ==> r[a] < |tasks|
    ensures forall k :: 0 <= k < |tasks| ==> (k in r <==> IsAvailable(tasks[k]))
    ensures forall a, b :: 0 <= a < b < |r| ==> r[a] < r[b]
  {
    if tasks == [] then []
    else
      var rest := Available(tasks[..|tasks| - 1]);
      if IsAvailable(tasks[|tasks| - 1]) then rest + [|tasks| - 1] else rest
  }

  /** The ordering key of task `k`: the distance from `at` to its pickup cell. */
  function PickupDistance(w: nat, tasks: seq<Task>, at: nat): nat -> real
    requires w > 0
  {
    (k: nat) => if k < |tasks| then Manhattan(w, tasks[k].pickup, at) as real else 0.0
  }

  /** The task a free agent at `at` takes: the first available task after a stable sort by distance to its pickup. */
  function ChooseTask(w: nat, tasks: seq<Task>, at: nat): Option<nat>
    requires w > 0
  {
    var avail := Available(tasks);
    if avail == [] then None
    else
      var sorted := Ordering.SortBy(avail, PickupDistance(w, tasks, at));
      Ordering.SortBySorted(avail, PickupDistance(w, tasks, at));
      assert sorted[0] in multiset(avail);
      Some(sorted[0])
  }

  /**
   * No task is chosen iff none is available; otherwise the chosen task is available, its
   * pickup is nearest among the available ones, and every available task before it in the
   * list is strictly further away (ties go to the earlier task).
   */
  lemma ChooseTaskSpec(w: nat, tasks: seq<Task>, at: nat)
    requires w > 0
    ensures ChooseTask(w, tasks, at).None? <==> forall k :: 0 <= k < |tasks| ==> !IsAvailable(tasks[k])
    ensures ChooseTask(w, tasks, at).Some? ==>
      var c := ChooseTask(w, tasks, at).value;
      c < |tasks| && IsAvailable(tasks[c]) &&
      (forall k :: 0 <= k < |tasks| && IsAvailable(tasks[k]) ==>
         Manhattan(w, tasks[c].pickup, at) <= Manhattan(w, tasks[k].pickup, at)) &&
      (forall k :: 0 <= k < c && IsAvailable(tasks[k]) ==>
         Manhattan(w, tasks[c].pickup, at) < Manhattan(w, tasks[k].pickup, at))
  {
    var avail := Available(tasks);
    if avail != [] {
      assert avail[0] in avail;
      Ordering.SortByHead(avail, PickupDistance(w, tasks, at));
      Nearest(w, tasks, at);
    }
  }

  /** The first minimal available task by pickup distance is no further than any available task. */
  lemma Nearest(w: nat, tasks: seq<Task>, at: nat)
    requires w > 0 && Available(tasks) != []
    ensures var avail := Available(tasks);
      var c := avail[Ordering.FirstMinimal(avail, PickupDistance(w, tasks, at))];
      c < |tasks| && IsAvailable(tasks[c]) &&
      forall k :: 0 <= k < |tasks| && IsAvailable(tasks[k]) ==>
        Manhattan(w, tasks[c].pickup, at) <= Manhattan(w, tasks[k].pickup, at) &&
        (k < c ==> Manhattan(w, tasks[c].pickup, at) < Manhattan(w, tasks[k].pickup, at))
  {
    var avail := Available(tasks);
    var key := PickupDistance(w, tasks, at);
    var c := avail[Ordering.FirstMinimal(avail, key)];
    forall k | 0 <= k < |tasks| && IsAvailable(tasks[k])
      ensures Manhattan(w, tasks[c].pickup, at) <= Manhattan(w, tasks[k].pickup, at)
      ensures k < c ==> Manhattan(w, tasks[c].pickup, at) < Manhattan(w, tasks[k].pickup, at)
    {
      Ordering.FirstMinimalBelow(avail, key, k);
    }
  }

  /** The cell an agent occupies or is bound for: `next` while extended, `current` otherwise. */
  function Target(a: Agent): nat
  {
    if a.next.Some? then a.next.value else a.current
  }

  ghost predicate TargetsDistinct(agents: seq<Agent>)
  {
    forall i, j :: 0 <= i < j < |agents| ==> Target(agents[i]) != Target(agents[j])
  }

  /** What one agent's fields guarantee about the task list. */
  ghost predicate AgentOk(w: nat, h: nat, tasks: seq<Task>, a: Agent)
  {
    a.current < w * h
    && (a.state == Extended <==> a.next.Some?)
    && (a.next.Some? ==> a.next.value < w * h)
    && (a.mode == Free <==> a.taskId.None?)
    && (a.taskId.Some? ==> FindTask(tasks, a.taskId.value).Some?)
  }

  /**
   * The game invariant: fields agree with each other, task cells lie on the grid, and no two
   * agents occupy or head for the same cell.
   */
  ghost predicate Consistent(w: nat, h: nat, agents: seq<Agent>, tasks: seq<Task>)
  {
    w > 0 && |agents| < NIL
    && (forall i :: 0 <= i < |agents| ==> AgentOk(w, h, tasks, agents[i]))
    && (forall k :: 0 <= k < |tasks| ==> tasks[k].pickup < w * h && tasks[k].delivery < w * h)
    && TargetsDistinct(agents)
  }

  /** Ids, cells and the picked/done flags only move forward from `a` to `b`. */
  ghost predicate TasksForward(a: seq<Task>, b: seq<Task>)
  {
    |a| == |b| && forall k :: 0 <= k < |a| ==>
      b[k].id == a[k].id && b[k].pickup == a[k].pickup && b[k].delivery == a[k].delivery
      && (a[k].picked ==> b[k].picked) && (a[k].done ==> b[k].done)
  }

  lemma TasksForwardTrans(a: seq<Task>, b: seq<Task>, c: seq<Task>)
    requires TasksForward(a, b) && TasksForward(b, c)
    ensures TasksForward(a, c)
  {
  }

  /** A forward step keeps every agent's task findable at the same index. */
  lemma ForwardKeepsFind(a: seq<Task>, b: seq<Task>, id: Option<int>)
    requires TasksForward(a, b)
    ensures id.Some? ==> FindTask(a, id.value) == FindTask(b, id.value)
  {
    if id.Some? {
      FindTaskSameIds(a, b, id.value);
    }
  }

  /** `goalNodeOf`: the delivery while carrying, the pickup while heading to it, otherwise none. */
  function GoalNodeOf(tasks: seq<Task>, a: Agent): (r: Option<nat>)
    requires a.taskId.Some? ==> FindTask(tasks, a.taskId.value).Some?
    ensures a.mode == Free ==> r.None?
    ensures r.Some? ==>
      a.taskId.Some? &&
      (exists k :: 0 <= k < |tasks| && tasks[k].id == a.taskId.value &&
         r.value == (if a.mode == Carrying then tasks[k].delivery else tasks[k].pickup))
  {
    if a.mode == Carrying && a.taskId.Some? then Some(tasks[FindTask(tasks, a.taskId.value).value].delivery)
    else if a.mode == ToPickup && a.taskId.Some? then Some(tasks[FindTask(tasks, a.taskId.value).value].pickup)
    else None
  }

  function Tier(m: Mode): int
  {
    match m
    case Carrying => 3
    case ToPickup => 2
    case Free => 1
  }

  /** `priorityOf`: `tier*1000 - 10*eta - id`, eta the Manhattan distance to the goal node (0 without one). */
  function PriorityOf(w: nat, tasks: seq<Task>, a: Agent): int
    requires w > 0 && (a.taskId.Some? ==> FindTask(tasks, a.taskId.value).Some?)
  {
    var eta := match GoalNodeOf(tasks, a) case Some(g) => Manhattan(w, a.current, g) case None => 0;
    Tier(a.mode) * 1000 - eta * 10 - a.id
  }

  /**
   * Carrying outranks heading to a pickup, which outranks free, whenever both agents have
   * `10*eta + id` in `[0, 1000)`.
   */
  lemma TierDominates(w: nat, tasks: seq<Task>, a: Agent, b: Agent)
    requires w > 0 && (a.taskId.Some? ==> FindTask(tasks, a.taskId.value).Some?)
    requires b.taskId.Some? ==> FindTask(tasks, b.taskId.value).Some?
    requires Tier(a.mode) > Tier(b.mode)
    requires 0 <= a.id && 0 <= b.id
    requires Tier(a.mode) * 1000 - PriorityOf(w, tasks, a) < 1000
    ensures PriorityOf(w, tasks, a) > PriorityOf(w, tasks, b)
  {
  }

  /** Distance from `node` to where the agent is heading (its own cell when it has no goal), used to order its candidates. */
  function DistTo(w: nat, tasks: seq<Task>, a: Agent, node: nat): nat
    requires w > 0 && (a.taskId.Some? ==> FindTask(tasks, a.taskId.value).Some?)
  {
    match GoalNodeOf(tasks, a)
    case Some(g) => Manhattan(w, node, g)
    case None => Manhattan(w, node, a.current)
  }

  /** `C = [Q_from[i], ...neighbors(Q_from[i])]` sorted by distance. */
  function Candidates(w: nat, h: nat, obstacles: set<int>, tasks: seq<Task>, a: Agent): seq<nat>
    requires w > 0 && (a.taskId.Some? ==> FindTask(tasks, a.taskId.value).Some?)
  {
    Ordering.SortBy<nat>([a.current] + Grid.NeighborList(w, h, obstacles, a.current),
                    (v: nat) => DistTo(w, tasks, a, v) as real)
  }

  /** Candidates are exactly the agent's cell and its neighbours, all on the grid. */
  lemma CandidatesCells(w: nat, h: nat, obstacles: set<int>, tasks: seq<Task>, a: Agent)
    requires w > 0 && a.current < w * h && (a.taskId.Some? ==> FindTask(tasks, a.taskId.value).Some?)
    ensures forall v :: v in Candidates(w, h, obstacles, tasks, a) <==>
      v == a.current || v in Grid.NeighborList(w, h, obstacles, a.current)
    ensures forall v :: v in Candidates(w, h, obstacles, tasks, a) ==> v < w * h
  {
    var base := [a.current] + Grid.NeighborList(w, h, obstacles, a.current);
    var c := Candidates(w, h, obstacles, tasks, a);
    assert multiset(c) == multiset(base);
    forall v ensures v in c <==> v in base {
      assert v in c <==> v in multiset(c);
      assert v in base <==> v in multiset(base);
    }
    forall v | v in base ensures v < w * h {
      if v != a.current { Grid.NeighborListSpec(w, h, obstacles, a.current, v); }
    }
  }

  /** Candidates are tried nearest to the agent's goal first. */
  lemma CandidatesNearestFirst(w: nat, h: nat, obstacles: set<int>, tasks: seq<Task>, a: Agent)
    requires w > 0 && (a.taskId.Some? ==> FindTask(tasks, a.taskId.value).Some?)
    ensures forall s, t :: 0 <= s < t < |Candidates(w, h, obstacles, tasks, a)| ==>
      DistTo(w, tasks, a, Candidates(w, h, obstacles, tasks, a)[s]) <= DistTo(w, tasks, a, Candidates(w, h, obstacles, tasks, a)[t])
  {
    var base := [a.current] + Grid.NeighborList(w, h, obstacles, a.current);
    var key := (v: nat) => DistTo(w, tasks, a, v) as real;
    Ordering.SortBySorted<nat>(base, key);
    var c := Candidates(w, h, obstacles, tasks, a);
    forall s, t | 0 <= s < t < |c| ensures DistTo(w, tasks, a, c[s]) <= DistTo(w, tasks, a, c[t]) {
      assert key(c[s]) <= key(c[t]);
    }
  }

  /** The discrete half of `Agent.step`: a contracted agent is untouched; an arrived one settles on `next`. */
  function Arrive(a: Agent, arrived: bool): (r: Agent)
    ensures a.state == Contracted || !arrived ==> r == a
    ensures a.state == Extended && arrived && a.next.Some? ==>
      r.current == a.next.value && r.next.None? && r.state == Contracted
    ensures Target(r) == Target(a) && r.id == a.id && r.mode == a.mode && r.taskId == a.taskId
  {
    if a.state == Contracted || !arrived || a.next.None? then a
    else a.(current := a.next.value, next := None, state := Contracted)
  }

  /** Every agent's arrival step, agent `i` using `arrived[i]`. */
  function ArriveEach(agents: seq<Agent>, arrived: seq<bool>): (r: seq<Agent>)
    requires |arrived| == |agents|
    ensures |r| == |agents| && forall i :: 0 <= i < |agents| ==> r[i] == Arrive(agents[i], arrived[i])
  {
    seq(|agents|, i requires 0 <= i < |agents| => Arrive(agents[i], arrived[i]))
  }

  /**
   * Pickup and delivery for a contracted agent: at its task's pickup a to_pickup agent marks
   * the task picked and carries it; at the delivery a carrying agent marks the task done,
   * clears `assignedTo` and becomes free without a task. Anything else is unchanged.
   */
  function Settle(tasks: seq<Task>, a: Agent): (r: (seq<Task>, Agent))
    requires a.taskId.Some? ==> FindTask(tasks, a.taskId.value).Some?
    ensures TasksForward(tasks, r.0)
    ensures r.1 == a || r.1 == a.(mode := Carrying) || r.1 == a.(mode := Free, taskId := None)
    ensures a.mode == ToPickup && a.taskId.Some? ==>
      var k := FindTask(tasks, a.taskId.value).value;
      if a.current == tasks[k].pickup
      then r.0 == tasks[k := tasks[k].(picked := true)] && r.1 == a.(mode := Carrying)
      else r == (tasks, a)
    ensures a.mode == Carrying && a.taskId.Some? ==>
      var k := FindTask(tasks, a.taskId.value).value;
      if a.current == tasks[k].delivery
      then r.0 == tasks[k := tasks[k].(done := true, assignedTo := None)] && r.1 == a.(mode := Free, taskId := None)
      else r == (tasks, a)
    ensures a.mode == Free ==> r == (tasks, a)
  {
    if a.mode == ToPickup && a.taskId.Some? then
      var k := FindTask(tasks, a.taskId.value).value;
      if a.current == tasks[k].pickup then (tasks[k := tasks[k].(picked := true)], a.(mode := Carrying))
      else (tasks, a)
    else if a.mode == Carrying && a.taskId.Some? then
      var k := FindTask(tasks, a.taskId.value).value;
      if a.current == tasks[k].delivery then
        (tasks[k := tasks[k].(done := true, assignedTo := None)], a.(mode := Free, taskId := None))
      else (tasks, a)
    else (tasks, a)
  }

  /** A free agent takes the task `ChooseTask` picks, recording its id in `assignedTo`; with none available nothing changes. */
  function Assign(w: nat, tasks: seq<Task>, a: Agent): (r: (seq<Task>, Agent))
    requires w > 0
    ensures TasksForward(tasks, r.0)
    ensures ChooseTask(w, tasks, a.current).None? ==> r == (tasks, a)
    ensures ChooseTask(w, tasks, a.current).Some? ==>
      var k := ChooseTask(w, tasks, a.current).value;
      k < |tasks| && IsAvailable(tasks[k]) &&
      r.0 == tasks[k := tasks[k].(assignedTo := Some(a.id))] &&
      r.1 == a.(mode := ToPickup, taskId := Some(tasks[k].id))
  {
    ChooseTaskSpec(w, tasks, a.current);
    match ChooseTask(w, tasks, a.current)
    case None => (tasks, a)
    case Some(k) => (tasks[k := tasks[k].(assignedTo := Some(a.id))], a.(mode := ToPickup, taskId := Some(tasks[k].id)))
  }

  /** The task half of `update` for agent `i`: settle, then, if free, take a task; extended agents are skipped. */
  function Advance(w: nat, h: nat, agents: seq<Agent>, tasks: seq<Task>, i: nat): (r: (seq<Task>, Agent))
    requires Consistent(w, h, agents, tasks) && i < |agents|
    ensures TasksForward(tasks, r.0)
    ensures Consistent(w, h, agents[i := r.1], r.0)
    ensures agents[i].state == Extended ==> r == (tasks, agents[i])
    ensures r.1.current == agents[i].current && r.1.next == agents[i].next
    ensures r.1.state == agents[i].state && r.1.id == agents[i].id
  {
    var a := agents[i];
    if a.state == Extended then (tasks, a)
    else
      var s := Settle(tasks, a);
      ForwardKeepsFind(tasks, s.0, a.taskId);
      var r := if s.1.mode == Free then Assign(w, s.0, s.1) else s;
      AssignFinds(w, s.0, s.1);
      TasksForwardTrans(tasks, s.0, r.0);
      AdvanceConsistent(w, h, agents, tasks, i, r);
      r
  }

  lemma AdvanceConsistent(w: nat, h: nat, agents: seq<Agent>, tasks: seq<Task>, i: nat, r: (seq<Task>, Agent))
    requires Consistent(w, h, agents, tasks) && i < |agents| && TasksForward(tasks, r.0)
    requires r.1.current == agents[i].current && r.1.next == agents[i].next && r.1.state == agents[i].state
    requires r.1.mode == Free <==> r.1.taskId.None?
    requires r.1.taskId.Some? ==> FindTask(r.0, r.1.taskId.value).Some?
    ensures Consistent(w, h, agents[i := r.1], r.0)
  {
    var agents' := agents[i := r.1];
    forall j | 0 <= j < |agents'| ensures AgentOk(w, h, r.0, agents'[j]) {
      if j != i && agents[j].taskId.Some? {
        ForwardKeepsFind(tasks, r.0, agents[j].taskId);
      }
    }
    assert forall j :: 0 <= j < |agents'| ==> Target(agents'[j]) == Target(agents[j]);
  }

  /** After a free agent takes a task, its task is found in the updated list. */
  lemma AssignFinds(w: nat, tasks: seq<Task>, a: Agent)
    requires w > 0
    ensures a.mode == Free && a.taskId.None? ==>
      (Assign(w, tasks, a).1.mode == Free <==> Assign(w, tasks, a).1.taskId.None?)
    ensures a.mode == Free && a.taskId.None? && Assign(w, tasks, a).1.taskId.Some? ==>
      FindTask(Assign(w, tasks, a).0, Assign(w, tasks, a).1.taskId.value).Some?
  {
    var r := Assign(w, tasks, a);
    if ChooseTask(w, tasks, a.current).Some? {
      var k := ChooseTask(w, tasks, a.current).value;
      assert r.0[k].id == tasks[k].id;
      if FindTask(r.0, tasks[k].id).None? {
        assert false;
      }
    }
  }

  /** Every agent is contracted (`allContracted`). */
  predicate AllContracted(agents: seq<Agent>)
  {
    forall i :: 0 <= i < |agents| ==> agents[i].state == Contracted
  }

  /** The task half of `update` for agents `0..n-1`, in list order. */
  function AdvanceUpTo(w: nat, h: nat, agents: seq<Agent>, tasks: seq<Task>, n: nat): (r: (seq<Agent>, seq<Task>))
    requires Consistent(w, h, agents, tasks) && n <= |agents|
    ensures |r.0| == |agents| && Consistent(w, h, r.0, r.1) && TasksForward(tasks, r.1)
    ensures forall i :: n <= i < |agents| ==> r.0[i] == agents[i]
    ensures forall i :: 0 <= i < |agents| ==>
      r.0[i].current == agents[i].current && r.0[i].next == agents[i].next &&
      r.0[i].state == agents[i].state && r.0[i].id == agents[i].id
  {
    if n == 0 then (agents, tasks)
    else
      var p := AdvanceUpTo(w, h, agents, tasks, n - 1);
      var s := Advance(w, h, p.0, p.1, n - 1);
      TasksForwardTrans(tasks, p.1, s.0);
      (p.0[n - 1 := s.1], s.0)
  }

  lemma AdvanceUpToNext(w: nat, h: nat, agents: seq<Agent>, tasks: seq<Task>, n: nat)
    requires Consistent(w, h, agents, tasks) && n < |agents|
    ensures var p := AdvanceUpTo(w, h, agents, tasks, n);
      var s := Advance(w, h, p.0, p.1, n);
      AdvanceUpTo(w, h, agents, tasks, n + 1) == (p.0[n := s.1], s.0)
  {
  }
  /** The loop of `update` over the agents, on the game's lists. */
  method AdvanceEach(w: nat, h: nat, agents: seq<Agent>, tasks: seq<Task>) returns (ags: seq<Agent>, ts: seq<Task>)
    requires Consistent(w, h, agents, tasks)
    ensures (ags, ts) == AdvanceUpTo(w, h, agents, tasks, |agents|)
    ensures Consistent(w, h, ags, ts)
  {
    ags, ts := agents, tasks;
    for i := 0 to |ags|
      invariant |ags| == |agents| && (ags, ts) == AdvanceUpTo(w, h, agents, tasks, i)
    {
      var r := Advance(w, h, ags, ts, i);
      AdvanceUpToNext(w, h, agents, tasks, i);
      ts := r.0;
      ags := ags[i := r.1];
    }
  }


  /** The neighbour function of a grid with obstacles. */
  function GridNbrs(w: nat, h: nat, obstacles: set<int>): nat -> seq<nat>
  {
    (u: nat) => if w > 0 then Grid.NeighborList(w, h, obstacles, u) else []
  }

  function Currents(agents: seq<Agent>): (r: seq<nat>)
    ensures |r| == |agents| && forall i :: 0 <= i < |agents| ==> r[i] == agents[i].current
  {
    seq(|agents|, i requires 0 <= i < |agents| => agents[i].current)
  }

  /** The agents armed with a resolved step: exactly those whose target differs from their cell get it as `next`. */
  function Armed(agents: seq<Agent>, qto: seq<int>): (r: seq<Agent>)
    requires |qto| == |agents| && forall i :: 0 <= i < |qto| ==> qto[i] >= 0
    ensures |r| == |agents|
    ensures forall i :: 0 <= i < |agents| && qto[i] != agents[i].current ==>
      r[i] == agents[i].(next := Some(qto[i] as nat), state := Extended)
    ensures forall i :: 0 <= i < |agents| && qto[i] == agents[i].current ==> r[i] == agents[i]
  {
    seq(|agents|, i requires 0 <= i < |agents| =>
      if qto[i] != agents[i].current then agents[i].(next := Some(qto[i] as nat), state := Extended) else agents[i])
  }

  /** `makeTasks(n)`: task `i` has id `i+1`, pickup `pickups[i % |pickups|]` and delivery `deliveries[i % |deliveries|]`. */
  method MakeTasks(pickups: seq<nat>, deliveries: seq<nat>, n: nat) returns (t: seq<Task>)
    requires |pickups| > 0 && |deliveries| > 0
    ensures |t| == n
    ensures forall i :: 0 <= i < n ==>
      t[i] == Task(i + 1, pickups[i % |pickups|], deliveries[i % |deliveries|], None, false, false)
  {
    t := [];
    var id := 1;
    for i := 0 to n
      invariant |t| == i && id == i + 1
      invariant forall k :: 0 <= k < i ==>
        t[k] == Task(k + 1, pickups[k % |pickups|], deliveries[k % |deliveries|], None, false, false)
    {
      var pu := pickups[i % |pickups|];
      var di := deliveries[i % |deliveries|];
      t := t + [Task(id, pu, di, None, false, false)];
      id := id + 1;
    }
  }

  /** Made tasks have distinct ids `1..n`, and `find` locates id `k` at index `k-1`. */
  lemma {:induction false} FindMadeTask(t: seq<Task>, id: int)
    requires forall i :: 0 <= i < |t| ==> t[i].id == i + 1
    requires 1 <= id <= |t|
    ensures FindTask(t, id) == Some(id - 1)
  {
    assert t[id - 1].id == id;
    if FindTask(t, id).Some? {
      var k := FindTask(t, id).value;
      assert t[k].id == k + 1;
    }
  }

  /** The game: a grid with obstacles, pickup and delivery cells, the agents and the task list. */
  class MapdGame {
    const w: nat
    const h: nat
    const obstacles: set<int>
    const pickups: seq<nat>
    const deliveries: seq<nat>
    var agents: seq<Agent>
    var tasks: seq<Task>

    ghost predicate Valid()
      reads this
    {
      Consistent(w, h, agents, tasks)
    }

    /**
     * A game on a `width`×`height` grid whose agent `i` starts free and contracted at
     * `starts[i]`, with `taskCount` tasks made by `MakeTasks`.
     */
    constructor (width: nat, height: nat, blocked: set<int>, pickupCells: seq<nat>, deliveryCells: seq<nat>,
                 starts: seq<nat>, taskCount: nat)
      requires width > 0 && |pickupCells| > 0 && |deliveryCells| > 0 && |starts| < NIL
      requires forall c :: c in pickupCells || c in deliveryCells || c in starts ==> c < width * height
      requires forall i, j :: 0 <= i < j < |starts| ==> starts[i] != starts[j]
      ensures Valid() && w == width && h == height && obstacles == blocked
      ensures pickups == pickupCells && deliveries == deliveryCells
      ensures agents == seq(|starts|, i requires 0 <= i < |starts| => Agent(i, starts[i], None, Contracted, Free, None))
      ensures |tasks| == taskCount
    {
      w, h, obstacles := width, height, blocked;
      pickups, deliveries := pickupCells, deliveryCells;
      agents := seq(|starts|, i requires 0 <= i < |starts| => Agent(i, starts[i], None, Contracted, Free, None));
      new;
      assert forall i :: 0 <= i < |agents| ==> Target(agents[i]) == starts[i] && starts[i] in starts;
      tasks := MakeTasks(pickupCells, deliveryCells, taskCount);
      forall k | 0 <= k < |tasks| ensures tasks[k].pickup < w * h && tasks[k].delivery < w * h {
        assert tasks[k].pickup in pickupCells && tasks[k].delivery in deliveryCells;
      }
    }

    /** The arrival loop `for (const a of agents) a.step(...)`; `arrived[i]` says whether agent `i` reached `next`. */
    method ArriveAll(arrived: seq<bool>)
      requires Valid() && |arrived| == |agents|
      modifies this`agents
      ensures Valid()
      ensures agents == ArriveEach(old(agents), arrived)
    {
      ghost var a0 := agents;
      for i := 0 to |agents|
        invariant |agents| == |a0|
        invariant forall k :: 0 <= k < i ==> agents[k] == Arrive(a0[k], arrived[k])
        invariant forall k :: i <= k < |agents| ==> agents[k] == a0[k]
      {
        agents := agents[i := Arrive(agents[i], arrived[i])];
      }
      assert forall k :: 0 <= k < |agents| ==> Target(agents[k]) == Target(a0[k]);
    }

    /** The task loop of `update`, agent by agent. */
    method AdvanceAll()
      requires Valid()
      modifies this`agents, this`tasks
      ensures Valid()
      ensures (agents, tasks) == AdvanceUpTo(w, h, old(agents), old(tasks), |old(agents)|)
    {
      var ags, ts := AdvanceEach(w, h, agents, tasks);
      agents, tasks := ags, ts;
    }

    /**
     * One tick of `update`: arrivals, then the task lifecycle, then, if every agent is
     * contracted, one PIBT step whose targets arm exactly the agents that move. `plan` is the
     * resolver's `Q_to` when it ran.
     */
    method Update(arrived: seq<bool>) returns (plan: Option<seq<int>>)
      requires Valid() && |arrived| == |agents|
      modifies this`agents, this`tasks
      ensures Valid()
      ensures var mid := AdvanceUpTo(w, h, ArriveEach(old(agents), arrived), old(tasks), |old(agents)|);
        tasks == mid.1
        && (plan.Some? <==> AllContracted(mid.0))
        && (plan.None? ==> agents == mid.0)
        && (plan.Some? ==>
              ResolverStep.SafeStep(Currents(mid.0), GridNbrs(w, h, obstacles), plan.value)
              && (forall i :: 0 <= i < |plan.value| ==> plan.value[i] >= 0)
              && agents == Armed(mid.0, plan.value))
    {
      ArriveAll(arrived);
      AdvanceAll();
      if !AllContracted(agents) {
        return None;
      }
      var qto := Resolve();
      plan := Some(qto);
      ArmAgents(qto);
    }

    /** Builds `Q_from`, the priorities and the candidate lists of all agents and runs one PIBT step. */
    method Resolve() returns (qto: seq<int>)
      requires Valid() && AllContracted(agents)
      ensures ResolverStep.SafeStep(Currents(agents), GridNbrs(w, h, obstacles), qto)
    {
      var qfrom := Currents(agents);
      var ags, ts := agents, tasks;
      var pr := seq(|ags|, i requires 0 <= i < |ags| => PriorityOf(w, ts, ags[i]) as real);
      var cands := seq(|ags|, i requires 0 <= i < |ags| => Candidates(w, h, obstacles, ts, ags[i]));
      var order := Ordering.ByPriority(pr);
      Ordering.ByPriorityOrder(pr);
      forall i | 0 <= i < |agents| {
        CandidatesCells(w, h, obstacles, tasks, agents[i]);
      }
      forall i, v | 0 <= i < |agents| && v in cands[i] && v != qfrom[i]
        ensures v in GridNbrs(w, h, obstacles)(qfrom[i])
      {
      }
      assert forall i, j :: 0 <= i < j < |qfrom| ==> qfrom[i] != qfrom[j] by {
        forall i, j | 0 <= i < j < |qfrom| ensures qfrom[i] != qfrom[j] {
          assert Target(agents[i]) != Target(agents[j]);
        }
      }
      qto := ResolverStep.Step(qfrom, w * h, cands, order, GridNbrs(w, h, obstacles), NIL);
    }

    /** Arms every agent whose resolved cell differs from its own (`next := Q_to[i]`, extended). */
    method ArmAgents(qto: seq<int>)
      requires w > 0 && AllContracted(agents) && (forall i :: 0 <= i < |agents| ==> AgentOk(w, h, tasks, agents[i]))
      requires (forall k :: 0 <= k < |tasks| ==> tasks[k].pickup < w * h && tasks[k].delivery < w * h)
      requires |agents| < NIL
      requires ResolverStep.SafeStep(Currents(agents), GridNbrs(w, h, obstacles), qto)
      modifies this`agents
      ensures Valid()
      ensures forall i :: 0 <= i < |qto| ==> qto[i] >= 0
      ensures agents == Armed(old(agents), qto)
    {
      ghost var a0 := agents;
      forall i | 0 <= i < |qto| ensures 0 <= qto[i] < w * h {
        if qto[i] != a0[i].current {
          Grid.NeighborListSpec(w, h, obstacles, a0[i].current, qto[i] as nat);
        }
      }
      for i := 0 to |agents|
        invariant |agents| == |a0|
        invariant forall k :: 0 <= k < i ==> agents[k] == Armed(a0, qto)[k]
        invariant forall k :: i <= k < |agents| ==> agents[k] == a0[k]
      {
        if qto[i] != agents[i].current {
          agents := agents[i := agents[i].(next := Some(qto[i] as nat), state := Extended)];
        }
      }
      assert forall k :: 0 <= k < |agents| ==> Target(agents[k]) == qto[k];
    }
  }
}
