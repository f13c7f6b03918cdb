/**
 * The task manager of the standalone PIBT library: tasks numbered 1, 2, 3, … in creation
 * order, each moving Pending → ToPickup → Carrying → Done and bound to at most one robot.
 * The manager's map keeps insertion order, which is increasing id order, so it is a sequence
 * whose entry `k` holds the task with id `k + 1`.
 */
module TaskManagers {
  import opened Wrappers
  import opened Worlds
  import Ordering
  import Filters
  import Robots

  datatype TaskStatus = Pending | ToPickup | Carrying | Done

  datatype Task = Task(id: int, pickup: Node, delivery: Node, status: TaskStatus, robotId: Option<int>)

  /** The position of a status along the lifecycle. */
  function Rank(s: TaskStatus): nat
  {
    match s
    case Pending => 0
    case ToPickup => 1
    case Carrying => 2
    case Done => 3
  }

  function Manhattan(a: Node, b: Node): (r: int)
    ensures r >= 0 && (r == 0 <==> a == b)
  {
    Abs(a.x - b.x) + Abs(a.y - b.y)
  }

  /** A task `nextFor` may hand out: pending and not bound to a robot. */
  predicate Open(t: Task)
  {
    t.status == Pending && t.robotId.None?
  }

  /** `list(t => open)`: the open tasks, as indices in insertion order. */
  function OpenTasks(tasks: seq<Task>): (r: seq<nat>)
    ensures forall a :: 0 <= a < |r| ==> r[a] < |tasks|
    ensures forall k :: 0 <= k < |tasks| ==> (k in r <==> Open(tasks[k]))
    ensures forall a, b :: 0 <= a < b < |r| ==> r[a] < r[b]
  {
    if tasks == [] then []
    else
      var rest := OpenTasks(tasks[..|tasks| - 1]);
      if Open(tasks[|tasks| - 1]) then rest + [|tasks| - 1] else rest
  }

  /** `list(filter)`: the stored tasks satisfying `filter`, in insertion order; all of them without one. */
  function List(tasks: seq<Task>, filter: Option<Task -> bool>): (r: seq<Task>)
    ensures filter.None? ==> r == tasks
    ensures filter.Some? ==> forall t :: t in r <==> t in tasks && filter.value(t)
    ensures filter.Some? ==> Filters.Kept(tasks, filter.value, r)
    ensures |r| <= |tasks|
  {
    if filter.None? then tasks
    else if tasks == [] then
      Filters.KeptEmpty(filter.value);
      tasks
    else
      var rest := List(tasks[1..], filter);
      Filters.KeptCons(tasks[0], tasks[1..], filter.value, rest);
      assert [tasks[0]] + tasks[1..] == tasks;
      if filter.value(tasks[0]) then [tasks[0]] + rest
      else
        assert [] + rest == rest;
        rest
  }

  /** The task `nextFor` picks for a robot on `at`: the first open task after a stable sort by distance to its pickup. */
  function Choice(tasks: seq<Task>, at: Node): (r: Option<nat>)
    ensures r.Some? ==> r.value < |tasks| && Open(tasks[r.value])
  {
    var open := OpenTasks(tasks);
    if open == [] then None
    else
      var key := (k: nat) => if k < |tasks| then Manhattan(at, tasks[k].pickup) as real else 0.0;
      var sorted := Ordering.SortBy(open, key);
      Ordering.SortBySorted(open, key);
      assert sorted[0] in multiset(open);
      Some(sorted[0])
  }

  /**
   * There is no choice iff no task is open; otherwise the choice is open, its pickup is
   * nearest among the open tasks, and every open task created before it is strictly further.
   */
  lemma ChoiceSpec(tasks: seq<Task>, at: Node)
    ensures Choice(tasks, at).None? <==> forall k :: 0 <= k < |tasks| ==> !Open(tasks[k])
    ensures Choice(tasks, at).Some? ==>
      var c := Choice(tasks, at).value;
      c < |tasks| && Open(tasks[c]) &&
      (forall k :: 0 <= k < |tasks| && Open(tasks[k]) ==>
         Manhattan(at, tasks[c].pickup) <= Manhattan(at, tasks[k].pickup)) &&
      (forall k :: 0 <= k < c && Open(tasks[k]) ==>
         Manhattan(at, tasks[c].pickup) < Manhattan(at, tasks[k].pickup))
  {
    var open := OpenTasks(tasks);
    var key := (k: nat) => if k < |tasks| then Manhattan(at, tasks[k].pickup) as real else 0.0;
    if open != [] {
      assert open[0] in open;
      Ordering.SortByHead(open, key);
      var m := Ordering.FirstMinimal(open, key);
      var c := open[m];
      assert Choice(tasks, at) == Some(c);
      forall k | 0 <= k < |tasks| && Open(tasks[k])
        ensures Manhattan(at, tasks[c].pickup) <= Manhattan(at, tasks[k].pickup)
        ensures k < c ==> Manhattan(at, tasks[c].pickup) < Manhattan(at, tasks[k].pickup)
      {
        Ordering.FirstMinimalBelow(open, key, k);
      }
    }
  }

  /** `byRobot`: the first task bound to `robotId` that is not done. */
  function ByRobot(tasks: seq<Task>, robotId: int): (r: Option<nat>)
    ensures r.Some? ==> r.value < |tasks| && tasks[r.value].robotId == Some(robotId) && tasks[r.value].status != Done
    ensures r.Some? ==> forall k :: 0 <= k < r.value ==> tasks[k].robotId != Some(robotId) || tasks[k].status == Done
    ensures r.None? <==> forall k :: 0 <= k < |tasks| ==> tasks[k].robotId != Some(robotId) || tasks[k].status == Done
  {
    if tasks == [] then None
    else if tasks[0].robotId == Some(robotId) && tasks[0].status != Done then Some(0)
    else
      var r := ByRobot(tasks[1..], robotId);
      if r.None? then None else Some(r.value + 1)
  }

  /** `get`: the task with the given id, if one is stored. */
  function Get(tasks: seq<Task>, id: int): (r: Option<Task>)
    ensures r.Some? ==> r.value in tasks && r.value.id == id
    ensures r.None? <==> forall k :: 0 <= k < |tasks| ==> tasks[k].id != id
  {
    if tasks == [] then None
    else if tasks[0].id == id then Some(tasks[0])
    else Get(tasks[1..], id)
  }

  /** `b` is `a` with possibly more tasks: ids kept, statuses never moved back, bindings never changed once made. */
  predicate Progressed(a: seq<Task>, b: seq<Task>)
  {
    |a| <= |b| &&
    forall k :: 0 <= k < |a| ==>
      b[k].id == a[k].id && b[k].pickup == a[k].pickup && b[k].delivery == a[k].delivery
      && Rank(a[k].status) <= Rank(b[k].status)
      && (a[k].robotId.Some? ==> b[k].robotId == a[k].robotId)
  }

  lemma ProgressedTrans(a: seq<Task>, b: seq<Task>, c: seq<Task>)
    requires Progressed(a, b) && Progressed(b, c)
    ensures Progressed(a, c)
  {
  }

  class TaskManager {
    var nextId: int
    var tasks: seq<Task>

    /** Entry `k` holds the task with id `k + 1`, and the next id is one past the last. */
    ghost predicate Valid()
      reads this
    {
      nextId == |tasks| + 1 && forall k :: 0 <= k < |tasks| ==> tasks[k].id == k + 1
    }

    constructor ()
      ensures Valid() && tasks == []
    {
      nextId := 1;
      tasks := [];
    }

    /** `addTask`: a pending, unbound task with the next id. */
    method AddTask(pickup: Node, delivery: Node) returns (t: Task)
      requires Valid()
      modifies this
      ensures Valid()
      ensures t == Task(old(nextId), pickup, delivery, Pending, None)
      ensures tasks == old(tasks) + [t]
      ensures forall k :: 0 <= k < |old(tasks)| ==> old(tasks)[k].id < t.id
    {
      t := Task(nextId, pickup, delivery, Pending, None);
      nextId := nextId + 1;
      tasks := tasks + [t];
    }

    /** `nextFor`: binds the chosen open task to the robot and sends it to the pickup. */
    method NextFor(robot: Robots.Robot) returns (r: Option<Task>)
      requires Valid()
      modifies this`tasks
      ensures Valid() && Progressed(old(tasks), tasks)
      ensures r.None? <==> Choice(old(tasks), robot.node).None?
      ensures r.None? ==> tasks == old(tasks)
      ensures r.Some? ==>
        var c := Choice(old(tasks), robot.node).value;
        r.value == old(tasks)[c].(robotId := Some(robot.id), status := ToPickup)
        && tasks == old(tasks)[c := r.value]
    {
      var c := Choice(tasks, robot.node);
      ChoiceSpec(tasks, robot.node);
      if c.None? {
        return None;
      }
      var chosen := tasks[c.value].(robotId := Some(robot.id), status := ToPickup);
      tasks := tasks[c.value := chosen];
      r := Some(chosen);
    }

    /** `onArrivePickup`: the robot's live task goes from ToPickup to Carrying; any other status is kept. */
    method OnArrivePickup(robot: Robots.Robot) returns (r: Option<Task>)
      requires Valid()
      modifies this`tasks
      ensures Valid() && Progressed(old(tasks), tasks)
      ensures var k := ByRobot(old(tasks), robot.id);
        && (k.None? ==> r.None? && tasks == old(tasks))
        && (k.Some? && old(tasks)[k.value].status != ToPickup ==> r == Some(old(tasks)[k.value]) && tasks == old(tasks))
        && (k.Some? && old(tasks)[k.value].status == ToPickup ==>
              r == Some(old(tasks)[k.value].(status := Carrying)) && tasks == old(tasks)[k.value := r.value])
    {
      var k := ByRobot(tasks, robot.id);
      if k.None? {
        return None;
      }
      var t := tasks[k.value];
      if t.status != ToPickup {
        return Some(t);
      }
      t := t.(status := Carrying);
      tasks := tasks[k.value := t];
      r := Some(t);
    }

    /** `onArriveDelivery`: the robot's live task goes from Carrying to Done; any other status is kept. */
    method OnArriveDelivery(robot: Robots.Robot) returns (r: Option<Task>)
      requires Valid()
      modifies this`tasks
      ensures Valid() && Progressed(old(tasks), tasks)
      ensures var k := ByRobot(old(tasks), robot.id);
        && (k.None? ==> r.None? && tasks == old(tasks))
        && (k.Some? && old(tasks)[k.value].status != Carrying ==> r == Some(old(tasks)[k.value]) && tasks == old(tasks))
        && (k.Some? && old(tasks)[k.value].status == Carrying ==>
              r == Some(old(tasks)[k.value].(status := Done)) && tasks == old(tasks)[k.value := r.value])
    {
      var k := ByRobot(tasks, robot.id);
      if k.None? {
        return None;
      }
      var t := tasks[k.value];
      if t.status != Carrying {
        return Some(t);
      }
      t := t.(status := Done);
      tasks := tasks[k.value := t];
      r := Some(t);
    }
  }

  /** Under the id invariant, `get` finds exactly the ids `1..|tasks|`, at entry `id - 1`. */
  lemma GetById(tasks: seq<Task>, id: int)
    requires forall k :: 0 <= k < |tasks| ==> tasks[k].id == k + 1
    ensures 1 <= id <= |tasks| ==> Get(tasks, id) == Some(tasks[id - 1])
    ensures !(1 <= id <= |tasks|) ==> Get(tasks, id).None?
  {
    if 1 <= id <= |tasks| {
      GetFirst(tasks, id, id - 1);
    }
  }

  lemma {:induction false} GetFirst(tasks: seq<Task>, id: int, j: nat)
    requires j < |tasks| && tasks[j].id == id
    requires forall k :: 0 <= k < j ==> tasks[k].id != id
    ensures Get(tasks, id) == Some(tasks[j])
  {
    if j > 0 {
      GetFirst(tasks[1..], id, j - 1);
    }
  }

  /** A done task is never handed out again, nor found as a robot's live task. */
  lemma DoneNeverReturned(tasks: seq<Task>, at: Node, robotId: int, k: nat)
    requires k < |tasks| && tasks[k].status == Done
    ensures Choice(tasks, at) != Some(k) && ByRobot(tasks, robotId) != Some(k)
  {
    ChoiceSpec(tasks, at);
  }
}
