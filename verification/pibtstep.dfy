/**
 * `step` of the map-based MAPD controller: free agents take the nearest open task, the agents
 * are ordered by priority, `pibt` plans one move each, every agent moves to its planned cell,
 * and agents standing on their pickup or delivery cell advance their task.
 *
 * The agent and task lists are the arrays whose objects `step` updates in place; agents and
 * tasks are addressed by list index, which the distinct ids make the same as addressing them
 * through the id-keyed maps of the source.
 */
module PibtSteps {
  import opened Wrappers
  import opened Decimal
  import opened PibtMaps
  import opened PibtPlanning
  import Reservations
  import Ordering

  // Task assignment.

  /** The filter of the assignment: not done and not assigned, where owner 0 counts as none. */
  predicate Open(t: Task)
  {
    !t.done && Reservations.Falsy(t.assignedTo)
  }

  /** The indices of the open tasks, in list order. */
  function OpenTasks(tasks: seq<Task>): (r: seq<nat>)
    ensures forall a :: 0 <= a < |r| ==> r[a] < |tasks|
    ensures forall k :: 0 <= k < |tasks| ==> (k in r <==> Open(tasks[k]))
    ensures forall a, b :: 0 <= a < b < |r| ==> r[a] < r[b]
  {
    if tasks == [] then []
    else
      var rest := OpenTasks(tasks[..|tasks| - 1]);
      if Open(tasks[|tasks| - 1]) then rest + [|tasks| - 1] else rest
  }

  /** The sort key of the assignment: distance from `pos` to the task's pickup. */
  function PickupKey(pos: Vec, tasks: seq<Task>): nat -> real
  {
    (k: nat) => if k < |tasks| then Manhattan(pos, tasks[k].pickup) as real else 0.0
  }

  /** The task a free agent on `pos` takes: the head of the open tasks stably sorted by distance. */
  function Pick(pos: Vec, tasks: seq<Task>): (r: Option<nat>)
    ensures r.Some? ==> r.value < |tasks| && Open(tasks[r.value])
  {
    var open := OpenTasks(tasks);
    if open == [] then None
    else
      var sorted := Ordering.SortBy(open, PickupKey(pos, tasks));
      Ordering.SortBySorted(open, PickupKey(pos, tasks));
      assert sorted[0] in multiset(open);
      Some(sorted[0])
  }

  /**
   * There is nothing to take iff no task is open; otherwise the task taken is open, its pickup
   * is nearest among the open tasks, and every open task listed before it is strictly further.
   */
  lemma PickSpec(pos: Vec, tasks: seq<Task>)
    ensures Pick(pos, tasks).None? <==> forall k :: 0 <= k < |tasks| ==> !Open(tasks[k])
    ensures Pick(pos, tasks).Some? ==>
      var c := Pick(pos, tasks).value;
      (forall k :: 0 <= k < |tasks| && Open(tasks[k]) ==>
         Manhattan(pos, tasks[c].pickup) <= Manhattan(pos, tasks[k].pickup)) &&
      (forall k :: 0 <= k < c && Open(tasks[k]) ==>
         Manhattan(pos, tasks[c].pickup) < Manhattan(pos, tasks[k].pickup))
  {
    var open := OpenTasks(tasks);
    var key := PickupKey(pos, tasks);
    if open != [] {
      assert open[0] in open;
      Ordering.SortByHead(open, key);
      var m := Ordering.FirstMinimal(open, key);
      var c := open[m];
      assert Pick(pos, tasks) == Some(c);
      forall k | 0 <= k < |tasks| && Open(tasks[k])
        ensures Manhattan(pos, tasks[c].pickup) <= Manhattan(pos, tasks[k].pickup)
        ensures k < c ==> Manhattan(pos, tasks[c].pickup) < Manhattan(pos, tasks[k].pickup)
      {
        Ordering.FirstMinimalBelow(open, key, k);
      }
    }
  }

  /**
   * One turn of the assignment loop: a free agent with an open task in reach takes it, heads
   * for its pickup, and the task records the agent's id as its owner.
   */
  function AssignOne(agents: seq<Agent>, tasks: seq<Task>, i: nat): (r: (seq<Agent>, seq<Task>))
    requires i < |agents|
    ensures |r.0| == |agents| && |r.1| == |tasks|
  {
    if agents[i].mode != Free then (agents, tasks)
    else match Pick(agents[i].pos, tasks)
      case None => (agents, tasks)
      case Some(j) =>
        (agents[i := agents[i].(mode := ToPickup, taskId := Some(tasks[j].id))],
         tasks[j := tasks[j].(assignedTo := Some(agents[i].id))])
  }

  /** The agents' ids and cells and the tasks' ids and cells stay as they were. */
  predicate SameFrame(a0: seq<Agent>, t0: seq<Task>, a1: seq<Agent>, t1: seq<Task>)
  {
    && |a1| == |a0| && |t1| == |t0|
    && (forall i :: 0 <= i < |a0| ==> a1[i].id == a0[i].id && a1[i].pos == a0[i].pos)
    && (forall j :: 0 <= j < |t0| ==> t1[j].id == t0[j].id && t1[j].pickup == t0[j].pickup
                                      && t1[j].delivery == t0[j].delivery)
  }

  /** Every agent under way names a stored task. */
  predicate AllKnown(agents: seq<Agent>, tasks: seq<Task>)
  {
    forall i :: 0 <= i < |agents| ==> Known(agents[i], tasks)
  }

  /** Lookups by task id only see the ids. */
  lemma {:induction false} TaskOfIds(t0: seq<Task>, t1: seq<Task>, id: int)
    requires |t1| == |t0| && forall j :: 0 <= j < |t0| ==> t1[j].id == t0[j].id
    ensures TaskOf(t1, id) == TaskOf(t0, id)
  {
    if t0 != [] {
      TaskOfIds(t0[..|t0| - 1], t1[..|t1| - 1], id);
    }
  }

  /** Agents that were known stay known when only the task fields other than ids change. */
  lemma KnownKept(a0: seq<Agent>, t0: seq<Task>, a1: seq<Agent>, t1: seq<Task>)
    requires SameFrame(a0, t0, a1, t1) && AllKnown(a0, t0)
    requires forall i :: 0 <= i < |a0| ==> a1[i] == a0[i] || Known(a1[i], t0)
    ensures AllKnown(a1, t1)
  {
    forall i | 0 <= i < |a1|
      ensures Known(a1[i], t1)
    {
      if a1[i].taskId.Some? {
        TaskOfIds(t0, t1, a1[i].taskId.value);
      }
    }
  }

  /**
   * A turn of the assignment keeps ids and cells and keeps every agent known. The picked task
   * stops being open unless the agent's id is 0, which the owner test reads as no owner.
   */
  lemma AssignOneSpec(agents: seq<Agent>, tasks: seq<Task>, i: nat)
    requires i < |agents|
    ensures SameFrame(agents, tasks, AssignOne(agents, tasks, i).0, AssignOne(agents, tasks, i).1)
    ensures AllKnown(agents, tasks) ==> AllKnown(AssignOne(agents, tasks, i).0, AssignOne(agents, tasks, i).1)
    ensures agents[i].mode == Free && Pick(agents[i].pos, tasks).Some? ==>
      var j := Pick(agents[i].pos, tasks).value;
      (Open(AssignOne(agents, tasks, i).1[j]) <==> agents[i].id == 0)
  {
    AssignOneFrame(agents, tasks, i);
  }

  /** The frame half of `AssignOneSpec`. */
  lemma AssignOneFrame(agents: seq<Agent>, tasks: seq<Task>, i: nat)
    requires i < |agents|
    ensures SameFrame(agents, tasks, AssignOne(agents, tasks, i).0, AssignOne(agents, tasks, i).1)
    ensures AllKnown(agents, tasks) ==> AllKnown(AssignOne(agents, tasks, i).0, AssignOne(agents, tasks, i).1)
  {
    var r := AssignOne(agents, tasks, i);
    if agents[i].mode == Free && Pick(agents[i].pos, tasks).Some? {
      var j := Pick(agents[i].pos, tasks).value;
      assert r.1[j].id == tasks[j].id;
      assert TaskOf(tasks, tasks[j].id).Some?;
      if AllKnown(agents, tasks) {
        KnownKept(agents, tasks, r.0, r.1);
      }
    } else {
      assert r == (agents, tasks);
    }
  }

  /** The assignment loop over the first `n` agents, in list order. */
  function Assigned(agents: seq<Agent>, tasks: seq<Task>, n: nat): (r: (seq<Agent>, seq<Task>))
    requires n <= |agents|
    ensures |r.0| == |agents| && |r.1| == |tasks|
  {
    if n == 0 then (agents, tasks)
    else
      var p := Assigned(agents, tasks, n - 1);
      AssignOne(p.0, p.1, n - 1)
  }

  /** The whole assignment loop keeps ids, cells and known agents. */
  lemma {:induction false} AssignedSpec(agents: seq<Agent>, tasks: seq<Task>, n: nat)
    requires n <= |agents|
    ensures SameFrame(agents, tasks, Assigned(agents, tasks, n).0, Assigned(agents, tasks, n).1)
    ensures AllKnown(agents, tasks) ==> AllKnown(Assigned(agents, tasks, n).0, Assigned(agents, tasks, n).1)
  {
    if n > 0 {
      var p := Assigned(agents, tasks, n - 1);
      AssignedSpec(agents, tasks, n - 1);
      AssignOneFrame(p.0, p.1, n - 1);
      SameFrameTrans(agents, tasks, p.0, p.1, AssignOne(p.0, p.1, n - 1).0, AssignOne(p.0, p.1, n - 1).1);
    }
  }

  /** Two turns that each keep ids, cells and known agents keep them together. */
  lemma SameFrameTrans(a0: seq<Agent>, t0: seq<Task>, a1: seq<Agent>, t1: seq<Task>, a2: seq<Agent>, t2: seq<Task>)
    requires SameFrame(a0, t0, a1, t1) && SameFrame(a1, t1, a2, t2)
    requires AllKnown(a0, t0) ==> AllKnown(a1, t1)
    requires AllKnown(a1, t1) ==> AllKnown(a2, t2)
    ensures SameFrame(a0, t0, a2, t2)
    ensures AllKnown(a0, t0) ==> AllKnown(a2, t2)
  {
  }

  // The planning order.

  /** Agent numbers within the fleet. */
  predicate Within(s: seq<nat>, n: nat)
  {
    forall k :: 0 <= k < |s| ==> s[k] < n
  }

  /** `cmpAgents(x, y) <= 0`: the sort may keep agent `x` in front of agent `y`. */
  predicate Ahead(agents: seq<Agent>, tasks: seq<Task>, x: nat, y: nat)
    requires AllKnown(agents, tasks) && x < |agents| && y < |agents|
  {
    CmpAgents(agents[x], agents[y], tasks) <= 0
  }

  /** Inserts agent `i` in front of the first agent it may precede. */
  function InsertRank(agents: seq<Agent>, tasks: seq<Task>, i: nat, s: seq<nat>): (r: seq<nat>)
    requires AllKnown(agents, tasks) && i < |agents| && Within(s, |agents|)
    ensures multiset(r) == multiset(s) + multiset{i} && Within(r, |agents|)
  {
    if s == [] || Ahead(agents, tasks, i, s[0]) then [i] + s
    else
      assert s == [s[0]] + s[1..];
      [s[0]] + InsertRank(agents, tasks, i, s[1..])
  }

  /** Stable insertion sort of agent numbers by `cmpAgents`. */
  function SortRank(agents: seq<Agent>, tasks: seq<Task>, s: seq<nat>): (r: seq<nat>)
    requires AllKnown(agents, tasks) && Within(s, |agents|)
    ensures multiset(r) == multiset(s) && Within(r, |agents|)
  {
    if s == [] then []
    else
      assert s == [s[0]] + s[1..];
      InsertRank(agents, tasks, s[0], SortRank(agents, tasks, s[1..]))
  }

  /** `[...agents.values()].sort(cmpAgents)`: every agent, in priority order. */
  function ByRank(agents: seq<Agent>, tasks: seq<Task>): (r: seq<nat>)
    requires AllKnown(agents, tasks)
  {
    SortRank(agents, tasks, Ordering.Indices(|agents|))
  }

  /** No agent comes after one of lower priority. */
  ghost predicate Ranked(agents: seq<Agent>, tasks: seq<Task>, s: seq<nat>)
    requires AllKnown(agents, tasks) && Within(s, |agents|)
  {
    forall a, b :: 0 <= a < b < |s| ==> !Higher(Priority(agents[s[b]], tasks), Priority(agents[s[a]], tasks))
  }

  lemma {:induction false} InsertRankRanked(agents: seq<Agent>, tasks: seq<Task>, i: nat, s: seq<nat>)
    requires AllKnown(agents, tasks) && i < |agents| && Within(s, |agents|) && Ranked(agents, tasks, s)
    ensures Ranked(agents, tasks, InsertRank(agents, tasks, i, s))
  {
    var P := (k: nat) requires k < |agents| => Priority(agents[k], tasks);
    if s == [] || Ahead(agents, tasks, i, s[0]) {
      forall b | 0 <= b < |s|
        ensures !Higher(P(s[b]), P(i))
      {
        HigherOrder(P(s[b]), P(s[0]), P(i));
        if b > 0 {
          assert !Higher(P(s[b]), P(s[0]));
          HigherOrder(P(s[0]), P(s[b]), P(i));
        }
      }
      RankedCons(agents, tasks, i, s);
    } else {
      var t := InsertRank(agents, tasks, i, s[1..]);
      InsertRankRanked(agents, tasks, i, s[1..]);
      forall b | 0 <= b < |t|
        ensures !Higher(P(t[b]), P(s[0]))
      {
        assert t[b] in multiset(t);
        if t[b] != i {
          assert t[b] in multiset(s[1..]);
          var m :| 0 <= m < |s[1..]| && s[1..][m] == t[b];
          assert s[1..][m] == s[m + 1];
        } else {
          HigherOrder(P(s[0]), P(i), P(i));
        }
      }
      RankedCons(agents, tasks, s[0], t);
    }
  }

  /** A ranked list stays ranked behind an agent none of its members outranks. */
  lemma RankedCons(agents: seq<Agent>, tasks: seq<Task>, x: nat, t: seq<nat>)
    requires AllKnown(agents, tasks) && x < |agents| && Within(t, |agents|) && Ranked(agents, tasks, t)
    requires forall b :: 0 <= b < |t| ==> !Higher(Priority(agents[t[b]], tasks), Priority(agents[x], tasks))
    ensures Within([x] + t, |agents|) && Ranked(agents, tasks, [x] + t)
  {
    var r := [x] + t;
    forall a, b | 0 <= a < b < |r|
      ensures !Higher(Priority(agents[r[b]], tasks), Priority(agents[r[a]], tasks))
    {
      assert r[b] == t[b - 1];
      if a > 0 {
        assert r[a] == t[a - 1];
      }
    }
  }

  lemma {:induction false} SortRankRanked(agents: seq<Agent>, tasks: seq<Task>, s: seq<nat>)
    requires AllKnown(agents, tasks) && Within(s, |agents|)
    ensures Ranked(agents, tasks, SortRank(agents, tasks, s))
  {
    if s != [] {
      SortRankRanked(agents, tasks, s[1..]);
      InsertRankRanked(agents, tasks, s[0], SortRank(agents, tasks, s[1..]));
    }
  }

  lemma {:induction false} IndicesOnce(n: nat, x: nat)
    ensures multiset(Ordering.Indices(n))[x] <= 1
  {
    if n > 0 {
      IndicesOnce(n - 1, x);
      var s := Ordering.Indices(n - 1);
      assert Ordering.Indices(n) == s + [n - 1];
      if x == n - 1 {
        assert x !in s;
      }
    }
  }

  /** A rearrangement of `0..n-1` has length `n`, holds every number below `n`, and none twice. */
  lemma Rearranged(r: seq<nat>, n: nat)
    requires multiset(r) == multiset(Ordering.Indices(n))
    ensures |r| == n && Within(r, n)
    ensures forall i :: 0 <= i < n ==> i in r
    ensures forall a, b :: 0 <= a < b < |r| ==> r[a] != r[b]
  {
    var ids := Ordering.Indices(n);
    assert |r| == |multiset(r)| == |multiset(ids)| == |ids|;
    forall k | 0 <= k < |r|
      ensures r[k] < n
    {
      assert r[k] in multiset(r);
    }
    forall i | 0 <= i < n
      ensures i in r
    {
      assert ids[i] == i;
      assert i in multiset(ids);
    }
    forall a, b | 0 <= a < b < |r|
      ensures r[a] != r[b]
    {
      if r[a] == r[b] {
        assert multiset(r)[r[a]] >= 2 by {
          assert r == r[..a] + [r[a]] + r[a + 1..b] + [r[b]] + r[b + 1..];
        }
        IndicesOnce(n, r[a]);
      }
    }
  }

  /**
   * The planning order lists every agent exactly once, and no agent comes after one of lower
   * priority.
   */
  lemma ByRankSpec(agents: seq<Agent>, tasks: seq<Task>)
    requires AllKnown(agents, tasks)
    ensures |ByRank(agents, tasks)| == |agents| && Within(ByRank(agents, tasks), |agents|)
    ensures forall i :: 0 <= i < |agents| ==> i in ByRank(agents, tasks)
    ensures forall a, b :: 0 <= a < b < |agents| ==> ByRank(agents, tasks)[a] != ByRank(agents, tasks)[b]
    ensures Ranked(agents, tasks, ByRank(agents, tasks))
    ensures DistinctIds(agents) ==> forall a, b :: 0 <= a < b < |agents| ==>
      Higher(Priority(agents[ByRank(agents, tasks)[a]], tasks), Priority(agents[ByRank(agents, tasks)[b]], tasks))
  {
    var r := ByRank(agents, tasks);
    SortRankRanked(agents, tasks, Ordering.Indices(|agents|));
    Rearranged(r, |agents|);
    if DistinctIds(agents) {
      forall a, b | 0 <= a < b < |agents|
        ensures Higher(Priority(agents[r[a]], tasks), Priority(agents[r[b]], tasks))
      {
        var pa, pb := Priority(agents[r[a]], tasks), Priority(agents[r[b]], tasks);
        assert pa.id != pb.id;
        HigherOrder(pa, pb, pb);
      }
    }
  }

  /** No two agents share an id. */
  predicate DistinctIds(agents: seq<Agent>)
  {
    forall i, j :: 0 <= i < j < |agents| ==> agents[i].id != agents[j].id
  }

  /**
   * What stays when ids and cells stay: distinct ids and distinct task ids. Known agents stay
   * known when only the agents' cells change.
   */
  lemma FrameKeeps(a0: seq<Agent>, t0: seq<Task>, a1: seq<Agent>, t1: seq<Task>)
    requires |a1| == |a0| && |t1| == |t0|
    requires forall i :: 0 <= i < |a0| ==> a1[i].id == a0[i].id
    requires forall j :: 0 <= j < |t0| ==> t1[j].id == t0[j].id
    ensures DistinctIds(a0) ==> DistinctIds(a1)
    ensures DistinctTaskIds(t0) ==> DistinctTaskIds(t1)
    ensures t1 == t0 && (forall i :: 0 <= i < |a0| ==> a1[i] == a0[i].(pos := a1[i].pos)) && AllKnown(a0, t0) ==>
      AllKnown(a1, t1)
  {
    if t1 == t0 && (forall i :: 0 <= i < |a0| ==> a1[i] == a0[i].(pos := a1[i].pos)) && AllKnown(a0, t0) {
      forall i | 0 <= i < |a1|
        ensures Known(a1[i], t1)
      {
        assert Known(a0[i], t0);
      }
    }
  }

  /** No two tasks share an id. */
  predicate DistinctTaskIds(tasks: seq<Task>)
  {
    forall i, j :: 0 <= i < j < |tasks| ==> tasks[i].id != tasks[j].id
  }

  // The moves.

  /** `v(toKey)` as a cell: both parts read as numbers. */
  function Cell(d: Decoded): (r: Option<Vec>)
    ensures r.Some? <==> d.x.Num? && d.y.Some? && d.y.value.Num?
  {
    match d
    case Decoded(Num(x), Some(Num(y))) => Some(Vec(x, y))
    case _ => None
  }

  /** Reading back a cell's key gives the cell. */
  lemma CellOfKey(p: Vec)
    ensures Cell(V(K(p))) == Some(p)
  {
    KeyRoundTrip(p);
  }

  /** Every agent on the cell `Next` gives it: its plan entry, or where it stood. */
  function Moved(agents: seq<Agent>, plan: map<nat, Vec>): (r: seq<Agent>)
    ensures |r| == |agents|
    ensures forall i :: 0 <= i < |agents| ==> r[i] == agents[i].(pos := r[i].pos)
  {
    seq(|agents|, i requires 0 <= i < |agents| => agents[i].(pos := Next(agents, plan, i)))
  }

  /**
   * A sound plan moves every agent to one of its offered cells, leaves no two agents on one
   * cell, and, when it is swap-free, lets no two agents trade cells.
   */
  lemma MovedSpec(g: Grid, agents: seq<Agent>, plan: map<nat, Vec>)
    requires Spread(agents) && Planned(g, agents, plan)
    ensures Spread(Moved(agents, plan))
    ensures forall i :: 0 <= i < |agents| ==> Moved(agents, plan)[i].pos in Neigh(g, agents[i].pos)
    ensures NoSwap(agents, plan) ==> forall i, j :: 0 <= i < |agents| && 0 <= j < |agents| && i != j ==>
      !(Moved(agents, plan)[i].pos == agents[j].pos && Moved(agents, plan)[j].pos == agents[i].pos)
  {
    FinalCells(g, agents, plan);
  }

  // Task progress.

  /**
   * One turn of the progress loop: an agent on its way that stands on its pickup starts
   * carrying and marks the task picked; a carrier on its delivery frees itself and marks the
   * task done and unowned.
   */
  function Advance(agents: seq<Agent>, tasks: seq<Task>, i: nat): (r: (seq<Agent>, seq<Task>))
    requires i < |agents| && Known(agents[i], tasks)
  {
    var a := agents[i];
    if a.mode == ToPickup && a.taskId.Some? then
      var j := TaskOf(tasks, a.taskId.value).value;
      if a.pos == tasks[j].pickup then (agents[i := a.(mode := Carrying)], tasks[j := tasks[j].(picked := true)])
      else (agents, tasks)
    else if a.mode == Carrying && a.taskId.Some? then
      var j := TaskOf(tasks, a.taskId.value).value;
      if a.pos == tasks[j].delivery then
        (agents[i := a.(mode := Free, taskId := None)], tasks[j := tasks[j].(done := true, assignedTo := None)])
      else (agents, tasks)
    else (agents, tasks)
  }

  /**
   * A turn of the progress loop keeps ids and cells and every agent known; the agent moves on
   * exactly when it stands on the cell its task sends it to, and then its task records it.
   */
  lemma AdvanceSpec(agents: seq<Agent>, tasks: seq<Task>, i: nat)
    requires i < |agents| && AllKnown(agents, tasks)
    ensures SameFrame(agents, tasks, Advance(agents, tasks, i).0, Advance(agents, tasks, i).1)
    ensures AllKnown(Advance(agents, tasks, i).0, Advance(agents, tasks, i).1)
    ensures forall k :: 0 <= k < |agents| && k != i ==> Advance(agents, tasks, i).0[k] == agents[k]
    ensures (Advance(agents, tasks, i).0[i] != agents[i] <==>
               agents[i].mode != Free && agents[i].taskId.Some? && agents[i].pos == TargetOf(agents[i], tasks))
    ensures (agents[i].mode == ToPickup && Advance(agents, tasks, i).0[i] != agents[i] ==>
               Advance(agents, tasks, i).0[i].mode == Carrying && Advance(agents, tasks, i).0[i].taskId == agents[i].taskId
               && Advance(agents, tasks, i).1[TaskOf(tasks, agents[i].taskId.value).value].picked)
    ensures (agents[i].mode == Carrying && Advance(agents, tasks, i).0[i] != agents[i] ==>
               Advance(agents, tasks, i).0[i].mode == Free && Advance(agents, tasks, i).0[i].taskId.None?
               && Advance(agents, tasks, i).1[TaskOf(tasks, agents[i].taskId.value).value].done
               && Advance(agents, tasks, i).1[TaskOf(tasks, agents[i].taskId.value).value].assignedTo.None?)
  {
    var r := Advance(agents, tasks, i);
    KnownKept(agents, tasks, r.0, r.1);
  }

  /** The progress loop over the first `n` agents, in list order. */
  function Advanced(agents: seq<Agent>, tasks: seq<Task>, n: nat): (r: (seq<Agent>, seq<Task>))
    requires n <= |agents| && AllKnown(agents, tasks)
    ensures |r.0| == |agents| && |r.1| == |tasks|
    decreases n, 1
  {
    if n == 0 then (agents, tasks)
    else
      var p := Advanced(agents, tasks, n - 1);
      AdvancedSpec(agents, tasks, n - 1);
      AdvanceSpec(p.0, p.1, n - 1);
      Advance(p.0, p.1, n - 1)
  }

  /** The progress loop keeps ids, cells and known agents. */
  lemma {:induction false} AdvancedSpec(agents: seq<Agent>, tasks: seq<Task>, n: nat)
    requires n <= |agents| && AllKnown(agents, tasks)
    ensures SameFrame(agents, tasks, Advanced(agents, tasks, n).0, Advanced(agents, tasks, n).1)
    ensures AllKnown(Advanced(agents, tasks, n).0, Advanced(agents, tasks, n).1)
    decreases n, 2
  {
    if n > 0 {
      var p := Advanced(agents, tasks, n - 1);
      AdvancedSpec(agents, tasks, n - 1);
      AdvanceSpec(p.0, p.1, n - 1);
      SameFrameTrans(agents, tasks, p.0, p.1, Advance(p.0, p.1, n - 1).0, Advance(p.0, p.1, n - 1).1);
    }
  }

  // The step.

  /** The fleet and the task list, whose entries `step` updates in place. */
  class Floor {
    const g: Grid
    var agents: seq<Agent>
    var tasks: seq<Task>

    /** Ids are unique, no two agents share a cell, and every agent under way names a stored task. */
    ghost predicate Valid()
      reads this
    {
      DistinctIds(agents) && DistinctTaskIds(tasks) && Spread(agents) && AllKnown(agents, tasks)
    }

    constructor (g: Grid, agents: seq<Agent>, tasks: seq<Task>)
      ensures this.g == g && this.agents == agents && this.tasks == tasks
    {
      this.g, this.agents, this.tasks := g, agents, tasks;
    }

    /** The assignment loop: every free agent in turn takes the nearest open task, if any. */
    method AssignFree()
      modifies this
      ensures (agents, tasks) == Assigned(old(agents), old(tasks), |old(agents)|)
    {
      ghost var a0, t0 := agents, tasks;
      for i := 0 to |agents|
        invariant (agents, tasks) == Assigned(a0, t0, i)
      {
        assert Assigned(a0, t0, i + 1) == AssignOne(agents, tasks, i);
        if agents[i].mode == Free {
          var c := Pick(agents[i].pos, tasks);
          if c.Some? {
            var j := c.value;
            tasks := tasks[j := tasks[j].(assignedTo := Some(agents[i].id))];
            agents := agents[i := agents[i].(mode := ToPickup, taskId := Some(tasks[j].id))];
          }
        }
      }
    }

    /**
     * The move loop: in planning order, each agent reads back the key of its plan entry, or of
     * its own cell, and stands there.
     */
    method MoveAll(order: seq<nat>, plan: map<nat, Vec>)
      requires Within(order, |agents|) && forall i :: 0 <= i < |agents| ==> i in order
      requires forall a, b :: 0 <= a < b < |order| ==> order[a] != order[b]
      modifies this`agents
      ensures agents == Moved(old(agents), plan)
    {
      ghost var a0 := agents;
      for k := 0 to |order|
        invariant |agents| == |a0|
        invariant forall i :: 0 <= i < |a0| ==> agents[i] == if i in order[..k] then Moved(a0, plan)[i] else a0[i]
      {
        var i := order[k];
        assert order[..k + 1] == order[..k] + [i];
        assert i !in order[..k];
        var toKey := if i in plan then K(plan[i]) else K(agents[i].pos);
        var next := Cell(V(toKey));
        CellOfKey(if i in plan then plan[i] else agents[i].pos);
        agents := agents[i := agents[i].(pos := next.value)];
      }
      assert order[..|order|] == order;
    }

    /** The progress loop: every agent in turn advances its task if it stands on the task's cell. */
    method AdvanceAll()
      requires AllKnown(agents, tasks)
      modifies this
      ensures (agents, tasks) == Advanced(old(agents), old(tasks), |old(agents)|)
    {
      ghost var a0, t0 := agents, tasks;
      for i := 0 to |agents|
        invariant (agents, tasks) == Advanced(a0, t0, i)
      {
        AdvancedSpec(a0, t0, i);
        assert Advanced(a0, t0, i + 1) == Advance(agents, tasks, i);
        AdvanceAt(i);
      }
    }

    /** One turn of the progress loop, for agent `i`. */
    method AdvanceAt(i: nat)
      requires i < |agents| && AllKnown(agents, tasks)
      modifies this
      ensures (agents, tasks) == Advance(old(agents), old(tasks), i)
    {
      var a := agents[i];
      if a.mode == ToPickup && a.taskId.Some? {
        var j := TaskOf(tasks, a.taskId.value).value;
        if a.pos == tasks[j].pickup {
          tasks := tasks[j := tasks[j].(picked := true)];
          agents := agents[i := a.(mode := Carrying)];
        }
      } else if a.mode == Carrying && a.taskId.Some? {
        var j := TaskOf(tasks, a.taskId.value).value;
        if a.pos == tasks[j].delivery {
          tasks := tasks[j := tasks[j].(done := true, assignedTo := None)];
          agents := agents[i := a.(mode := Free, taskId := None)];
        }
      }
    }

    /**
     * `step`: assignment, planning in priority order (each agent planned at most once), the
     * moves, then task progress. Returns the plan it followed. The fleet stays valid; every
     * agent ends on one of the cells offered to it, and no two agents trade cells.
     */
    method Step() returns (plan: map<nat, Vec>)
      requires Valid()
      modifies this
      ensures Valid()
      ensures Planned(g, Assigned(old(agents), old(tasks), |old(agents)|).0, plan)
      ensures NoSwap(Assigned(old(agents), old(tasks), |old(agents)|).0, plan)
      ensures AllKnown(Assigned(old(agents), old(tasks), |old(agents)|).0, Assigned(old(agents), old(tasks), |old(agents)|).1)
      ensures (agents, tasks) == Advanced(Moved(Assigned(old(agents), old(tasks), |old(agents)|).0, plan),
                                          Assigned(old(agents), old(tasks), |old(agents)|).1, |old(agents)|)
      ensures |agents| == |old(agents)|
      ensures forall i :: 0 <= i < |agents| ==> agents[i].pos in Neigh(g, old(agents)[i].pos)
      ensures forall i, j :: 0 <= i < |agents| && 0 <= j < |agents| && i != j ==>
        !(agents[i].pos == old(agents)[j].pos && agents[j].pos == old(agents)[i].pos)
    {
      ghost var a0, t0 := agents, tasks;
      AssignFree();
      AssignedSpec(a0, t0, |a0|);
      var a1, t1 := agents, tasks;
      FrameKeeps(a0, t0, a1, t1);
      var order;
      order, plan := PlanMoves();
      MovedSpec(g, a1, plan);
      MoveAll(order, plan);
      ghost var a2 := agents;
      FrameKeeps(a1, t1, a2, t1);
      AdvanceAll();
      AdvancedSpec(a2, t1, |a2|);
      FrameKeeps(a2, t1, agents, tasks);
    }

    /**
     * The planning part of `step`: the agents in priority order, each planned at most once
     * with the guarded `pibt`, give a sound, swap-free plan.
     */
    method PlanMoves() returns (order: seq<nat>, plan: map<nat, Vec>)
      requires DistinctIds(agents) && Spread(agents) && AllKnown(agents, tasks)
      ensures Within(order, |agents|) && forall i :: 0 <= i < |agents| ==> i in order
      ensures forall a, b :: 0 <= a < b < |order| ==> order[a] != order[b]
      ensures Planned(g, agents, plan) && NoSwap(agents, plan)
    {
      order := ByRank(agents, tasks);
      ByRankSpec(agents, tasks);
      var planner := new Planner(g, agents, tasks);
      planner.PlanGuarded(order);
      plan := planner.plan;
    }
  }
}
