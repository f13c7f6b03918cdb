/**
 * The loader / dump / charger simulation of the Python server (server/abomination.py,
 * `Simulator`). Every agent cycles through: drive to a claimed loader, wait there for a drawn
 * number of steps, drive to a claimed dump, then back to a loader, or to a charger when its
 * battery is low. When no station of the wanted kind is free the agent joins the shortest
 * queue and parks on a staging cell until the queue hands it the station. Cells are the
 * `y*w+x` ids of the server grid; `dist(target, pos)` stands for `dist_to`, the cached BFS
 * table of `target` read at `pos` (see DistTables.ServerDistTable); the random draws are
 * parameters.
 */
module ServerSim {
  import opened Wrappers
  import Stations
  import ServerGrid
  import DistTables
  import PathSearch
  import ResolverStep
  import Ordering

  datatype GoalKind = LoadGoal | DumpGoal | ChargeGoal | StagingGoal | StayGoal
  datatype Mode = ToLoad | AtLoadWait | ToDump | ToCharge | Charging | Staging | Stay
  /** The station kinds `'L'`, `'D'` and `'C'` of a claim. */
  datatype Kind = LoaderKind | DumpKind | ChargerKind

  /** `AgentState`; `claim` is the station the agent holds, as a kind and an index. */
  datatype AgentState = AgentState(goalKind: GoalKind, goal: nat, battery: nat, dwell: nat,
                                   claim: Option<(Kind, nat)>, mode: Mode)

  /** `max(0, b - 1)`: the battery after a move. */
  function Drain(b: nat): nat
  {
    if b > 0 then b - 1 else 0
  }

  /** `min(cap, b + rate)`: the battery after one step on a charger. */
  function Charge(b: nat, rate: nat, cap: nat): nat
  {
    if b + rate < cap then b + rate else cap
  }

  function Max(a: int, b: int): int
  {
    if a >= b then a else b
  }

  /** The goal kind of a claimed station of each kind. */
  function GoalOf(kind: Kind): GoalKind
  {
    match kind
    case LoaderKind => LoadGoal
    case DumpKind => DumpGoal
    case ChargerKind => ChargeGoal
  }

  /** The mode of an agent on its way to a claimed station of each kind. */
  function ModeOf(kind: Kind): Mode
  {
    match kind
    case LoaderKind => ToLoad
    case DumpKind => ToDump
    case ChargerKind => ToCharge
  }

  /** Every cell of `cells` lies on a grid of `m` cells. */
  predicate CellsIn(cells: seq<nat>, m: nat)
  {
    forall k :: 0 <= k < |cells| ==> cells[k] < m
  }

  /** Every agent waiting at a station of `S` is one of the `n` agents. */
  ghost predicate QueuedBelow(S: Stations.StationSet, n: nat)
    reads S
  {
    forall k, j :: 0 <= k < |S.queue| && 0 <= j < |S.queue[k]| ==> S.queue[k][j] < n
  }

  /** A well-formed, non-empty set of stations on a grid of `m` cells, whose queues hold only the `n` agents. */
  ghost predicate Serving(S: Stations.StationSet, m: nat, n: nat)
    reads S
  {
    S.Valid() && |S.cells| > 0 && CellsIn(S.cells, m) && QueuedBelow(S, n)
  }

  /** Stations whose queues are all empty serve any number of agents. */
  lemma EmptyServing(S: Stations.StationSet, m: nat, n: nat)
    requires S.Valid() && |S.cells| > 0 && CellsIn(S.cells, m)
    requires S.queue == seq(|S.cells|, _ => [])
    ensures Serving(S, m, n)
  {
    assert forall k :: 0 <= k < |S.queue| ==> |S.queue[k]| == 0;
  }

  /**
   * Agent `i` joins a shortest queue of `S` (the first of the shortest): it ends up waiting
   * there, or holding that station already; no other queue and no holder changes.
   */
  method JoinShortest(S: Stations.StationSet, i: nat, n: nat) returns (k: nat)
    requires S.Valid() && |S.cells| > 0 && QueuedBelow(S, n) && i < n
    modifies S
    ensures S.Valid() && QueuedBelow(S, n)
    ensures k < |S.cells| && S.holder == old(S.holder)
    ensures forall j :: 0 <= j < |S.cells| ==> |old(S.queue[k])| <= |old(S.queue[j])|
    ensures i in S.queue[k] || S.holder[k] == Some(i)
    ensures forall j :: 0 <= j < |S.cells| && j != k ==> S.queue[j] == old(S.queue[j])
  {
    k := ShortestQueue(S);
    S.Enqueue(k, i);
    forall c, j | 0 <= c < |S.queue| && 0 <= j < |S.queue[c]|
      ensures S.queue[c][j] < n
    {
      if c == k && j == |S.queue[c]| - 1 && S.queue[c] != old(S.queue[c]) {
        assert S.queue[c][j] == i;
      } else {
        assert S.queue[c][j] == old(S.queue[c][j]);
      }
    }
  }

  /** The priorities `__init__` starts from: each agent's distance to its goal over the grid size. */
  function StartPriorities(dist: (nat, nat) -> int, states: seq<AgentState>, starts: seq<nat>, m: nat): (r: seq<real>)
    requires |states| == |starts| && (|starts| > 0 ==> m > 0) && forall a, b :: dist(a, b) >= 0
    ensures |r| == |starts|
    ensures forall i :: 0 <= i < |starts| ==> r[i] == (dist(states[i].goal, starts[i]) as real) / (m as real)
    ensures forall i :: 0 <= i < |starts| ==> r[i] >= 0.0
  {
    var r := seq(|starts|, i requires 0 <= i < |starts| => (dist(states[i].goal, starts[i]) as real) / (m as real));
    assert forall i :: 0 <= i < |starts| ==> r[i] >= 0.0 by {
      forall i | 0 <= i < |starts|
        ensures r[i] >= 0.0
      {
        NonNegativeRatio(dist(states[i].goal, starts[i]) as real, m as real);
      }
    }
    r
  }

  /**
   * Station `k`, free with agents waiting, goes to the head of its queue (one of the `n`
   * agents), which leaves the queue.
   */
  method PopHead(S: Stations.StationSet, k: nat, n: nat) returns (a: nat)
    requires S.Valid() && QueuedBelow(S, n) && k < |S.cells| && S.holder[k].None? && S.queue[k] != []
    modifies S
    ensures S.Valid() && QueuedBelow(S, n) && a < n
    ensures a == old(S.queue[k][0])
    ensures S.holder == old(S.holder)[k := Some(a)] && S.queue == old(S.queue)[k := old(S.queue[k][1..])]
  {
    var r := S.PopNext(k);
    a := r.value;
    forall c, j | 0 <= c < |S.queue| && 0 <= j < |S.queue[c]|
      ensures S.queue[c][j] < n
    {
      if c == k {
        assert S.queue[c][j] == old(S.queue[c][j + 1]);
      } else {
        assert S.queue[c][j] == old(S.queue[c][j]);
      }
    }
  }

  /** A walk that starts in a set closed under `nbrs` ends in it. */
  lemma {:induction false} WalkStays(nbrs: nat -> seq<nat>, vis: set<nat>, p: seq<nat>, a: nat, b: nat)
    requires forall v, u :: v in vis && u in nbrs(v) ==> u in vis
    requires a in vis && DistTables.Walk(nbrs, p, a, b)
    ensures b in vis
    decreases |p|
  {
    if |p| > 1 {
      assert p[1] in nbrs(p[0]);
      var q := p[1..];
      assert DistTables.Walk(nbrs, q, p[1], b) by {
        forall k | 0 <= k < |q| - 1 ensures q[k + 1] in nbrs(q[k]) {
          assert q[k] == p[k + 1] && q[k + 1] == p[k + 2];
        }
      }
      WalkStays(nbrs, vis, q, p[1], b);
    }
  }

  /** A free cell outside `reserved`. */
  predicate Fine(free: seq<bool>, reserved: set<nat>, c: nat)
  {
    c < |free| && free[c] && c !in reserved
  }

  /**
   * Marks the unvisited cells of `ns` visited and appends them to the queue, in order; each
   * newly marked cell `v` is reached by the walk `p + [v]`.
   */
  method Discover(ns: seq<nat>, m: nat, visited: set<nat>, queue: seq<nat>,
                  ghost paths: map<nat, seq<nat>>, ghost p: seq<nat>)
    returns (vis: set<nat>, q: seq<nat>, ghost ps: map<nat, seq<nat>>)
    requires forall x :: 0 <= x < |ns| ==> ns[x] < m
    ensures visited <= vis && forall v :: v in vis && v !in visited ==> v < m && v in q && v in ns
    ensures forall x :: 0 <= x < |ns| ==> ns[x] in vis
    ensures |queue| <= |q| && q[..|queue|] == queue
    ensures forall x :: |queue| <= x < |q| ==> q[x] in vis && q[x] !in visited
    ensures vis == visited ==> q == queue
    ensures forall v :: v in visited && v in paths ==> v in ps && ps[v] == paths[v]
    ensures forall v :: v in vis && v !in visited ==> v in ps && ps[v] == p + [v]
  {
    vis, q, ps := visited, queue, paths;
    for j := 0 to |ns|
      invariant visited <= vis && forall v :: v in vis && v !in visited ==> v < m && v in q && v in ns[..j]
      invariant forall x :: 0 <= x < j ==> ns[x] in vis
      invariant |queue| <= |q| && q[..|queue|] == queue
      invariant forall x :: |queue| <= x < |q| ==> q[x] in vis && q[x] !in visited
      invariant vis == visited ==> q == queue
      invariant forall v :: v in visited && v in paths ==> v in ps && ps[v] == paths[v]
      invariant forall v :: v in vis && v !in visited ==> v in ps && ps[v] == p + [v]
    {
      assert ns[..j + 1] == ns[..j] + [ns[j]];
      if ns[j] !in vis {
        vis := vis + {ns[j]};
        q := q + [ns[j]];
        ps := ps[ns[j] := p + [ns[j]]];
      }
    }
    assert ns[..|ns|] == ns;
  }

  /** Every visited cell has a recorded walk from `target`; `target`'s own is `[target]`. */
  ghost predicate Rooted(nbrs: nat -> seq<nat>, target: nat, visited: set<nat>, paths: map<nat, seq<nat>>)
  {
    target in visited && target in paths && paths[target] == [target] &&
    forall v :: v in visited ==> v in paths && DistTables.Walk(nbrs, paths[v], target, v)
  }

  /** The queue is ordered by walk length and spans at most two lengths. */
  ghost predicate Ordered(queue: seq<nat>, paths: map<nat, seq<nat>>)
  {
    (forall j :: 0 <= j < |queue| ==> queue[j] in paths) &&
    forall i, j :: 0 <= i <= j < |queue| ==>
      |paths[queue[i]]| <= |paths[queue[j]]| <= |paths[queue[0]]| + 1
  }

  /** A cell taken off the queue has a walk no longer than any queued cell's. */
  ghost predicate Behind(visited: set<nat>, queue: seq<nat>, paths: map<nat, seq<nat>>)
  {
    forall v, j :: v in visited && v !in queue && v in paths && 0 <= j < |queue| && queue[j] in paths ==>
      |paths[v]| <= |paths[queue[j]]|
  }

  /** The neighbours of a cell taken off the queue are visited, with walks at most one step longer. */
  ghost predicate Expanded(nbrs: nat -> seq<nat>, visited: set<nat>, queue: seq<nat>, paths: map<nat, seq<nat>>)
  {
    forall v, u :: v in visited && v !in queue && u in nbrs(v) ==>
      u in visited && u in paths && v in paths && |paths[u]| <= |paths[v]| + 1
  }

  /** The state of a breadth-first scan from `target`, with the walk each visited cell was reached by. */
  ghost predicate Layered(nbrs: nat -> seq<nat>, target: nat, visited: set<nat>, queue: seq<nat>,
                          paths: map<nat, seq<nat>>)
  {
    Rooted(nbrs, target, visited, paths) && (forall j :: 0 <= j < |queue| ==> queue[j] in visited) &&
    Ordered(queue, paths) && Behind(visited, queue, paths) && Expanded(nbrs, visited, queue, paths)
  }

  /** `p` reaches `c` from `target`, and no shorter walk from `target` reaches a fine cell. */
  ghost predicate NearestBy(nbrs: nat -> seq<nat>, free: seq<bool>, reserved: set<nat>, target: nat,
                            c: nat, p: seq<nat>)
  {
    DistTables.Walk(nbrs, p, target, c) &&
    forall q, d :: DistTables.Walk(nbrs, q, target, d) && |q| < |p| ==> !Fine(free, reserved, d)
  }

  /**
   * One round of the scan: the head `y` of `queue0` is taken off, its unvisited neighbours are
   * visited and queued after the rest, each reached by `y`'s walk extended by one step.
   */
  ghost predicate Expansion(nbrs: nat -> seq<nat>, visited0: set<nat>, queue0: seq<nat>, paths0: map<nat, seq<nat>>,
                            visited: set<nat>, queue: seq<nat>, paths: map<nat, seq<nat>>)
  {
    queue0 != [] && queue0[0] in paths0 && visited0 <= visited &&
    (forall u :: u in nbrs(queue0[0]) ==> u in visited) &&
    |queue0| - 1 <= |queue| && queue[..|queue0| - 1] == queue0[1..] &&
    (forall x :: |queue0| - 1 <= x < |queue| ==> queue[x] in visited && queue[x] !in visited0) &&
    (forall v :: v in visited && v !in visited0 ==>
       v in queue && v in nbrs(queue0[0]) && v in paths && paths[v] == paths0[queue0[0]] + [v]) &&
    (forall v :: v in visited0 && v in paths0 ==> v in paths && paths[v] == paths0[v])
  }

  /** After a round, the old tail leads the queue and every queued walk is one or two steps past `y`'s. */
  lemma StepQueue(nbrs: nat -> seq<nat>, target: nat, visited0: set<nat>, queue0: seq<nat>,
                  paths0: map<nat, seq<nat>>, visited: set<nat>, queue: seq<nat>, paths: map<nat, seq<nat>>)
    requires Layered(nbrs, target, visited0, queue0, paths0)
    requires Expansion(nbrs, visited0, queue0, paths0, visited, queue, paths)
    ensures forall j :: 0 <= j < |queue0| - 1 ==> queue[j] == queue0[j + 1]
    ensures forall j :: 0 <= j < |queue| ==>
              queue[j] in visited && queue[j] in paths &&
              |paths0[queue0[0]]| <= |paths[queue[j]]| <= |paths0[queue0[0]]| + 1 &&
              (|queue0| - 1 <= j ==> |paths[queue[j]]| == |paths0[queue0[0]]| + 1)
  {
    var n := |queue0| - 1;
    forall j | 0 <= j < n ensures queue[j] == queue0[j + 1] {
      assert queue[..n][j] == queue0[1..][j];
    }
    forall j | 0 <= j < |queue|
      ensures queue[j] in visited && queue[j] in paths &&
        |paths0[queue0[0]]| <= |paths[queue[j]]| <= |paths0[queue0[0]]| + 1
    {
      if j < n {
        assert queue[j] == queue0[j + 1];
      }
    }
  }

  /** After a round, a cell off the queue is `y` or was already off it. */
  lemma StepDequeued(nbrs: nat -> seq<nat>, target: nat, visited0: set<nat>, queue0: seq<nat>,
                     paths0: map<nat, seq<nat>>, visited: set<nat>, queue: seq<nat>, paths: map<nat, seq<nat>>)
    requires Layered(nbrs, target, visited0, queue0, paths0)
    requires Expansion(nbrs, visited0, queue0, paths0, visited, queue, paths)
    ensures forall v :: v in visited && v !in queue ==> v in visited0 && (v == queue0[0] || v !in queue0)
  {
    StepQueue(nbrs, target, visited0, queue0, paths0, visited, queue, paths);
    forall v | v in visited && v !in queue
      ensures v in visited0 && (v == queue0[0] || v !in queue0)
    {
      forall j | 1 <= j < |queue0| ensures queue0[j] != v {
        assert queue[j - 1] == queue0[j];
      }
    }
  }

  /** A round keeps the recorded walks. */
  lemma StepRooted(nbrs: nat -> seq<nat>, target: nat, visited0: set<nat>, queue0: seq<nat>,
                   paths0: map<nat, seq<nat>>, visited: set<nat>, queue: seq<nat>, paths: map<nat, seq<nat>>)
    requires Layered(nbrs, target, visited0, queue0, paths0)
    requires Expansion(nbrs, visited0, queue0, paths0, visited, queue, paths)
    ensures Rooted(nbrs, target, visited, paths)
  {
    var y := queue0[0];
    forall v | v in visited
      ensures v in paths && DistTables.Walk(nbrs, paths[v], target, v)
    {
      if v !in visited0 {
        var p := paths0[y];
        assert DistTables.Walk(nbrs, p, target, y);
        assert paths[v] == p + [v];
      }
    }
  }

  /** A round keeps the queue ordered. */
  lemma StepOrdered(nbrs: nat -> seq<nat>, target: nat, visited0: set<nat>, queue0: seq<nat>,
                    paths0: map<nat, seq<nat>>, visited: set<nat>, queue: seq<nat>, paths: map<nat, seq<nat>>)
    requires Layered(nbrs, target, visited0, queue0, paths0)
    requires Expansion(nbrs, visited0, queue0, paths0, visited, queue, paths)
    ensures Ordered(queue, paths)
  {
    StepQueue(nbrs, target, visited0, queue0, paths0, visited, queue, paths);
    forall i, j | 0 <= i <= j < |queue|
      ensures |paths[queue[i]]| <= |paths[queue[j]]| <= |paths[queue[0]]| + 1
    {
      if j < |queue0| - 1 {
        assert queue[i] == queue0[i + 1] && queue[j] == queue0[j + 1];
      }
    }
  }

  /** A round keeps the cells off the queue behind the queued ones. */
  lemma StepBehind(nbrs: nat -> seq<nat>, target: nat, visited0: set<nat>, queue0: seq<nat>,
                   paths0: map<nat, seq<nat>>, visited: set<nat>, queue: seq<nat>, paths: map<nat, seq<nat>>)
    requires Layered(nbrs, target, visited0, queue0, paths0)
    requires Expansion(nbrs, visited0, queue0, paths0, visited, queue, paths)
    ensures Behind(visited, queue, paths)
  {
    StepQueue(nbrs, target, visited0, queue0, paths0, visited, queue, paths);
    StepDequeued(nbrs, target, visited0, queue0, paths0, visited, queue, paths);
    forall v, j | v in visited && v !in queue && v in paths && 0 <= j < |queue| && queue[j] in paths
      ensures |paths[v]| <= |paths[queue[j]]|
    {
      if v != queue0[0] {
        assert |paths0[v]| <= |paths0[queue0[0]]|;
      }
    }
  }

  /** A round keeps the cells off the queue expanded. */
  lemma StepExpanded(nbrs: nat -> seq<nat>, target: nat, visited0: set<nat>, queue0: seq<nat>,
                     paths0: map<nat, seq<nat>>, visited: set<nat>, queue: seq<nat>, paths: map<nat, seq<nat>>)
    requires Layered(nbrs, target, visited0, queue0, paths0)
    requires Expansion(nbrs, visited0, queue0, paths0, visited, queue, paths)
    ensures Expanded(nbrs, visited, queue, paths)
  {
    StepDequeued(nbrs, target, visited0, queue0, paths0, visited, queue, paths);
    var y := queue0[0];
    forall v, u | v in visited && v !in queue && u in nbrs(v)
      ensures u in visited && u in paths && v in paths && |paths[u]| <= |paths[v]| + 1
    {
      if v == y && u in visited0 {
        if u in queue0 {
          var j :| 0 <= j < |queue0| && queue0[j] == u;
          assert |paths0[u]| <= |paths0[queue0[0]]| + 1;
        } else {
          assert |paths0[u]| <= |paths0[queue0[0]]|;
        }
      }
    }
  }

  /** A round keeps the scan layered; the cells it takes off the queue are `y` and those already off. */
  lemma LayeredStep(nbrs: nat -> seq<nat>, target: nat, visited0: set<nat>, queue0: seq<nat>,
                    paths0: map<nat, seq<nat>>, visited: set<nat>, queue: seq<nat>, paths: map<nat, seq<nat>>)
    requires Layered(nbrs, target, visited0, queue0, paths0)
    requires Expansion(nbrs, visited0, queue0, paths0, visited, queue, paths)
    ensures Layered(nbrs, target, visited, queue, paths)
    ensures forall v :: v in visited && v !in queue ==> v in visited0 && (v == queue0[0] || v !in queue0)
  {
    StepQueue(nbrs, target, visited0, queue0, paths0, visited, queue, paths);
    StepDequeued(nbrs, target, visited0, queue0, paths0, visited, queue, paths);
    StepRooted(nbrs, target, visited0, queue0, paths0, visited, queue, paths);
    StepOrdered(nbrs, target, visited0, queue0, paths0, visited, queue, paths);
    StepBehind(nbrs, target, visited0, queue0, paths0, visited, queue, paths);
    StepExpanded(nbrs, target, visited0, queue0, paths0, visited, queue, paths);
  }

  /** In a layered scan, a walk no longer than the head's reaches a visited cell with no longer a walk. */
  lemma {:induction false} Reach(nbrs: nat -> seq<nat>, target: nat, visited: set<nat>, queue: seq<nat>,
                                 paths: map<nat, seq<nat>>, q: seq<nat>, c: nat)
    requires Layered(nbrs, target, visited, queue, paths) && queue != []
    requires DistTables.Walk(nbrs, q, target, c) && |q| <= |paths[queue[0]]|
    ensures c in visited && |paths[c]| <= |q|
    decreases |q|
  {
    if |q| > 1 {
      var q' := q[..|q| - 1];
      var c' := q[|q| - 2];
      assert DistTables.Walk(nbrs, q', target, c') by {
        forall k | 0 <= k < |q'| - 1 ensures q'[k + 1] in nbrs(q'[k]) {
          assert q'[k] == q[k] && q'[k + 1] == q[k + 1];
        }
      }
      Reach(nbrs, target, visited, queue, paths, q', c');
      forall j | 0 <= j < |queue| ensures queue[j] != c' {
        assert |paths[queue[0]]| <= |paths[queue[j]]|;
      }
      assert c in nbrs(c');
    }
  }

  /**
   * When every cell taken off the queue is unfit, the head is a nearest fit cell if it is fit
   * at all: no shorter walk from `target` reaches a fit cell.
   */
  lemma HeadNearest(nbrs: nat -> seq<nat>, free: seq<bool>, reserved: set<nat>, target: nat,
                    visited: set<nat>, queue: seq<nat>, paths: map<nat, seq<nat>>)
    requires Layered(nbrs, target, visited, queue, paths) && queue != []
    requires forall v :: v in visited && v !in queue ==> !Fine(free, reserved, v)
    ensures NearestBy(nbrs, free, reserved, target, queue[0], paths[queue[0]])
  {
    var p := paths[queue[0]];
    forall q, d | DistTables.Walk(nbrs, q, target, d) && |q| < |p|
      ensures !Fine(free, reserved, d)
    {
      Reach(nbrs, target, visited, queue, paths, q, d);
      forall j | 0 <= j < |queue| ensures queue[j] != d {
        assert |paths[queue[0]]| <= |paths[queue[j]]|;
      }
    }
  }

  /** One round of the scan: takes the head off the queue and visits its unvisited neighbours. */
  method ExpandHead(nbrs: nat -> seq<nat>, m: nat, target: nat, visited: set<nat>, queue: seq<nat>,
                    ghost paths: map<nat, seq<nat>>)
    returns (vis: set<nat>, q: seq<nat>, ghost ps: map<nat, seq<nat>>)
    requires DistTables.Closed(m, nbrs) && queue != [] && queue[0] < m
    requires Layered(nbrs, target, visited, queue, paths) && forall v :: v in visited ==> v < m
    ensures Layered(nbrs, target, vis, q, ps) && forall v :: v in vis ==> v < m
    ensures forall v :: v in vis && v !in q ==> v in visited && (v == queue[0] || v !in queue)
    ensures visited <= vis && (vis == visited ==> |q| < |queue|)
    ensures vis != visited ==> PathSearch.Cells(m) - vis < PathSearch.Cells(m) - visited
  {
    var y := queue[0];
    var ns := nbrs(y);
    assert forall x :: 0 <= x < |ns| ==> ns[x] < m by {
      forall x | 0 <= x < |ns| ensures ns[x] < m {
        assert ns[x] in nbrs(y);
      }
    }
    vis, q, ps := Discover(ns, m, visited, queue[1..], paths, paths[y]);
    assert forall u :: u in nbrs(y) ==> u in vis by {
      forall u | u in nbrs(y) ensures u in vis {
        var x :| 0 <= x < |ns| && ns[x] == u;
      }
    }
    LayeredStep(nbrs, target, visited, queue, paths, vis, q, ps);
    assert vis != visited ==> PathSearch.Cells(m) - vis < PathSearch.Cells(m) - visited;
  }

  /** A finished scan with no fit cell visited leaves no fit cell reachable from `target`. */
  lemma Exhausted(nbrs: nat -> seq<nat>, free: seq<bool>, reserved: set<nat>, target: nat,
                  visited: set<nat>, paths: map<nat, seq<nat>>)
    requires Layered(nbrs, target, visited, [], paths)
    requires forall v :: v in visited ==> !Fine(free, reserved, v)
    ensures forall p, c :: DistTables.Walk(nbrs, p, target, c) ==> !Fine(free, reserved, c)
  {
    forall p, c | DistTables.Walk(nbrs, p, target, c)
      ensures !Fine(free, reserved, c)
    {
      WalkStays(nbrs, visited, p, target, c);
    }
  }

  /**
   * The breadth-first scan of `find_staging_cell_near`: from `target`, through the cells
   * `nbrs` lists, the first cell in visiting order that is free and outside `reserved`;
   * None when no such cell can be reached. The cell found is a nearest one: `path` reaches
   * it, and no shorter walk from `target` reaches a fine cell.
   */
  method FirstFreeNear(nbrs: nat -> seq<nat>, m: nat, free: seq<bool>, reserved: set<nat>, target: nat)
    returns (r: Option<nat>, ghost path: seq<nat>)
    requires target < m && DistTables.Closed(m, nbrs)
    ensures r.Some? ==> r.value < m && Fine(free, reserved, r.value)
    ensures r.Some? ==> NearestBy(nbrs, free, reserved, target, r.value, path)
    ensures Fine(free, reserved, target) ==> r == Some(target)
    ensures r.None? ==> forall p, c :: DistTables.Walk(nbrs, p, target, c) ==> !Fine(free, reserved, c)
  {
    var visited: set<nat> := {target};
    var queue := [target];
    ghost var paths: map<nat, seq<nat>> := map[target := [target]];
    path := [];
    while queue != []
      invariant forall v :: v in visited ==> v < m
      invariant queue == [target] || !Fine(free, reserved, target)
      invariant Layered(nbrs, target, visited, queue, paths)
      invariant forall v :: v in visited && v !in queue ==> !Fine(free, reserved, v)
      decreases PathSearch.Cells(m) - visited, |queue|
    {
      var y := queue[0];
      if Fine(free, reserved, y) {
        HeadNearest(nbrs, free, reserved, target, visited, queue, paths);
        return Some(y), paths[y];
      }
      visited, queue, paths := ExpandHead(nbrs, m, target, visited, queue, paths);
    }
    Exhausted(nbrs, free, reserved, target, visited, paths);
    return None, path;
  }

  /**
   * `nearest_unclaimed_loader` / `nearest_unclaimed_charger`: the first free station of `S`
   * among those closest to `pos` (a later one replaces the best only when strictly closer),
   * or None when every station is held.
   */
  method NearestUnclaimed(S: Stations.StationSet, dist: (nat, nat) -> int, pos: nat) returns (best: Option<nat>)
    requires S.Valid()
    ensures best.None? <==> forall k :: 0 <= k < |S.cells| ==> S.holder[k].Some?
    ensures best.Some? ==> best.value < |S.cells| && S.holder[best.value].None?
    ensures best.Some? ==> forall k :: 0 <= k < |S.cells| && S.holder[k].None? ==>
      dist(S.cells[best.value], pos) <= dist(S.cells[k], pos)
    ensures best.Some? ==> forall k :: 0 <= k < best.value && S.holder[k].None? ==>
      dist(S.cells[k], pos) > dist(S.cells[best.value], pos)
  {
    best := None;
    var bestd := 0;
    for k := 0 to |S.cells|
      invariant best.None? <==> forall x :: 0 <= x < k ==> S.holder[x].Some?
      invariant best.Some? ==> best.value < k && S.holder[best.value].None? && bestd == dist(S.cells[best.value], pos)
      invariant best.Some? ==> forall x :: 0 <= x < k && S.holder[x].None? ==> bestd <= dist(S.cells[x], pos)
      invariant best.Some? ==> forall x :: 0 <= x < best.value && S.holder[x].None? ==> dist(S.cells[x], pos) > bestd
    {
      if !S.IsTaken(k) {
        var d := dist(S.cells[k], pos);
        if best.None? || d < bestd {
          best := Some(k);
          bestd := d;
        }
      }
    }
  }

  /**
   * The scan of `choose_dump_target`: the first station in `order` nobody holds, or None
   * when every station of `S` is held.
   */
  method FirstFree(S: Stations.StationSet, order: seq<nat>) returns (k: Option<nat>)
    requires S.Valid()
    requires forall j :: 0 <= j < |S.cells| ==> j in order
    requires forall p :: 0 <= p < |order| ==> order[p] < |S.cells|
    ensures k.None? <==> forall j :: 0 <= j < |S.cells| ==> S.holder[j].Some?
    ensures k.Some? ==>
      k.value < |S.cells| && S.holder[k.value].None? &&
      exists p :: 0 <= p < |order| && order[p] == k.value && forall q :: 0 <= q < p ==> S.holder[order[q]].Some?
  {
    for p := 0 to |order|
      invariant forall q :: 0 <= q < p ==> S.holder[order[q]].Some?
    {
      if !S.IsTaken(order[p]) {
        return Some(order[p]);
      }
    }
    forall j | 0 <= j < |S.cells|
      ensures S.holder[j].Some?
    {
      assert j in order;
      var p :| 0 <= p < |order| && order[p] == j;
    }
    return None;
  }

  /**
   * The station with the shortest queue, the lowest index among equals: the head of the
   * sorted `(len, k)` pairs of `choose_loader_target`, and `min(..., key=len)` of the others.
   */
  method ShortestQueue(S: Stations.StationSet) returns (k: nat)
    requires S.Valid() && |S.cells| > 0
    ensures k < |S.cells|
    ensures forall j :: 0 <= j < |S.cells| ==> |S.queue[k]| <= |S.queue[j]|
    ensures forall j :: 0 <= j < k ==> |S.queue[j]| > |S.queue[k]|
  {
    k := 0;
    for j := 1 to |S.cells|
      invariant k < j
      invariant forall x :: 0 <= x < j ==> |S.queue[k]| <= |S.queue[x]|
      invariant forall x :: 0 <= x < k ==> |S.queue[x]| > |S.queue[k]|
    {
      if |S.queue[j]| < |S.queue[k]| {
        k := j;
      }
    }
  }

  class Simulator {
    const w: nat
    const h: nat
    /** The grid, row-major, `true` = free. */
    const free: seq<bool>
    const L: Stations.StationSet
    const D: Stations.StationSet
    const C: Stations.StationSet
    const batteryMax: nat
    const batteryLow: nat
    const chargeRate: nat
    const dwellMin: nat
    const dwellMax: nat
    /** `resume_policy == 'full'`; otherwise `'threshold'`. */
    const resumeFull: bool
    const dist: (nat, nat) -> int
    var Q: seq<nat>
    var states: seq<AgentState>
    var priorities: seq<real>
    var stagingReserved: set<nat>
    var t: nat
    /** The PIBT planner's `occupied_now` and `occupied_nxt`, kept between steps. */
    const occNow: array<int>
    const occNxt: array<int>

    /** The cells of the stations of one kind. */
    function CellsOf(kind: Kind): seq<nat>
    {
      match kind
      case LoaderKind => L.cells
      case DumpKind => D.cells
      case ChargerKind => C.cells
    }

    /** The station set of one kind. */
    function StationsOf(kind: Kind): Stations.StationSet
    {
      match kind
      case LoaderKind => L
      case DumpKind => D
      case ChargerKind => C
    }

    /** A claim names an existing station. */
    predicate Fits(c: Option<(Kind, nat)>)
    {
      c.Some? ==> c.value.1 < |CellsOf(c.value.0)|
    }

    /** The agent's claim is a station of `kind` and it stands on it. */
    predicate At(s: AgentState, pos: nat, kind: Kind)
    {
      s.claim.Some? && s.claim.value.0 == kind && s.claim.value.1 < |CellsOf(kind)| &&
      pos == CellsOf(kind)[s.claim.value.1]
    }

    /** The numbers every agent keeps in range. */
    predicate AgentOk(s: AgentState)
    {
      s.battery <= batteryMax && s.goal < w * h && Fits(s.claim)
    }

    /** The grid, the stations and the agents' cells, as the station choices need them. */
    ghost predicate Ready()
      reads this, L, D, C
    {
      ServerGrid.WellFormed(w, h, free) &&
      L != D && D != C && L != C &&
      Serving(L, w * h, |Q|) && Serving(D, w * h, |Q|) && Serving(C, w * h, |Q|) &&
      CellsIn(Q, w * h) && (forall i, j :: 0 <= i < j < |Q| ==> Q[i] != Q[j]) &&
      dwellMin <= dwellMax
    }

    /** The planner's occupancy arrays cover the grid and are cleared between steps. */
    ghost predicate Cleared()
      reads this, occNow, occNxt
    {
      occNow != occNxt && occNow.Length == w * h && occNxt.Length == w * h &&
      forall c :: 0 <= c < w * h ==> occNow[c] == |Q| && occNxt[c] == |Q|
    }

    ghost predicate Valid()
      reads this, L, D, C, occNow, occNxt
    {
      Ready() && Cleared() &&
      |states| == |Q| && |priorities| == |Q| &&
      (forall i :: 0 <= i < |states| ==> AgentOk(states[i])) &&
      (forall i :: 0 <= i < |priorities| ==> priorities[i] >= 0.0)
    }

    /** The cells `find_staging_cell_near` may not hand out. */
    function Reserved(): set<nat>
      reads this
    {
      (set c | c in Q) + stagingReserved + (set c | c in L.cells) + (set c | c in D.cells) + (set c | c in C.cells)
    }

    /** A free cell nobody stands on, reserved for nobody and not a station. */
    predicate Good(c: nat)
      reads this
    {
      Fine(free, Reserved(), c)
    }

    /** Every in-bounds cell next to `u`, up, down, left, right: the staging search ignores walls. */
    function Around(): nat -> seq<nat>
    {
      DistTables.FreeNeighbors(w, h, seq(w * h, _ => true))
    }

    /**
     * `find_staging_cell_near`: the target itself when it is good, otherwise the first good
     * cell in breadth-first order from `target`, moving through any in-bounds cell, which no
     * good cell is nearer than; with none reachable, the first agent's cell.
     */
    method FindStagingCellNear(target: nat) returns (r: nat)
      requires Ready() && target < w * h && |Q| > 0
      ensures r < w * h
      ensures Good(r) || r == Q[0]
      ensures Good(target) ==> r == target
      ensures !Good(r) ==> forall p, c :: DistTables.Walk(Around(), p, target, c) ==> !Good(c)
      ensures (exists p :: NearestBy(Around(), free, Reserved(), target, r, p)) ||
              forall p, c :: DistTables.Walk(Around(), p, target, c) ==> !Good(c)
    {
      if Good(target) {
        assert NearestBy(Around(), free, Reserved(), target, target, [target]);
        return target;
      }
      DistTables.FreeNeighborsClosed(w, h, seq(w * h, _ => true));
      var found, path := FirstFreeNear(Around(), w * h, free, Reserved(), target);
      if found.Some? {
        r := found.value;
      } else {
        r := Q[0];
      }
    }

    /**
     * The fallback shared by the three `choose_*_target`: join a shortest queue of `S` and head
     * for a staging cell near that station, which becomes reserved.
     */
    method WaitAt(S: Stations.StationSet, i: nat) returns (g: nat)
      requires Ready() && i < |Q| && (S == L || S == D || S == C)
      modifies S, this`stagingReserved
      ensures Ready()
      ensures g < w * h
      ensures S.holder == old(S.holder)
      ensures stagingReserved == old(stagingReserved) + {g}
      ensures old(Good(g)) || g == Q[0]
      ensures exists k ::
        0 <= k < |S.cells| &&
        (forall j :: 0 <= j < |S.cells| ==> |old(S.queue[k])| <= |old(S.queue[j])|) &&
        (i in S.queue[k] || S.holder[k] == Some(i)) &&
        (forall j :: 0 <= j < |S.cells| && j != k ==> S.queue[j] == old(S.queue[j]))
    {
      var k := JoinShortest(S, i, |Q|);
      g := FindStagingCellNear(S.cells[k]);
      stagingReserved := stagingReserved + {g};
      assert forall j :: 0 <= j < |S.cells| && j != k ==> S.queue[j] == old(S.queue[j]);
    }

    /**
     * `choose_loader_target` (on the loaders) and `choose_charger_target` (on the chargers):
     * claim the nearest free station; when every station is held, wait in a shortest queue
     * and head for a staging cell near that station, which becomes reserved.
     */
    method ChooseNearestTarget(S: Stations.StationSet, kind: Kind, i: nat, pos: nat)
      returns (goalKind: GoalKind, g: nat, claim: Option<(Kind, nat)>)
      requires Ready() && i < |Q|
      requires (S == L && kind == LoaderKind) || (S == C && kind == ChargerKind)
      modifies S, this`stagingReserved
      ensures Ready()
      ensures goalKind == GoalOf(kind) || goalKind == StagingGoal
      ensures claim.Some? <==> goalKind == GoalOf(kind)
      ensures g < w * h
      ensures claim.Some? ==>
        var k := claim.value.1;
        claim.value.0 == kind && k < |S.cells| && g == S.cells[k] &&
        old(S.holder[k]).None? && S.holder == old(S.holder)[k := Some(i)] &&
        S.queue == old(S.queue) && S.inQueue == old(S.inQueue) &&
        stagingReserved == old(stagingReserved) &&
        forall j :: 0 <= j < |S.cells| && old(S.holder[j]).None? ==> dist(g, pos) <= dist(S.cells[j], pos)
      ensures claim.None? ==>
        (forall j :: 0 <= j < |S.cells| ==> old(S.holder[j]).Some?) &&
        S.holder == old(S.holder) &&
        stagingReserved == old(stagingReserved) + {g} &&
        (old(Good(g)) || g == Q[0]) &&
        exists k :: 0 <= k < |S.cells| &&
          (forall j :: 0 <= j < |S.cells| ==> |old(S.queue[k])| <= |old(S.queue[j])|) &&
          (i in S.queue[k] || S.holder[k] == Some(i)) &&
          (forall j :: 0 <= j < |S.cells| && j != k ==> S.queue[j] == old(S.queue[j]))
    {
      var k := NearestUnclaimed(S, dist, pos);
      if k.Some? {
        var ok := S.ClaimIfFree(k.value, i);
        if ok {
          return GoalOf(kind), S.cells[k.value], Some((kind, k.value));
        }
      }
      g := WaitAt(S, i);
      return StagingGoal, g, None;
    }

    /**
     * `choose_dump_target`: claim the first free dump in `order` (the shuffled indices);
     * when every dump is held, wait in a shortest queue and head for a staging cell near it.
     */
    method ChooseDumpTarget(i: nat, pos: nat, order: seq<nat>)
      returns (goalKind: GoalKind, g: nat, claim: Option<(Kind, nat)>)
      requires Ready() && i < |Q|
      requires |order| == |D.cells| && forall k :: 0 <= k < |D.cells| ==> k in order
      requires forall p :: 0 <= p < |order| ==> order[p] < |D.cells|
      modifies D, this`stagingReserved
      ensures Ready()
      ensures goalKind == DumpGoal || goalKind == StagingGoal
      ensures claim.Some? <==> goalKind == DumpGoal
      ensures g < w * h
      ensures claim.Some? ==>
        var k := claim.value.1;
        claim.value.0 == DumpKind && k < |D.cells| && g == D.cells[k] &&
        old(D.holder[k]).None? && D.holder == old(D.holder)[k := Some(i)] &&
        D.queue == old(D.queue) && D.inQueue == old(D.inQueue) &&
        stagingReserved == old(stagingReserved) &&
        exists p :: 0 <= p < |order| && order[p] == k && forall q :: 0 <= q < p ==> old(D.holder[order[q]]).Some?
      ensures claim.None? ==>
        (forall j :: 0 <= j < |D.cells| ==> old(D.holder[j]).Some?) &&
        D.holder == old(D.holder) &&
        stagingReserved == old(stagingReserved) + {g} &&
        (old(Good(g)) || g == Q[0]) &&
        exists k :: 0 <= k < |D.cells| &&
          (forall j :: 0 <= j < |D.cells| ==> |old(D.queue[k])| <= |old(D.queue[j])|) &&
          (i in D.queue[k] || D.holder[k] == Some(i)) &&
          (forall j :: 0 <= j < |D.cells| && j != k ==> D.queue[j] == old(D.queue[j]))
    {
      var k := FirstFree(D, order);
      if k.Some? {
        var ok := D.ClaimIfFree(k.value, i);
        if ok {
          return DumpGoal, D.cells[k.value], Some((DumpKind, k.value));
        }
      }
      g := WaitAt(D, i);
      return StagingGoal, g, None;
    }

    /**
     * The seating loop of `__init__`: agent `i` heads for a loader from its start. With every
     * loader free at first, exactly the first `|L.cells|` agents claim one.
     */
    method Seat()
      requires Ready() && states == [] && forall k :: 0 <= k < |L.cells| ==> L.holder[k].None?
      modifies this`states, this`stagingReserved, L
      ensures Ready() && |states| == |Q|
      ensures forall i :: 0 <= i < |Q| ==> Seated(states[i], i, stagingReserved)
    {
      ghost var taken: set<nat> := {};
      for i := 0 to |Q|
        invariant Ready() && |states| == i
        invariant forall k :: 0 <= k < |L.cells| ==> (L.holder[k].Some? <==> k in taken)
        invariant taken <= PathSearch.Cells(|L.cells|)
        invariant |taken| == if i < |L.cells| then i else |L.cells|
        invariant forall j :: 0 <= j < i ==> Seated(states[j], j, stagingReserved)
      {
        ghost var before := stagingReserved;
        var st;
        st, taken := SeatOne(i, taken);
        forall j | 0 <= j < i
          ensures Seated(states[j], j, stagingReserved)
        {
          SeatedGrows(states[j], j, before, stagingReserved);
        }
        states := states + [st];
      }
    }

    /** Agent `i` as the seating loop leaves it, `reserved` being the reserved staging cells. */
    predicate Seated(st: AgentState, i: nat, reserved: set<nat>)
    {
      st.mode == ToLoad && st.battery == batteryMax && st.dwell == 0 && AgentOk(st) &&
      (i < |L.cells| <==> st.claim.Some?) &&
      if st.claim.Some?
      then st.goalKind == LoadGoal && At(st, st.goal, LoaderKind)
      else st.goalKind == StagingGoal && st.goal in reserved
    }

    /** Reserving more staging cells keeps an agent seated. */
    lemma SeatedGrows(st: AgentState, i: nat, r0: set<nat>, r1: set<nat>)
      requires Seated(st, i, r0) && r0 <= r1
      ensures Seated(st, i, r1)
    {
    }

    /**
     * One round of the seating loop: agent `i` heads for a loader from its start; `taken` is
     * the set of loaders held so far.
     */
    method SeatOne(i: nat, ghost taken: set<nat>) returns (st: AgentState, ghost taken': set<nat>)
      requires Ready() && i < |Q|
      requires forall k :: 0 <= k < |L.cells| ==> (L.holder[k].Some? <==> k in taken)
      requires taken <= PathSearch.Cells(|L.cells|) && |taken| == if i < |L.cells| then i else |L.cells|
      modifies this`stagingReserved, L
      ensures Ready() && Seated(st, i, stagingReserved) && old(stagingReserved) <= stagingReserved
      ensures forall k :: 0 <= k < |L.cells| ==> (L.holder[k].Some? <==> k in taken')
      ensures taken' <= PathSearch.Cells(|L.cells|)
      ensures |taken'| == if i + 1 < |L.cells| then i + 1 else |L.cells|
    {
      var gk, g, claim := ChooseNearestTarget(L, LoaderKind, i, Q[i]);
      if claim.Some? {
        SeatStep(taken, |L.cells|, i, claim.value.1);
        taken' := taken + {claim.value.1};
      } else {
        SeatFull(taken, |L.cells|, i);
        taken' := taken;
      }
      st := AgentState(gk, g, batteryMax, 0, claim, ToLoad);
    }

    /**
     * `__init__` with `staging_reserved` created before the agents are seated: every agent is
     * sent to a loader; the first agents (as many as there are loaders) each claim one and the
     * others queue and take reserved staging cells. Priorities start at the distance to the
     * goal over the grid size; the planner's occupancy arrays start cleared.
     */
    constructor (w: nat, h: nat, free: seq<bool>, starts: seq<nat>,
                 loaders: seq<nat>, dumps: seq<nat>, chargers: seq<nat>,
                 batteryMax: nat, batteryLow: nat, chargeRate: nat, dwellMin: nat, dwellMax: nat,
                 resumeFull: bool, dist: (nat, nat) -> int)
      requires ServerGrid.WellFormed(w, h, free)
      requires CellsIn(starts, w * h) && forall i, j :: 0 <= i < j < |starts| ==> starts[i] != starts[j]
      requires |loaders| > 0 && |dumps| > 0 && |chargers| > 0
      requires CellsIn(loaders, w * h) && CellsIn(dumps, w * h) && CellsIn(chargers, w * h)
      requires dwellMin <= dwellMax
      requires forall a, b :: dist(a, b) >= 0
      ensures Valid()
      ensures this.w == w && this.h == h && this.free == free && this.dist == dist
      ensures this.batteryMax == batteryMax && this.batteryLow == batteryLow && this.chargeRate == chargeRate
      ensures this.dwellMin == dwellMin && this.dwellMax == dwellMax && this.resumeFull == resumeFull
      ensures L.cells == loaders && D.cells == dumps && C.cells == chargers
      ensures Q == starts && t == 0 && |states| == |starts|
      ensures forall i :: 0 <= i < |starts| ==> Seated(states[i], i, stagingReserved)
      ensures forall i :: 0 <= i < |starts| ==>
        priorities[i] == (dist(states[i].goal, starts[i]) as real) / ((w * h) as real)
    {
      this.w := w;
      this.h := h;
      this.free := free;
      this.batteryMax := batteryMax;
      this.batteryLow := batteryLow;
      this.chargeRate := chargeRate;
      this.dwellMin := dwellMin;
      this.dwellMax := dwellMax;
      this.resumeFull := resumeFull;
      this.dist := dist;
      L := new Stations.StationSet(loaders);
      D := new Stations.StationSet(dumps);
      C := new Stations.StationSet(chargers);
      Q := starts;
      states := [];
      priorities := [];
      stagingReserved := {};
      t := 0;
      occNow := new int[w * h](_ => |starts|);
      occNxt := new int[w * h](_ => |starts|);
      new;
      EmptyServing(L, w * h, |Q|);
      EmptyServing(D, w * h, |Q|);
      EmptyServing(C, w * h, |Q|);
      Populate();
    }

    /** The part of `__init__` that seats the agents and sets their starting priorities. */
    method Populate()
      requires Ready() && Cleared() && states == [] && forall k :: 0 <= k < |L.cells| ==> L.holder[k].None?
      requires forall a, b :: dist(a, b) >= 0
      modifies this`states, this`stagingReserved, this`priorities, L
      ensures Valid()
      ensures forall i :: 0 <= i < |Q| ==> Seated(states[i], i, stagingReserved)
      ensures forall i :: 0 <= i < |Q| ==>
        priorities[i] == (dist(states[i].goal, Q[i]) as real) / ((w * h) as real)
    {
      Seat();
      assert |Q| > 0 ==> w * h > 0 by {
        if |Q| > 0 {
          assert Q[0] < w * h;
        }
      }
      priorities := StartPriorities(dist, states, Q, w * h);
    }

    /** `resume`: a charging agent leaves at a full battery, or above the threshold policy's bound. */
    predicate Resumes(b: nat)
    {
      if resumeFull then b >= batteryMax else b >= Max(batteryLow + 200, chargeRate * 3)
    }

    /**
     * An agent right after choosing a station of `kind`: it holds one and heads for it, or it
     * holds none and waits in staging.
     */
    ghost predicate Headed(s: AgentState, kind: Kind)
    {
      (s.mode == ModeOf(kind) && s.goalKind == GoalOf(kind) && s.claim.Some? && s.claim.value.0 == kind &&
       s.claim.value.1 < |CellsOf(kind)| && s.goal == CellsOf(kind)[s.claim.value.1])
      || (s.mode == Staging && s.goalKind == StagingGoal && s.claim.None?)
    }

    /**
     * The first pass of `step` for one agent standing on `pos`: at its claimed loader it starts
     * waiting there for `draw` steps; at its claimed dump it gives the dump up and heads for a
     * charger when its battery is at or below the low mark, else for a loader; at its claimed
     * charger it starts charging; an agent in staging keeps a staging goal.
     */
    ghost predicate Arrived(s: AgentState, s': AgentState, pos: nat, draw: nat)
    {
      if s.mode == ToLoad && At(s, pos, LoaderKind) then
        s' == s.(mode := AtLoadWait, goalKind := StayGoal, goal := pos, dwell := draw)
      else if s.mode == ToDump && At(s, pos, DumpKind) then
        s'.battery == s.battery && s'.dwell == s.dwell &&
        if s.battery <= batteryLow then
          (Headed(s', ChargerKind) && !At(s', pos, ChargerKind)) ||
          (s'.mode == Charging && s'.goalKind == ChargeGoal && s'.goal == pos && At(s', pos, ChargerKind))
        else Headed(s', LoaderKind)
      else if s.mode == ToCharge && At(s, pos, ChargerKind) then
        s' == s.(mode := Charging, goalKind := ChargeGoal, goal := pos)
      else if s.mode == Staging then
        s' == s.(goalKind := StagingGoal)
      else s' == s
    }

    /**
     * The second pass of `step` for one agent: a waiting agent counts its dwell down and, on
     * reaching 0, heads for a dump; a charging agent gains `chargeRate` up to `batteryMax` and,
     * once it may resume, heads for a loader.
     */
    ghost predicate Worked(s: AgentState, s': AgentState)
    {
      if s.mode == AtLoadWait && s.dwell > 1 then
        s' == s.(dwell := s.dwell - 1)
      else if s.mode == AtLoadWait && s.dwell == 1 then
        s'.battery == s.battery && s'.dwell == 0 && Headed(s', DumpKind)
      else if s.mode == Charging then
        var b := Charge(s.battery, chargeRate, batteryMax);
        if Resumes(b) then s'.battery == b && s'.dwell == s.dwell && Headed(s', LoaderKind)
        else s' == s.(battery := b)
      else s' == s
    }

    /** What the hand-over of station `k` of `kind` does to the agent it goes to. */
    function Handed(s: AgentState, kind: Kind, k: nat): AgentState
      requires k < |CellsOf(kind)|
    {
      s.(mode := if s.mode == Staging then ModeOf(kind) else s.mode,
         goalKind := GoalOf(kind), goal := CellsOf(kind)[k], claim := Some((kind, k)))
    }

    /**
     * An agent standing on its claimed dump gives it up and heads for a charger when its
     * battery is at or below the low mark, else for a loader.
     */
    method LeaveDump(i: nat, st: AgentState) returns (st': AgentState)
      requires Ready() && i < |Q| && AgentOk(st) && st.mode == ToDump && At(st, Q[i], DumpKind)
      modifies this`stagingReserved, L, D, C
      ensures Ready() && AgentOk(st')
      ensures st'.battery == st.battery && st'.dwell == st.dwell
      ensures if st.battery <= batteryLow then Headed(st', ChargerKind) else Headed(st', LoaderKind)
      ensures forall k :: 0 <= k < |D.cells| ==> D.holder[k] == old(D.holder[k]) || D.holder[k].None?
      ensures D.holder[st.claim.value.1] != Some(i)
    {
      var pos := Q[i];
      var k := st.claim.value.1;
      D.ReleaseIfHolder(k, i);
      st' := st.(claim := None);
      var kind, g, claim;
      if st'.battery <= batteryLow {
        st' := st'.(mode := ToCharge);
        kind, g, claim := ChooseNearestTarget(C, ChargerKind, i, pos);
      } else {
        st' := st'.(mode := ToLoad);
        kind, g, claim := ChooseNearestTarget(L, LoaderKind, i, pos);
      }
      st' := st'.(goalKind := kind, goal := g, claim := claim);
      if kind == StagingGoal {
        st' := st'.(mode := Staging);
      }
    }

    /** A waiting agent whose dwell ran out gives up its loader and heads for a dump. */
    method FinishDwell(i: nat, st: AgentState, order: seq<nat>) returns (st': AgentState)
      requires Ready() && i < |Q| && AgentOk(st) && st.mode == AtLoadWait && st.dwell == 0
      requires |order| == |D.cells| && forall k :: 0 <= k < |D.cells| ==> k in order
      requires forall p :: 0 <= p < |order| ==> order[p] < |D.cells|
      modifies this`stagingReserved, L, D
      ensures Ready() && AgentOk(st')
      ensures st'.battery == st.battery && st'.dwell == 0 && Headed(st', DumpKind)
      ensures forall k :: 0 <= k < |L.cells| ==> L.holder[k] == old(L.holder[k]) || L.holder[k].None?
      ensures st.claim.Some? && st.claim.value.0 == LoaderKind ==> L.holder[st.claim.value.1] != Some(i)
    {
      st' := st;
      if st'.claim.Some? && st'.claim.value.0 == LoaderKind {
        L.ReleaseIfHolder(st'.claim.value.1, i);
        st' := st'.(claim := None);
      }
      st' := st'.(mode := ToDump);
      var kind, g, claim := ChooseDumpTarget(i, Q[i], order);
      st' := st'.(goalKind := kind, goal := g, claim := claim);
      if kind == StagingGoal {
        st' := st'.(mode := Staging);
      }
    }

    /** A charged agent that may resume gives up its charger and heads for a loader. */
    method LeaveCharger(i: nat, st: AgentState) returns (st': AgentState)
      requires Ready() && i < |Q| && AgentOk(st) && st.mode == Charging
      modifies this`stagingReserved, L, C
      ensures Ready() && AgentOk(st')
      ensures st'.battery == st.battery && st'.dwell == st.dwell && Headed(st', LoaderKind)
      ensures forall k :: 0 <= k < |L.cells| ==> L.holder[k] == old(L.holder[k]) || L.holder[k] == Some(i)
      ensures forall k :: 0 <= k < |C.cells| ==> C.holder[k] == old(C.holder[k]) || C.holder[k].None?
      ensures st.claim.Some? && st.claim.value.0 == ChargerKind ==> C.holder[st.claim.value.1] != Some(i)
    {
      st' := st;
      if st'.claim.Some? && st'.claim.value.0 == ChargerKind {
        C.ReleaseIfHolder(st'.claim.value.1, i);
        st' := st'.(claim := None);
      }
      st' := st'.(mode := ToLoad);
      var kind, g, claim := ChooseNearestTarget(L, LoaderKind, i, Q[i]);
      st' := st'.(goalKind := kind, goal := g, claim := claim);
      if kind == StagingGoal {
        st' := st'.(mode := Staging);
      }
    }

    /** The first pass of `step` for agent `i`. */
    method ArriveOne(i: nat, draw: nat)
      requires Valid() && i < |Q|
      modifies this`states, this`stagingReserved, L, D, C
      ensures Valid() && |states| == |old(states)|
      ensures Arrived(old(states[i]), states[i], Q[i], draw)
      ensures forall j :: 0 <= j < |states| && j != i ==> states[j] == old(states[j])
      ensures forall k :: 0 <= k < |D.cells| ==> D.holder[k] == old(D.holder[k]) || D.holder[k].None?
      ensures old(states[i]).mode == ToDump && At(old(states[i]), Q[i], DumpKind) ==>
        D.holder[old(states[i]).claim.value.1] != Some(i)
    {
      var st := Arrive(i, states[i], draw);
      states := states[i := st];
    }

    /** What the first pass of `step` makes of agent `i`, whose state is `st0`. */
    method Arrive(i: nat, st0: AgentState, draw: nat) returns (st: AgentState)
      requires Ready() && i < |Q| && AgentOk(st0)
      modifies this`stagingReserved, L, D, C
      ensures Ready() && AgentOk(st) && Arrived(st0, st, Q[i], draw)
      ensures forall k :: 0 <= k < |D.cells| ==> D.holder[k] == old(D.holder[k]) || D.holder[k].None?
      ensures st0.mode == ToDump && At(st0, Q[i], DumpKind) ==> D.holder[st0.claim.value.1] != Some(i)
    {
      st := st0;
      var pos := Q[i];
      if st.mode == ToLoad && st.claim.Some? && st.claim.value.0 == LoaderKind {
        var k := st.claim.value.1;
        if pos == L.cells[k] {
          st := st.(mode := AtLoadWait, goalKind := StayGoal, goal := pos, dwell := draw);
        }
      }
      if st.mode == ToDump && st.claim.Some? && st.claim.value.0 == DumpKind {
        var k := st.claim.value.1;
        if pos == D.cells[k] {
          st := LeaveDump(i, st);
        }
      }
      if st.mode == ToCharge && st.claim.Some? && st.claim.value.0 == ChargerKind {
        var k := st.claim.value.1;
        if pos == C.cells[k] {
          st := st.(mode := Charging, goalKind := ChargeGoal, goal := C.cells[k]);
        }
      }
      if st.mode == Staging {
        st := st.(goalKind := StagingGoal);
      }
    }

    /**
     * The first pass of `step` over all agents, `draws[i]` standing for agent `i`'s
     * `randint(dwell_min_steps, dwell_max_steps)`.
     */
    method Arrivals(draws: seq<nat>)
      requires Valid() && |draws| == |Q|
      requires forall i :: 0 <= i < |draws| ==> dwellMin <= draws[i] <= dwellMax
      modifies this`states, this`stagingReserved, L, D, C
      ensures Valid() && |states| == |old(states)|
      ensures forall i :: 0 <= i < |states| ==> Arrived(old(states[i]), states[i], Q[i], draws[i])
      ensures forall i :: 0 <= i < |states| && old(states[i]).mode != AtLoadWait && states[i].mode == AtLoadWait ==>
        states[i].goal == Q[i] && dwellMin <= states[i].dwell <= dwellMax
      ensures forall i :: 0 <= i < |states| && old(states[i]).mode == ToDump && At(old(states[i]), Q[i], DumpKind) ==>
        D.holder[old(states[i]).claim.value.1] != Some(i)
    {
      for i := 0 to |Q|
        invariant Valid() && |states| == |old(states)|
        invariant forall j :: i <= j < |states| ==> states[j] == old(states[j])
        invariant forall j :: 0 <= j < i ==> Arrived(old(states[j]), states[j], Q[j], draws[j])
        invariant forall j :: 0 <= j < i && old(states[j]).mode == ToDump && At(old(states[j]), Q[j], DumpKind) ==>
          D.holder[old(states[j]).claim.value.1] != Some(j)
      {
        ArriveOne(i, draws[i]);
      }
    }

    /** The second pass of `step` for agent `i`, `order` standing for its shuffled dump indices. */
    method WorkOne(i: nat, order: seq<nat>)
      requires Valid() && i < |Q|
      requires |order| == |D.cells| && forall k :: 0 <= k < |D.cells| ==> k in order
      requires forall p :: 0 <= p < |order| ==> order[p] < |D.cells|
      modifies this`states, this`stagingReserved, L, D, C
      ensures Valid() && |states| == |old(states)|
      ensures Worked(old(states[i]), states[i])
      ensures forall j :: 0 <= j < |states| && j != i ==> states[j] == old(states[j])
      ensures forall k :: 0 <= k < |L.cells| ==> L.holder[k] == old(L.holder[k]) || L.holder[k] == Some(i) || L.holder[k].None?
      ensures forall k :: 0 <= k < |C.cells| ==> C.holder[k] == old(C.holder[k]) || C.holder[k].None?
      ensures var s := old(states[i]);
        s.mode == AtLoadWait && s.dwell == 1 && s.claim.Some? && s.claim.value.0 == LoaderKind ==>
          L.holder[s.claim.value.1] != Some(i)
      ensures var s := old(states[i]);
        s.mode == Charging && Resumes(Charge(s.battery, chargeRate, batteryMax)) &&
        s.claim.Some? && s.claim.value.0 == ChargerKind ==>
          C.holder[s.claim.value.1] != Some(i)
    {
      var st := Tend(i, states[i], order);
      states := states[i := st];
    }

    /** What the second pass of `step` makes of agent `i`, whose state is `st0`. */
    method Tend(i: nat, st0: AgentState, order: seq<nat>) returns (st: AgentState)
      requires Ready() && i < |Q| && AgentOk(st0)
      requires |order| == |D.cells| && forall k :: 0 <= k < |D.cells| ==> k in order
      requires forall p :: 0 <= p < |order| ==> order[p] < |D.cells|
      modifies this`stagingReserved, L, D, C
      ensures Ready() && AgentOk(st) && Worked(st0, st)
      ensures forall k :: 0 <= k < |L.cells| ==> L.holder[k] == old(L.holder[k]) || L.holder[k] == Some(i) || L.holder[k].None?
      ensures forall k :: 0 <= k < |C.cells| ==> C.holder[k] == old(C.holder[k]) || C.holder[k].None?
      ensures st0.mode == AtLoadWait && st0.dwell == 1 && st0.claim.Some? && st0.claim.value.0 == LoaderKind ==>
        L.holder[st0.claim.value.1] != Some(i)
      ensures (st0.mode == Charging && Resumes(Charge(st0.battery, chargeRate, batteryMax)) &&
               st0.claim.Some? && st0.claim.value.0 == ChargerKind) ==>
          C.holder[st0.claim.value.1] != Some(i)
    {
      st := st0;
      if st.mode == AtLoadWait {
        if st.dwell > 0 {
          st := st.(dwell := st.dwell - 1);
          if st.dwell == 0 {
            st := FinishDwell(i, st, order);
          }
        }
      }
      if st.mode == Charging {
        st := st.(battery := Charge(st.battery, chargeRate, batteryMax));
        if Resumes(st.battery) {
          st := LeaveCharger(i, st);
        }
      }
    }

    /** `order` lists every index below `n` and nothing else. */
    predicate IsOrder(order: seq<nat>, n: nat)
    {
      |order| == n && (forall k :: 0 <= k < n ==> k in order) && forall p :: 0 <= p < |order| ==> order[p] < n
    }

    /** The second pass of `step` over all agents; `orders[i]` is agent `i`'s shuffle of the dumps. */
    method Work(orders: seq<seq<nat>>)
      requires Valid() && |orders| == |Q|
      requires forall i :: 0 <= i < |orders| ==> IsOrder(orders[i], |D.cells|)
      modifies this`states, this`stagingReserved, L, D, C
      ensures Valid() && |states| == |old(states)|
      ensures forall i :: 0 <= i < |states| ==> Worked(old(states[i]), states[i])
      ensures forall i :: 0 <= i < |states| ==>
        var s := old(states[i]);
        s.mode == AtLoadWait && s.dwell == 1 && s.claim.Some? && s.claim.value.0 == LoaderKind ==>
          L.holder[s.claim.value.1] != Some(i)
      ensures forall i :: 0 <= i < |states| ==>
        var s := old(states[i]);
        s.mode == Charging && Resumes(Charge(s.battery, chargeRate, batteryMax)) &&
        s.claim.Some? && s.claim.value.0 == ChargerKind ==>
          C.holder[s.claim.value.1] != Some(i)
    {
      for i := 0 to |Q|
        invariant Valid() && |states| == |old(states)|
        invariant forall j :: i <= j < |states| ==> states[j] == old(states[j])
        invariant forall j :: 0 <= j < i ==> Worked(old(states[j]), states[j])
        invariant forall j :: 0 <= j < i ==>
          var s := old(states[j]);
          s.mode == AtLoadWait && s.dwell == 1 && s.claim.Some? && s.claim.value.0 == LoaderKind ==>
            L.holder[s.claim.value.1] != Some(j)
        invariant forall j :: 0 <= j < i ==>
          var s := old(states[j]);
          s.mode == Charging && Resumes(Charge(s.battery, chargeRate, batteryMax)) &&
          s.claim.Some? && s.claim.value.0 == ChargerKind ==>
            C.holder[s.claim.value.1] != Some(j)
      {
        WorkOne(i, orders[i]);
      }
    }

    /** What the hand-overs of one kind do to an agent: the station it is handed last, if any. */
    function HandedBy(s: AgentState, kind: Kind, last: Option<nat>): AgentState
      requires last.Some? ==> last.value < |CellsOf(kind)|
    {
      if last.Some? then Handed(s, kind, last.value) else s
    }

    /**
     * One round of the hand-over loop: station `k` of `kind`, when it has no holder and a
     * non-empty queue, goes to the head of its queue, which heads for it.
     */
    method ServeOne(kind: Kind, k: nat)
      requires Valid() && k < |CellsOf(kind)|
      modifies this`states, StationsOf(kind)
      ensures Valid() && |states| == |old(states)|
      ensures StationsOf(kind).holder[k].None? ==> StationsOf(kind).queue[k] == []
      ensures var S := StationsOf(kind);
        if old(S.holder[k]).None? && old(S.queue[k]) != [] then
          var a := old(S.queue[k][0]);
          a < |states| &&
          S.holder == old(S.holder)[k := Some(a)] && S.queue == old(S.queue)[k := old(S.queue[k][1..])] &&
          states == old(states)[a := Handed(old(states[a]), kind, k)]
        else S.holder == old(S.holder) && S.queue == old(S.queue) && states == old(states)
    {
      var S := StationsOf(kind);
      if S.holder[k].None? && S.queue[k] != [] {
        var a := PopHead(S, k, |Q|);
        states := states[a := Handed(states[a], kind, k)];
      }
    }

    /**
     * The hand-over loop of `step` for the stations of `kind`: every station without a holder
     * and with a non-empty queue goes to the head of its queue, which heads for it (leaving
     * staging if it was there). Afterwards no station is free while agents wait for it.
     */
    method HandOver(kind: Kind)
      requires Valid()
      modifies this`states, StationsOf(kind)
      ensures Valid() && |states| == |old(states)|
      ensures Settled(StationsOf(kind))
      ensures ServedUpTo(StationsOf(kind).holder, StationsOf(kind).queue,
                         old(StationsOf(kind).holder), old(StationsOf(kind).queue), |CellsOf(kind)|)
      ensures forall a :: 0 <= a < |states| ==>
        states[a] == HandedBy(old(states[a]), kind,
                              ServedBy(old(StationsOf(kind).holder), old(StationsOf(kind).queue), a, |CellsOf(kind)|))
    {
      var S := StationsOf(kind);
      ServeAll(kind, S);
      ServedSettled(S.holder, S.queue, old(S.holder), old(S.queue));
    }

    /** The loop of `HandOver`, over the stations `S` of `kind`. */
    method ServeAll(kind: Kind, S: Stations.StationSet)
      requires Valid() && S == StationsOf(kind)
      modifies this`states, S
      ensures Valid() && |states| == |old(states)|
      ensures ServedUpTo(S.holder, S.queue, old(S.holder), old(S.queue), |S.cells|)
      ensures forall a :: 0 <= a < |states| ==>
        states[a] == HandedBy(old(states[a]), kind, ServedBy(old(S.holder), old(S.queue), a, |S.cells|))
    {
      ghost var h0, q0, s0 := S.holder, S.queue, states;
      for k := 0 to |S.cells|
        invariant Valid() && |states| == |s0|
        invariant ServedUpTo(S.holder, S.queue, h0, q0, k)
        invariant forall a :: 0 <= a < |states| ==> states[a] == HandedBy(s0[a], kind, ServedBy(h0, q0, a, k))
      {
        ghost var before, hb, qb := states, S.holder, S.queue;
        ServeOne(kind, k);
        HandedStep(kind, s0, before, states, h0, q0, k);
        ServedStep(hb, qb, S.holder, S.queue, h0, q0, k);
      }
    }

    /** One more round of the hand-over loop extends what the agents were handed by one station. */
    lemma HandedStep(kind: Kind, s0: seq<AgentState>, before: seq<AgentState>, after: seq<AgentState>,
                     h0: seq<Option<nat>>, q0: seq<seq<nat>>, k: nat)
      requires k < |CellsOf(kind)| && |h0| == |CellsOf(kind)| && |q0| == |CellsOf(kind)|
      requires |before| == |s0| && |after| == |s0|
      requires forall a :: 0 <= a < |before| ==> before[a] == HandedBy(s0[a], kind, ServedBy(h0, q0, a, k))
      requires if h0[k].None? && q0[k] != []
        then q0[k][0] < |before| && after == before[q0[k][0] := Handed(before[q0[k][0]], kind, k)]
        else after == before
      ensures forall a :: 0 <= a < |after| ==> after[a] == HandedBy(s0[a], kind, ServedBy(h0, q0, a, k + 1))
    {
      forall a | 0 <= a < |after|
        ensures after[a] == HandedBy(s0[a], kind, ServedBy(h0, q0, a, k + 1))
      {
        if h0[k].None? && q0[k] != [] && q0[k][0] == a {
          HandedTwice(s0[a], kind, ServedBy(h0, q0, a, k), k);
        }
      }
    }

    /** A second hand-over of the same kind overrides the first. */
    lemma HandedTwice(s: AgentState, kind: Kind, first: Option<nat>, k: nat)
      requires first.Some? ==> first.value < |CellsOf(kind)|
      requires k < |CellsOf(kind)|
      ensures Handed(HandedBy(s, kind, first), kind, k) == Handed(s, kind, k)
    {
    }

    /** `goals_for_pibt`: an agent waiting at a loader aims at its own cell, any other at its goal. */
    method GoalsForPibt() returns (goals: seq<nat>)
      requires Valid()
      ensures |goals| == |Q| && CellsIn(goals, w * h)
      ensures forall i :: 0 <= i < |Q| ==> goals[i] == if states[i].goalKind == StayGoal then Q[i] else states[i].goal
    {
      goals := [];
      for i := 0 to |states|
        invariant |goals| == i && CellsIn(goals, w * h)
        invariant forall j :: 0 <= j < i ==> goals[j] == if states[j].goalKind == StayGoal then Q[j] else states[j].goal
      {
        if states[i].goalKind == StayGoal {
          goals := goals + [Q[i]];
        } else {
          goals := goals + [states[i].goal];
        }
      }
    }

    /** `s` is a shuffle of the cells `funcPIBT` considers from `u`: `u` and its free neighbours. */
    predicate Shuffled(s: seq<nat>, u: nat)
    {
      ServerGrid.WellFormed(w, h, free) && u < w * h &&
      multiset(s) == multiset([u] + ServerGrid.FreeNeighbors(w, h, free, u))
    }

    /**
     * `self.pibt.step(self.Q, self.priorities)` with the planner aimed at `goals`: agents in
     * descending priority, each trying its cells nearest-to-goal first. Every agent stays or
     * moves to a free neighbour, no two share a cell, no two swap, and the planner's occupancy
     * arrays are cleared again.
     */
    method Advance(goals: seq<nat>, shuffles: seq<seq<nat>>) returns (qNext: seq<nat>)
      requires Valid() && |goals| == |Q| && |shuffles| == |Q|
      requires forall i :: 0 <= i < |Q| ==> Shuffled(shuffles[i], Q[i])
      modifies occNow, occNxt
      ensures Valid()
      ensures ResolverStep.SafeStep(Q, DistTables.FreeNeighbors(w, h, free), qNext)
      ensures CellsIn(qNext, w * h)
    {
      qNext := Plan(w, h, free, dist, Q, goals, shuffles, priorities, occNow, occNxt);
    }

    /** The batteries after the move: every agent that changed cell loses one unit, down to 0. */
    method DrainMoved(qNext: seq<nat>)
      requires Valid() && |qNext| == |Q|
      modifies this`states
      ensures Valid() && |states| == |old(states)|
      ensures forall i :: 0 <= i < |states| ==>
        states[i] == if qNext[i] != Q[i] then old(states[i]).(battery := Drain(old(states[i]).battery)) else old(states[i])
    {
      for i := 0 to |states|
        invariant Valid() && |states| == |old(states)|
        invariant forall j :: i <= j < |states| ==> states[j] == old(states[j])
        invariant forall j :: 0 <= j < i ==>
          states[j] == if qNext[j] != Q[j] then old(states[j]).(battery := Drain(old(states[j]).battery)) else old(states[j])
      {
        if qNext[i] != Q[i] {
          states := states[i := states[i].(battery := Drain(states[i].battery))];
        }
      }
    }

    /**
     * `update_priorities`: an agent not at its goal after the move gains one; an agent at its
     * goal drops to the fractional part of its priority, which lies in [0, 1).
     */
    method UpdatePriorities(qNext: seq<nat>)
      requires Valid() && |qNext| == |Q|
      modifies this`priorities
      ensures Valid() && |priorities| == |old(priorities)|
      ensures forall i :: 0 <= i < |priorities| ==>
        priorities[i] == if qNext[i] != states[i].goal then old(priorities[i]) + 1.0
                         else old(priorities[i]) - old(priorities[i]).Floor as real
      ensures forall i :: 0 <= i < |priorities| && qNext[i] == states[i].goal ==> priorities[i] < 1.0
    {
      for i := 0 to |priorities|
        invariant Valid() && |priorities| == |old(priorities)|
        invariant forall j :: i <= j < |priorities| ==> priorities[j] == old(priorities[j])
        invariant forall j :: 0 <= j < i ==>
          priorities[j] == if qNext[j] != states[j].goal then old(priorities[j]) + 1.0
                           else old(priorities[j]) - old(priorities[j]).Floor as real
        invariant forall j :: 0 <= j < i && qNext[j] == states[j].goal ==> priorities[j] < 1.0
      {
        if qNext[i] != states[i].goal {
          priorities := priorities[i := priorities[i] + 1.0];
        } else {
          priorities := priorities[i := priorities[i] - priorities[i].Floor as real];
        }
      }
    }

    /**
     * The station half of `step` took the agents from `s0`, standing on `q`, to `s`: the
     * arrivals pass (with dwell draws `draws`) gave `arrived`, the dwell and charging pass gave
     * `worked`, and the hand-overs that started from the holders and queues `hl`/`ql`, `hd`/`qd`
     * and `hc`/`qc` gave `s`.
     */
    ghost predicate AssignedFrom(s0: seq<AgentState>, q: seq<nat>, draws: seq<nat>,
                                 arrived: seq<AgentState>, worked: seq<AgentState>,
                                 hl: seq<Option<nat>>, ql: seq<seq<nat>>, hd: seq<Option<nat>>,
                                 qd: seq<seq<nat>>, hc: seq<Option<nat>>, qc: seq<seq<nat>>,
                                 s: seq<AgentState>)
    {
      |q| == |s0| && |draws| == |s0| && |arrived| == |s0| && |worked| == |s0| && |s| == |s0| &&
      |hl| == |L.cells| && |ql| == |L.cells| && |hd| == |D.cells| && |qd| == |D.cells| &&
      |hc| == |C.cells| && |qc| == |C.cells| &&
      forall i :: 0 <= i < |s0| ==>
        Arrived(s0[i], arrived[i], q[i], draws[i]) && Worked(arrived[i], worked[i]) &&
        s[i] == HandedAll(worked[i], i, hl, ql, hd, qd, hc, qc)
    }

    /**
     * What the three hand-over loops make of agent `a` whose state after the dwell and charging
     * pass is `s`: the loaders hand it the last one it heads (if any), then the dumps, then the
     * chargers.
     */
    function HandedAll(s: AgentState, a: nat,
                       hl: seq<Option<nat>>, ql: seq<seq<nat>>, hd: seq<Option<nat>>, qd: seq<seq<nat>>,
                       hc: seq<Option<nat>>, qc: seq<seq<nat>>): AgentState
      requires |hl| == |L.cells| && |ql| == |L.cells| && |hd| == |D.cells| && |qd| == |D.cells|
      requires |hc| == |C.cells| && |qc| == |C.cells|
    {
      HandedBy(HandedBy(HandedBy(s, LoaderKind, ServedBy(hl, ql, a, |hl|)),
                        DumpKind, ServedBy(hd, qd, a, |hd|)),
               ChargerKind, ServedBy(hc, qc, a, |hc|))
    }

    /**
     * The motion half of `step` took agents in states `s0` on cells `q0` with priorities `p0`
     * to states `s` on cells `q` with priorities `p`: the planner aimed each at its own cell
     * while it waits at a loader and at its goal otherwise; every agent that changed cell lost
     * one unit of battery; an agent off its goal gained one priority, one on it dropped to the
     * fractional part.
     */
    ghost predicate MovedFrom(s0: seq<AgentState>, q0: seq<nat>, p0: seq<real>, goals: seq<nat>,
                              s: seq<AgentState>, q: seq<nat>, p: seq<real>)
    {
      |q0| == |s0| && |p0| == |s0| && |goals| == |s0| && |s| == |s0| && |q| == |s0| && |p| == |s0| &&
      forall i :: 0 <= i < |s0| ==>
        goals[i] == (if s0[i].goalKind == StayGoal then q0[i] else s0[i].goal) &&
        s[i] == (if q[i] != q0[i] then s0[i].(battery := Drain(s0[i].battery)) else s0[i]) &&
        p[i] == if q[i] != s0[i].goal then p0[i] + 1.0 else p0[i] - p0[i].Floor as real
    }

    /**
     * The station half of `step`: arrivals, dwell and charging, then the hand-overs of
     * loaders, dumps and chargers, each loop visiting every station of its kind once; afterwards
     * no station is free while agents wait for it.
     */
    method Assign(draws: seq<nat>, orders: seq<seq<nat>>)
      returns (ghost arrived: seq<AgentState>, ghost worked: seq<AgentState>,
               ghost hl: seq<Option<nat>>, ghost ql: seq<seq<nat>>, ghost hd: seq<Option<nat>>,
               ghost qd: seq<seq<nat>>, ghost hc: seq<Option<nat>>, ghost qc: seq<seq<nat>>)
      requires Valid() && |draws| == |Q| && |orders| == |Q|
      requires forall i :: 0 <= i < |draws| ==> dwellMin <= draws[i] <= dwellMax
      requires forall i :: 0 <= i < |orders| ==> IsOrder(orders[i], |D.cells|)
      modifies this`states, this`stagingReserved, L, D, C
      ensures Valid()
      ensures Settled(L) && Settled(D) && Settled(C)
      ensures AssignedFrom(old(states), Q, draws, arrived, worked, hl, ql, hd, qd, hc, qc, states)
      ensures ServedUpTo(L.holder, L.queue, hl, ql, |hl|) && ServedUpTo(D.holder, D.queue, hd, qd, |hd|)
      ensures ServedUpTo(C.holder, C.queue, hc, qc, |hc|)
    {
      Arrivals(draws);
      arrived := states;
      Work(orders);
      worked := states;
      hl, ql, hd, qd, hc, qc := L.holder, L.queue, D.holder, D.queue, C.holder, C.queue;
      HandOver(LoaderKind);
      ghost var afterL := states;
      HandOver(DumpKind);
      ghost var afterD := states;
      HandOver(ChargerKind);
      forall a | 0 <= a < |states|
        ensures states[a] == HandedAll(worked[a], a, hl, ql, hd, qd, hc, qc)
      {
        assert afterL[a] == HandedBy(worked[a], LoaderKind, ServedBy(hl, ql, a, |hl|));
        assert afterD[a] == HandedBy(afterL[a], DumpKind, ServedBy(hd, qd, a, |hd|));
      }
    }

    /**
     * The motion half of `step`: goals for the planner, one planner move, the battery drain,
     * the priority update and the clock.
     */
    method Move(shuffles: seq<seq<nat>>) returns (goals: seq<nat>)
      requires Valid() && |shuffles| == |Q|
      requires forall i :: 0 <= i < |Q| ==> Shuffled(shuffles[i], Q[i])
      modifies this`states, this`priorities, this`Q, this`t, occNow, occNxt
      ensures Valid() && t == old(t) + 1
      ensures ResolverStep.SafeStep(old(Q), DistTables.FreeNeighbors(w, h, free), Q)
      ensures CellsIn(goals, w * h)
      ensures MovedFrom(old(states), old(Q), old(priorities), goals, states, Q, priorities)
    {
      goals := GoalsForPibt();
      var qNext := Advance(goals, shuffles);
      DrainMoved(qNext);
      UpdatePriorities(qNext);
      Q := qNext;
      t := t + 1;
    }

    /**
     * One call of `step`, `draws`, `orders` and `shuffles` standing for its random draws: the
     * station half takes every agent to the state `handed`, then the motion half moves them.
     */
    method Step(draws: seq<nat>, orders: seq<seq<nat>>, shuffles: seq<seq<nat>>)
      returns (goals: seq<nat>, ghost arrived: seq<AgentState>, ghost worked: seq<AgentState>,
               ghost handed: seq<AgentState>,
               ghost hl: seq<Option<nat>>, ghost ql: seq<seq<nat>>, ghost hd: seq<Option<nat>>,
               ghost qd: seq<seq<nat>>, ghost hc: seq<Option<nat>>, ghost qc: seq<seq<nat>>)
      requires Valid() && |draws| == |Q| && |orders| == |Q| && |shuffles| == |Q|
      requires forall i :: 0 <= i < |draws| ==> dwellMin <= draws[i] <= dwellMax
      requires forall i :: 0 <= i < |orders| ==> IsOrder(orders[i], |D.cells|)
      requires forall i :: 0 <= i < |Q| ==> Shuffled(shuffles[i], Q[i])
      modifies this`states, this`stagingReserved, this`priorities, this`Q, this`t, L, D, C, occNow, occNxt
      ensures Valid() && t == old(t) + 1
      ensures ResolverStep.SafeStep(old(Q), DistTables.FreeNeighbors(w, h, free), Q)
      ensures CellsIn(goals, w * h)
      ensures Settled(L) && Settled(D) && Settled(C)
      ensures AssignedFrom(old(states), old(Q), draws, arrived, worked, hl, ql, hd, qd, hc, qc, handed)
      ensures MovedFrom(handed, old(Q), old(priorities), goals, states, Q, priorities)
      ensures ServedUpTo(L.holder, L.queue, hl, ql, |hl|) && ServedUpTo(D.holder, D.queue, hd, qd, |hd|)
      ensures ServedUpTo(C.holder, C.queue, hc, qc, |hc|)
    {
      arrived, worked, hl, ql, hd, qd, hc, qc := Assign(draws, orders);
      handed := states;
      goals := Move(shuffles);
    }
  }

  /** A cell of a shuffle of `u` and its free neighbours is `u` or one of them, inside the grid. */
  lemma ShuffledCell(w: nat, h: nat, free: seq<bool>, u: nat, s: seq<nat>, v: nat)
    requires ServerGrid.WellFormed(w, h, free) && u < w * h
    requires multiset(s) == multiset([u] + ServerGrid.FreeNeighbors(w, h, free, u))
    requires v in multiset(s)
    ensures v < w * h && (v == u || v in DistTables.FreeNeighbors(w, h, free)(u))
  {
    assert v in [u] + ServerGrid.FreeNeighbors(w, h, free, u);
    if v != u {
      ServerGrid.FreeNeighborsSpec(w, h, free, u, v);
    }
  }

  /** The candidate list of `funcPIBT`: the shuffled cells, stably sorted by the distance to the goal. */
  function Candidates(dist: (nat, nat) -> int, goal: nat, shuffled: seq<nat>): (r: seq<nat>)
    ensures multiset(r) == multiset(shuffled)
    ensures Ordering.SortedBy(r, (u: nat) => dist(goal, u) as real)
  {
    Ordering.SortBySorted(shuffled, (u: nat) => dist(goal, u) as real);
    Ordering.SortBy(shuffled, (u: nat) => dist(goal, u) as real)
  }

  /**
   * The planner's `step` on the grid `w` x `h`: agent `i` tries the cells of `shuffles[i]`
   * sorted by the distance to `goals[i]`, agents are taken in descending priority, and the
   * occupancy arrays (all `|qfrom|`, the planner's NIL, on entry) are cleared again on exit.
   */
  method Plan(w: nat, h: nat, free: seq<bool>, dist: (nat, nat) -> int, qfrom: seq<nat>, goals: seq<nat>,
              shuffles: seq<seq<nat>>, priorities: seq<real>, occNow: array<int>, occNxt: array<int>)
    returns (qNext: seq<nat>)
    requires ServerGrid.WellFormed(w, h, free)
    requires CellsIn(qfrom, w * h) && forall i, j :: 0 <= i < j < |qfrom| ==> qfrom[i] != qfrom[j]
    requires |goals| == |qfrom| && |shuffles| == |qfrom| && |priorities| == |qfrom|
    requires forall i :: 0 <= i < |qfrom| ==>
      multiset(shuffles[i]) == multiset([qfrom[i]] + ServerGrid.FreeNeighbors(w, h, free, qfrom[i]))
    requires occNow != occNxt && occNow.Length == w * h && occNxt.Length == w * h
    requires forall c :: 0 <= c < w * h ==> occNow[c] == |qfrom| && occNxt[c] == |qfrom|
    modifies occNow, occNxt
    ensures ResolverStep.SafeStep(qfrom, DistTables.FreeNeighbors(w, h, free), qNext)
    ensures CellsIn(qNext, w * h)
    ensures forall c :: 0 <= c < w * h ==> occNow[c] == |qfrom| && occNxt[c] == |qfrom|
  {
    var cands := CandidateLists(dist, goals, shuffles);
    var order := Ordering.ByPriority(priorities);
    PlanInputs(w, h, free, dist, qfrom, goals, shuffles, priorities);
    var qto := ResolverStep.StepReusing(qfrom, cands, order, DistTables.FreeNeighbors(w, h, free), |qfrom|, occNow, occNxt);
    qNext := OnGrid(w, h, free, qfrom, qto);
  }

  /** One candidate list per agent. */
  function CandidateLists(dist: (nat, nat) -> int, goals: seq<nat>, shuffles: seq<seq<nat>>): (r: seq<seq<nat>>)
    requires |goals| == |shuffles|
    ensures |r| == |shuffles|
    ensures forall i :: 0 <= i < |r| ==> multiset(r[i]) == multiset(shuffles[i])
  {
    seq(|shuffles|, i requires 0 <= i < |shuffles| => Candidates(dist, goals[i], shuffles[i]))
  }

  /** The candidate lists and the priority order meet the resolver's premises. */
  lemma PlanInputs(w: nat, h: nat, free: seq<bool>, dist: (nat, nat) -> int, qfrom: seq<nat>, goals: seq<nat>,
                   shuffles: seq<seq<nat>>, priorities: seq<real>)
    requires ServerGrid.WellFormed(w, h, free)
    requires CellsIn(qfrom, w * h) && forall i, j :: 0 <= i < j < |qfrom| ==> qfrom[i] != qfrom[j]
    requires |goals| == |qfrom| && |shuffles| == |qfrom| && |priorities| == |qfrom|
    requires forall i :: 0 <= i < |qfrom| ==>
      multiset(shuffles[i]) == multiset([qfrom[i]] + ServerGrid.FreeNeighbors(w, h, free, qfrom[i]))
    ensures ResolverStep.StepInputs(qfrom, w * h, CandidateLists(dist, goals, shuffles), Ordering.ByPriority(priorities),
                                    DistTables.FreeNeighbors(w, h, free), |qfrom|)
  {
    var cands := CandidateLists(dist, goals, shuffles);
    forall i, v | 0 <= i < |qfrom| && v in cands[i]
      ensures v < w * h && (v == qfrom[i] || v in DistTables.FreeNeighbors(w, h, free)(qfrom[i]))
    {
      assert v in multiset(cands[i]);
      ShuffledCell(w, h, free, qfrom[i], shuffles[i], v);
    }
    Ordering.ByPriorityOrder(priorities);
  }

  /** A safe step from cells of the grid stays on cells of the grid. */
  function OnGrid(w: nat, h: nat, free: seq<bool>, qfrom: seq<nat>, qto: seq<int>): (r: seq<nat>)
    requires ServerGrid.WellFormed(w, h, free) && CellsIn(qfrom, w * h)
    requires ResolverStep.SafeStep(qfrom, DistTables.FreeNeighbors(w, h, free), qto)
    ensures ResolverStep.SafeStep(qfrom, DistTables.FreeNeighbors(w, h, free), r)
    ensures CellsIn(r, w * h)
  {
    var nbrs := DistTables.FreeNeighbors(w, h, free);
    DistTables.FreeNeighborsClosed(w, h, free);
    assert forall i :: 0 <= i < |qto| ==> 0 <= qto[i] < w * h by {
      forall i | 0 <= i < |qto|
        ensures 0 <= qto[i] < w * h
      {
        if qto[i] != qfrom[i] {
          assert qto[i] in nbrs(qfrom[i]);
        }
      }
    }
    var r := seq(|qto|, i requires 0 <= i < |qto| => qto[i] as nat);
    assert forall i :: 0 <= i < |qto| ==> r[i] == qto[i];
    r
  }

  /** No station is free while agents wait for it. */
  ghost predicate Settled(S: Stations.StationSet)
    reads S
  {
    forall k :: 0 <= k < |S.holder| && k < |S.queue| && S.holder[k].None? ==> S.queue[k] == []
  }

  /**
   * The last station below `n` that is free with `a` at the head of its queue: the station
   * `a` is handed last by a hand-over loop over the first `n` stations.
   */
  function ServedBy(holder: seq<Option<nat>>, queue: seq<seq<nat>>, a: nat, n: nat): (r: Option<nat>)
    requires n <= |holder| && n <= |queue|
    ensures r.Some? ==> r.value < n && holder[r.value].None? && queue[r.value] != [] && queue[r.value][0] == a
    ensures r.Some? ==> forall k :: r.value < k < n && holder[k].None? && queue[k] != [] ==> queue[k][0] != a
    ensures r.None? ==> forall k :: 0 <= k < n && holder[k].None? && queue[k] != [] ==> queue[k][0] != a
  {
    if n == 0 then None
    else if holder[n - 1].None? && queue[n - 1] != [] && queue[n - 1][0] == a then Some(n - 1)
    else ServedBy(holder, queue, a, n - 1)
  }

  /**
   * The hand-over loop has visited stations `0 .. k-1` of a set that started with holders `h0`
   * and queues `q0`: each of those that was free with agents waiting went to the head of its
   * queue; the others, and the stations not yet visited, are as they were.
   */
  ghost predicate ServedUpTo(holder: seq<Option<nat>>, queue: seq<seq<nat>>,
                             h0: seq<Option<nat>>, q0: seq<seq<nat>>, k: nat)
  {
    |holder| == |h0| && |queue| == |h0| && |q0| == |h0| && k <= |h0| &&
    (forall j :: k <= j < |h0| ==> holder[j] == h0[j] && queue[j] == q0[j]) &&
    (forall j :: 0 <= j < k ==>
      if h0[j].None? && q0[j] != []
      then holder[j] == Some(q0[j][0]) && queue[j] == q0[j][1..]
      else holder[j] == h0[j] && queue[j] == q0[j])
  }

  lemma ServedStep(holder: seq<Option<nat>>, queue: seq<seq<nat>>,
                   holder': seq<Option<nat>>, queue': seq<seq<nat>>,
                   h0: seq<Option<nat>>, q0: seq<seq<nat>>, k: nat)
    requires ServedUpTo(holder, queue, h0, q0, k) && k < |h0|
    requires if holder[k].None? && queue[k] != []
      then holder' == holder[k := Some(queue[k][0])] && queue' == queue[k := queue[k][1..]]
      else holder' == holder && queue' == queue
    ensures ServedUpTo(holder', queue', h0, q0, k + 1)
  {
  }

  /** Once every station is visited, none is free while agents wait for it. */
  lemma ServedSettled(holder: seq<Option<nat>>, queue: seq<seq<nat>>, h0: seq<Option<nat>>, q0: seq<seq<nat>>)
    requires ServedUpTo(holder, queue, h0, q0, |h0|)
    ensures forall k :: 0 <= k < |holder| && holder[k].None? ==> queue[k] == []
    ensures forall k :: 0 <= k < |h0| ==>
      if h0[k].None? && q0[k] != []
      then holder[k] == Some(q0[k][0]) && queue[k] == q0[k][1..]
      else holder[k] == h0[k] && queue[k] == q0[k]
  {
  }

  lemma NonNegativeRatio(a: real, b: real)
    requires a >= 0.0 && b > 0.0
    ensures a / b >= 0.0
  {
  }

  /** A subset of a finite set is no larger. */
  lemma {:induction false} SubsetCard(a: set<nat>, b: set<nat>)
    requires a <= b
    ensures |a| <= |b|
    decreases |a|
  {
    if a != {} {
      var x :| x in a;
      SubsetCard(a - {x}, b - {x});
    }
  }

  lemma {:induction false} CellsCard(m: nat)
    ensures |PathSearch.Cells(m)| == m
  {
    if m > 0 {
      CellsCard(m - 1);
      assert PathSearch.Cells(m) == PathSearch.Cells(m - 1) + {m - 1};
    }
  }

  /** Among `n` stations, fewer held ones than stations leave one free, and all held means `n` held. */
  lemma TakenCount(taken: set<nat>, n: nat)
    requires taken <= PathSearch.Cells(n)
    ensures |taken| <= n
    ensures |taken| < n ==> exists k :: 0 <= k < n && k !in taken
    ensures (forall k :: 0 <= k < n ==> k in taken) <==> |taken| == n
  {
    CellsCard(n);
    SubsetCard(taken, PathSearch.Cells(n));
    if forall k :: 0 <= k < n ==> k in taken {
      SubsetCard(PathSearch.Cells(n), taken);
    } else {
      var k :| 0 <= k < n && k !in taken;
      SubsetCard(taken, PathSearch.Cells(n) - {k});
    }
  }

  /** Seating one more agent on the free loader `k`. */
  lemma SeatStep(taken: set<nat>, n: nat, i: nat, k: nat)
    requires taken <= PathSearch.Cells(n) && |taken| == (if i < n then i else n)
    requires k < n && k !in taken
    ensures i < n && taken + {k} <= PathSearch.Cells(n) && |taken + {k}| == i + 1
  {
    TakenCount(taken, n);
  }

  /** With every loader held, all the agents seated so far already hold them all. */
  lemma SeatFull(taken: set<nat>, n: nat, i: nat)
    requires taken <= PathSearch.Cells(n) && |taken| == (if i < n then i else n)
    requires forall k :: 0 <= k < n ==> k in taken
    ensures i >= n
  {
    TakenCount(taken, n);
  }

  /**
   * The seating loop of `__init__` as written: each agent in turn takes the nearest free
   * loader, but `staging_reserved` is only created after the loop, so the first agent that
   * finds every loader held raises AttributeError inside `find_staging_cell_near`. `ok` is
   * false exactly when that happens: whenever there are more agents than loaders.
   */
  method SeatAsWritten(L: Stations.StationSet, dist: (nat, nat) -> int, starts: seq<nat>) returns (ok: bool)
    requires L.Valid() && forall k :: 0 <= k < |L.cells| ==> L.holder[k].None?
    modifies L
    ensures ok <==> |starts| <= |L.cells|
  {
    ghost var taken: set<nat> := {};
    for i := 0 to |starts|
      invariant L.Valid() && |taken| == i && i <= |L.cells|
      invariant taken <= PathSearch.Cells(|L.cells|)
      invariant forall k :: 0 <= k < |L.cells| ==> (L.holder[k].Some? <==> k in taken)
    {
      var k := NearestUnclaimed(L, dist, starts[i]);
      var claimed := false;
      if k.Some? {
        claimed := L.ClaimIfFree(k.value, i);
      }
      if !claimed {
        // the staging branch reads the attribute that does not exist yet
        TakenCount(taken, |L.cells|);
        return false;
      }
      taken := taken + {k.value};
      TakenCount(taken, |L.cells|);
    }
    ok := true;
  }
}
