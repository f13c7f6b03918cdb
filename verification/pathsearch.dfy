/**
 * Breadth-first path search of the lock-based controller (src/ts/TwoController.tsx):
 * `findPath`, and `findConstrainedPath`, which may not enter a forbidden vertex other than
 * the goal nor use a forbidden directed edge. Both pop a FIFO queue, record the parent of
 * every cell they discover and read the path back from the goal. The grid's memoised
 * `neighbors` is the parameter `nbrs` over `m` cells; for the controller's obstacle-free
 * grid it is `DistTables.GridNeighbors(w, h)` over `w*h` cells.
 */
module PathSearch {
  import opened Wrappers
  import Ordering
  import DistTables

  /**
   * A move the constrained search may take: to a listed neighbour that is not forbidden
   * (the goal always may be entered) along an edge that is not forbidden.
   */
  predicate Move(nbrs: nat -> seq<nat>, fv: set<nat>, fe: set<(nat, nat)>, goal: nat, u: nat, v: nat)
  {
    v in nbrs(u) && (v !in fv || v == goal) && (u, v) !in fe
  }

  /** `p` runs from `a` to `b` by allowed moves. */
  predicate Route(nbrs: nat -> seq<nat>, fv: set<nat>, fe: set<(nat, nat)>, goal: nat, p: seq<nat>, a: nat, b: nat)
  {
    |p| > 0 && p[0] == a && p[|p| - 1] == b &&
    forall i :: 0 <= i < |p| - 1 ==> Move(nbrs, fv, fe, goal, p[i], p[i + 1])
  }

  /** With nothing forbidden, a route is exactly a walk along listed neighbours. */
  lemma RouteIsWalk(nbrs: nat -> seq<nat>, p: seq<nat>, a: nat, b: nat)
    ensures Route(nbrs, {}, {}, b, p, a, b) <==> DistTables.Walk(nbrs, p, a, b)
  {
    if DistTables.Walk(nbrs, p, a, b) {
      forall i | 0 <= i < |p| - 1
        ensures Move(nbrs, {}, {}, b, p[i], p[i + 1])
      {
        assert p[i + 1] in nbrs(p[i]);
      }
    }
  }

  /** Every allowed move out of a cell of `vis` stays inside `vis`. */
  ghost predicate Closed(nbrs: nat -> seq<nat>, fv: set<nat>, fe: set<(nat, nat)>, goal: nat, vis: set<nat>)
  {
    forall u, v :: u in vis && Move(nbrs, fv, fe, goal, u, v) ==> v in vis
  }

  /** A route that starts in a closed set ends in it. */
  lemma {:induction false} RouteInside(nbrs: nat -> seq<nat>, fv: set<nat>, fe: set<(nat, nat)>, goal: nat,
                                       vis: set<nat>, p: seq<nat>, a: nat, b: nat)
    requires Closed(nbrs, fv, fe, goal, vis) && a in vis
    requires Route(nbrs, fv, fe, goal, p, a, b)
    ensures b in vis
    decreases |p|
  {
    if |p| > 1 {
      assert Move(nbrs, fv, fe, goal, p[0], p[1]);
      assert Route(nbrs, fv, fe, goal, p[1..], p[1], b) by {
        forall i | 0 <= i < |p[1..]| - 1
          ensures Move(nbrs, fv, fe, goal, p[1..][i], p[1..][i + 1])
        {
          assert p[1..][i] == p[i + 1] && p[1..][i + 1] == p[i + 2];
        }
      }
      RouteInside(nbrs, fv, fe, goal, vis, p[1..], p[1], b);
    }
  }

  /** A search that ran dry without discovering the goal leaves no route to it. */
  lemma NoRoute(nbrs: nat -> seq<nat>, fv: set<nat>, fe: set<(nat, nat)>, goal: nat, start: nat, visited: set<nat>)
    requires Expanded(nbrs, fv, fe, goal, [], visited, -1) && start in visited && goal !in visited
    ensures forall p :: !Route(nbrs, fv, fe, goal, p, start, goal)
  {
    forall p | Route(nbrs, fv, fe, goal, p, start, goal)
      ensures false
    {
      RouteInside(nbrs, fv, fe, goal, visited, p, start, goal);
    }
  }

  /** The cell indices `0 .. m-1`. */
  function Cells(m: nat): (r: set<nat>)
    ensures forall c: nat :: c in r <==> c < m
  {
    var s := Ordering.Indices(m);
    var r := set c | c in s;
    assert forall c: nat :: c < m ==> c in r by {
      forall c: nat | c < m ensures c in r {
        assert s[c] == c && s[c] in s;
      }
    }
    assert forall c: nat :: c in r ==> c < m by {
      forall c: nat | c in r ensures c < m {
        var k :| 0 <= k < |s| && s[k] == c;
      }
    }
    r
  }

  /** Parent links: each discovered cell but the start hangs off a shallower discovered cell by an allowed move. */
  ghost predicate Linked(nbrs: nat -> seq<nat>, fv: set<nat>, fe: set<(nat, nat)>, goal: nat, start: nat,
                         parent: map<nat, int>, rank: map<nat, nat>)
  {
    parent.Keys == rank.Keys && start in parent && parent[start] == -1 &&
    forall v {:trigger LinkedAt(nbrs, fv, fe, goal, parent, rank, v)} :: v in parent && v != start ==>
      LinkedAt(nbrs, fv, fe, goal, parent, rank, v)
  }

  /** The discovered cell `v` hangs off a shallower discovered cell by an allowed move. */
  ghost predicate LinkedAt(nbrs: nat -> seq<nat>, fv: set<nat>, fe: set<(nat, nat)>, goal: nat,
                           parent: map<nat, int>, rank: map<nat, nat>, v: nat)
    requires v in parent && parent.Keys == rank.Keys
  {
    0 <= parent[v] && parent[v] as nat in parent && Move(nbrs, fv, fe, goal, parent[v] as nat, v) &&
    rank[parent[v] as nat] < rank[v]
  }

  /** The queue holds discovered cells, each once. */
  ghost predicate Queued(queue: seq<nat>, visited: set<nat>)
  {
    (forall k :: 0 <= k < |queue| ==> queue[k] in visited) &&
    (forall a, b :: 0 <= a < b < |queue| ==> queue[a] != queue[b])
  }

  /** The search state: discovered cells inside the grid, each with its parent link, the queue among them. */
  ghost predicate Frontier(m: nat, nbrs: nat -> seq<nat>, fv: set<nat>, fe: set<(nat, nat)>, goal: nat, start: nat,
                           queue: seq<nat>, visited: set<nat>, parent: map<nat, int>, rank: map<nat, nat>)
  {
    visited == parent.Keys && visited <= Cells(m) && Linked(nbrs, fv, fe, goal, start, parent, rank) &&
    Queued(queue, visited)
  }

  /** Every discovered cell that has left the queue, other than `busy`, has all its allowed moves discovered. */
  ghost predicate Expanded(nbrs: nat -> seq<nat>, fv: set<nat>, fe: set<(nat, nat)>, goal: nat,
                           queue: seq<nat>, visited: set<nat>, busy: int)
  {
    forall x, v :: x in visited && x !in queue && x != busy && Move(nbrs, fv, fe, goal, x, v) ==> v in visited
  }

  /** Discovering `v` from `u`: mark it, link it and queue it. */
  lemma Discover(m: nat, nbrs: nat -> seq<nat>, fv: set<nat>, fe: set<(nat, nat)>, goal: nat, start: nat,
                 queue: seq<nat>, visited: set<nat>, parent: map<nat, int>, rank: map<nat, nat>, u: nat, v: nat)
    requires Frontier(m, nbrs, fv, fe, goal, start, queue, visited, parent, rank)
    requires Expanded(nbrs, fv, fe, goal, queue, visited, u)
    requires u in visited && v !in visited && v < m && Move(nbrs, fv, fe, goal, u, v)
    ensures Frontier(m, nbrs, fv, fe, goal, start, queue + [v], visited + {v}, parent[v := u], rank[v := rank[u] + 1])
    ensures Expanded(nbrs, fv, fe, goal, queue + [v], visited + {v}, u)
  {
    var q := queue + [v];
    assert forall k :: 0 <= k < |queue| ==> q[k] == queue[k];
    var p, r := parent[v := u], rank[v := rank[u] + 1];
    forall x | x in p && x != start
      ensures LinkedAt(nbrs, fv, fe, goal, p, r, x)
    {
      if x != v {
        assert LinkedAt(nbrs, fv, fe, goal, parent, rank, x);
      }
    }
  }

  /**
   * The state while the neighbours of the popped cell `u` are scanned: a sound frontier that
   * only grew, in which `u` is the one dequeued cell whose moves may not all be discovered.
   */
  ghost predicate Scanning(m: nat, nbrs: nat -> seq<nat>, fv: set<nat>, fe: set<(nat, nat)>, goal: nat, start: nat, u: nat,
                           queue0: seq<nat>, visited0: set<nat>,
                           queue: seq<nat>, visited: set<nat>, parent: map<nat, int>, rank: map<nat, nat>)
  {
    && Frontier(m, nbrs, fv, fe, goal, start, queue, visited, parent, rank)
    && Expanded(nbrs, fv, fe, goal, queue, visited, u)
    && visited0 <= visited && (visited == visited0 ==> queue == queue0)
    && u in visited && u !in queue
  }

  /** Discovering one more allowed neighbour of `u` keeps the scan sound. */
  lemma ScanStep(m: nat, nbrs: nat -> seq<nat>, fv: set<nat>, fe: set<(nat, nat)>, goal: nat, start: nat, u: nat,
                 queue0: seq<nat>, visited0: set<nat>,
                 queue: seq<nat>, visited: set<nat>, parent: map<nat, int>, rank: map<nat, nat>, v: nat)
    requires Scanning(m, nbrs, fv, fe, goal, start, u, queue0, visited0, queue, visited, parent, rank)
    requires v !in visited && v < m && Move(nbrs, fv, fe, goal, u, v)
    ensures Scanning(m, nbrs, fv, fe, goal, start, u, queue0, visited0,
                     queue + [v], visited + {v}, parent[v := u], rank[v := rank[u] + 1])
    ensures v in queue + [v]
  {
    Discover(m, nbrs, fv, fe, goal, start, queue, visited, parent, rank, u, v);
  }

  /** Once every allowed neighbour of `u` is discovered, every dequeued cell is fully expanded. */
  lemma ScanDone(m: nat, nbrs: nat -> seq<nat>, fv: set<nat>, fe: set<(nat, nat)>, goal: nat, start: nat, u: nat,
                 queue0: seq<nat>, visited0: set<nat>,
                 queue: seq<nat>, visited: set<nat>, parent: map<nat, int>, rank: map<nat, nat>)
    requires Scanning(m, nbrs, fv, fe, goal, start, u, queue0, visited0, queue, visited, parent, rank)
    requires forall k :: 0 <= k < |nbrs(u)| && Move(nbrs, fv, fe, goal, u, nbrs(u)[k]) ==> nbrs(u)[k] in visited
    ensures Expanded(nbrs, fv, fe, goal, queue, visited, -1)
  {
    forall x, v | x in visited && x !in queue && Move(nbrs, fv, fe, goal, x, v)
      ensures v in visited
    {
      if x == u {
        var k :| 0 <= k < |nbrs(u)| && nbrs(u)[k] == v;
      }
    }
  }

  /** The allowed moves to the first `j + 1` neighbours are discovered once the `j`-th one is. */
  lemma Covered(nbrs: nat -> seq<nat>, fv: set<nat>, fe: set<(nat, nat)>, goal: nat, u: nat, j: nat,
                visited0: set<nat>, visited: set<nat>)
    requires j < |nbrs(u)| && visited0 <= visited
    requires forall k :: 0 <= k < j && Move(nbrs, fv, fe, goal, u, nbrs(u)[k]) ==> nbrs(u)[k] in visited0
    requires Move(nbrs, fv, fe, goal, u, nbrs(u)[j]) ==> nbrs(u)[j] in visited
    ensures forall k :: 0 <= k < j + 1 && Move(nbrs, fv, fe, goal, u, nbrs(u)[k]) ==> nbrs(u)[k] in visited
  {
  }

  /** Reads the path back from `goal` along the parent links (pushing, then reversing, as a prepend). */
  method Trace(nbrs: nat -> seq<nat>, fv: set<nat>, fe: set<(nat, nat)>, goal: nat, start: nat,
               parent: map<nat, int>, ghost rank: map<nat, nat>) returns (path: seq<nat>)
    requires Linked(nbrs, fv, fe, goal, start, parent, rank) && goal in parent
    ensures Route(nbrs, fv, fe, goal, path, start, goal)
  {
    path := [];
    var curr: Option<int> := Some(goal);
    while curr.Some? && curr.value != -1
      invariant curr.Some? && (curr.value == -1 || (0 <= curr.value && curr.value as nat in parent))
      invariant path == [] ==> curr == Some(goal as int)
      invariant path != [] ==> path[|path| - 1] == goal
      invariant path != [] && curr.value != -1 ==> Move(nbrs, fv, fe, goal, curr.value as nat, path[0])
      invariant path != [] && curr.value == -1 ==> path[0] == start
      invariant forall i :: 0 <= i < |path| - 1 ==> Move(nbrs, fv, fe, goal, path[i], path[i + 1])
      decreases if curr.Some? && curr.value >= 0 && curr.value as nat in rank then rank[curr.value as nat] + 1 else 0
    {
      var c := curr.value as nat;
      if c != start {
        assert LinkedAt(nbrs, fv, fe, goal, parent, rank, c);
      }
      path := [c] + path;
      curr := if c in parent then Some(parent[c]) else None;
    }
  }

  /**
   * The inner loop of `findPath`: queues every undiscovered neighbour of the popped cell `u`,
   * stopping with `found` as soon as the goal is discovered.
   */
  method ScanAll(m: nat, nbrs: nat -> seq<nat>, start: nat, goal: nat, u: nat,
                 queue0: seq<nat>, visited0: set<nat>, parent0: map<nat, int>, ghost rank0: map<nat, nat>)
    returns (found: bool, queue: seq<nat>, visited: set<nat>, parent: map<nat, int>, ghost rank: map<nat, nat>)
    requires DistTables.Closed(m, nbrs) && u < m
    requires Frontier(m, nbrs, {}, {}, goal, start, queue0, visited0, parent0, rank0)
    requires Expanded(nbrs, {}, {}, goal, queue0, visited0, u)
    requires u in visited0 && u !in queue0 && goal !in visited0
    ensures Frontier(m, nbrs, {}, {}, goal, start, queue, visited, parent, rank)
    ensures visited0 <= visited && (visited == visited0 ==> queue == queue0)
    ensures found <==> goal in visited
    ensures !found ==> Expanded(nbrs, {}, {}, goal, queue, visited, -1)
  {
    found, queue, visited, parent, rank := false, queue0, visited0, parent0, rank0;
    var ns := nbrs(u);
    for j := 0 to |ns|
      invariant Scanning(m, nbrs, {}, {}, goal, start, u, queue0, visited0, queue, visited, parent, rank)
      invariant goal !in visited
      invariant forall k :: 0 <= k < j && Move(nbrs, {}, {}, goal, u, ns[k]) ==> ns[k] in visited
    {
      var v := ns[j];
      ghost var before := visited;
      if v !in visited {
        assert v in nbrs(u);
        ScanStep(m, nbrs, {}, {}, goal, start, u, queue0, visited0, queue, visited, parent, rank, v);
        visited := visited + {v};
        parent := parent[v := u];
        rank := rank[v := rank[u] + 1];
        queue := queue + [v];
        if v == goal {
          found := true;
          return;
        }
      }
      Covered(nbrs, {}, {}, goal, u, j, before, visited);
    }
    ScanDone(m, nbrs, {}, {}, goal, start, u, queue0, visited0, queue, visited, parent, rank);
  }

  /**
   * `findPath`: `[start]` when start is the goal; otherwise a walk along listed neighbours
   * from start to goal, or `None` exactly when no such walk exists.
   */
  method FindPath(m: nat, nbrs: nat -> seq<nat>, start: nat, goal: nat) returns (path: Option<seq<nat>>)
    requires DistTables.Closed(m, nbrs) && start < m
    ensures start == goal ==> path == Some([start])
    ensures path.Some? ==> DistTables.Walk(nbrs, path.value, start, goal)
    ensures path.None? <==> forall p :: !DistTables.Walk(nbrs, p, start, goal)
  {
    if start == goal {
      assert DistTables.Walk(nbrs, [start], start, goal);
      return Some([start]);
    }
    var queue := [start];
    var parent: map<nat, int> := map[start := -1];
    ghost var rank: map<nat, nat> := map[start := 0];
    var visited := {start};
    var found := false;
    while |queue| > 0
      invariant Frontier(m, nbrs, {}, {}, goal, start, queue, visited, parent, rank)
      invariant Expanded(nbrs, {}, {}, goal, queue, visited, -1)
      invariant !found && goal !in visited
      decreases Cells(m) - visited, |queue|
    {
      var u := queue[0];
      queue := queue[1..];
      assert u !in queue;
      found, queue, visited, parent, rank := ScanAll(m, nbrs, start, goal, u, queue, visited, parent, rank);
      if found {
        break;
      }
    }
    if !found {
      NoRoute(nbrs, {}, {}, goal, start, visited);
      forall p | DistTables.Walk(nbrs, p, start, goal)
        ensures false
      {
        RouteIsWalk(nbrs, p, start, goal);
      }
      return None;
    }
    var p := Trace(nbrs, {}, {}, goal, start, parent, rank);
    RouteIsWalk(nbrs, p, start, goal);
    return Some(p);
  }

  /**
   * The inner loop of `findConstrainedPath`: queues every undiscovered neighbour of `curr`
   * that is not forbidden (the goal excepted) and is not reached by a forbidden edge.
   */
  method ScanAllowed(m: nat, nbrs: nat -> seq<nat>, start: nat, goal: nat, fv: set<nat>, fe: set<(nat, nat)>, curr: nat,
                     queue0: seq<nat>, visited0: set<nat>, parent0: map<nat, int>, ghost rank0: map<nat, nat>)
    returns (queue: seq<nat>, visited: set<nat>, parent: map<nat, int>, ghost rank: map<nat, nat>)
    requires DistTables.Closed(m, nbrs) && curr < m
    requires Frontier(m, nbrs, fv, fe, goal, start, queue0, visited0, parent0, rank0)
    requires Expanded(nbrs, fv, fe, goal, queue0, visited0, curr)
    requires curr in visited0 && curr !in queue0 && (goal in visited0 ==> goal in queue0)
    ensures Frontier(m, nbrs, fv, fe, goal, start, queue, visited, parent, rank)
    ensures visited0 <= visited && (visited == visited0 ==> queue == queue0)
    ensures goal in visited ==> goal in queue
    ensures Expanded(nbrs, fv, fe, goal, queue, visited, -1)
  {
    queue, visited, parent, rank := queue0, visited0, parent0, rank0;
    var ns := nbrs(curr);
    for j := 0 to |ns|
      invariant Scanning(m, nbrs, fv, fe, goal, start, curr, queue0, visited0, queue, visited, parent, rank)
      invariant goal in visited ==> goal in queue
      invariant forall k :: 0 <= k < j && Move(nbrs, fv, fe, goal, curr, ns[k]) ==> ns[k] in visited
    {
      var neigh := ns[j];
      ghost var before := visited;
      // skipped when already discovered, forbidden (the goal excepted) or reached by a forbidden edge
      if neigh !in visited && !(neigh in fv && neigh != goal) && (curr, neigh) !in fe {
        assert neigh in nbrs(curr);
        ScanStep(m, nbrs, fv, fe, goal, start, curr, queue0, visited0, queue, visited, parent, rank, neigh);
        visited := visited + {neigh};
        parent := parent[neigh := curr];
        rank := rank[neigh := rank[curr] + 1];
        queue := queue + [neigh];
      }
      Covered(nbrs, fv, fe, goal, curr, j, before, visited);
    }
    ScanDone(m, nbrs, fv, fe, goal, start, curr, queue0, visited0, queue, visited, parent, rank);
  }

  /**
   * `findConstrainedPath`: a route from start to goal that enters no forbidden vertex but the
   * goal and takes no forbidden edge, or `None` exactly when no such route exists.
   */
  method FindConstrainedPath(m: nat, nbrs: nat -> seq<nat>, start: nat, goal: nat, fv: set<nat>, fe: set<(nat, nat)>)
    returns (path: Option<seq<nat>>)
    requires DistTables.Closed(m, nbrs) && start < m
    ensures path.Some? ==> Route(nbrs, fv, fe, goal, path.value, start, goal)
    ensures path.None? <==> forall p :: !Route(nbrs, fv, fe, goal, p, start, goal)
  {
    var queue := [start];
    var visited := {start};
    var parent: map<nat, int> := map[start := -1];
    ghost var rank: map<nat, nat> := map[start := 0];
    var found := false;
    while |queue| > 0
      invariant Frontier(m, nbrs, fv, fe, goal, start, queue, visited, parent, rank)
      invariant Expanded(nbrs, fv, fe, goal, queue, visited, -1)
      invariant !found && (goal in visited ==> goal in queue)
      decreases Cells(m) - visited, |queue|
    {
      var curr := queue[0];
      queue := queue[1..];
      if curr == goal {
        found := true;
        break;
      }
      assert curr !in queue;
      queue, visited, parent, rank := ScanAllowed(m, nbrs, start, goal, fv, fe, curr, queue, visited, parent, rank);
    }
    if !found {
      NoRoute(nbrs, fv, fe, goal, start, visited);
      return None;
    }
    var p := Trace(nbrs, fv, fe, goal, start, parent, rank);
    return Some(p);
  }
}
