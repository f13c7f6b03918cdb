/**
 * Path planning of the lock-based controller (src/ts/TwoController.tsx): agents are planned
 * one by one with `findConstrainedPath`; every move of a planned path is filed as a fragment,
 * and fragments are chained into longer ones (agent a's move ends where agent b's starts, ...).
 * A chain whose last move ends where its first starts is a potential deadlock, and planning
 * fails as soon as one would be formed. A plan that is accepted holds no potential deadlock.
 */
module Fragments {
  import opened Wrappers
  import DistTables
  import PathSearch
  import Grid

  /** A chain of moves: move `indexes[k]` of agent `agents[k]`'s path, for each k. */
  datatype Fragment = Fragment(agents: seq<nat>, indexes: seq<nat>)

  /** Every (agent, index) of the fragment names an existing move of a planned path. */
  predicate Refers(paths: map<nat, seq<nat>>, f: Fragment)
  {
    |f.agents| == |f.indexes| > 0 &&
    forall k :: 0 <= k < |f.agents| ==> f.agents[k] in paths && f.indexes[k] + 1 < |paths[f.agents[k]]|
  }

  /** The cell the fragment's first move starts from. */
  function Start(paths: map<nat, seq<nat>>, f: Fragment): nat
    requires Refers(paths, f)
  {
    paths[f.agents[0]][f.indexes[0]]
  }

  /** The cell the fragment's last move ends on. */
  function End(paths: map<nat, seq<nat>>, f: Fragment): nat
    requires Refers(paths, f)
  {
    paths[f.agents[|f.agents| - 1]][f.indexes[|f.indexes| - 1] + 1]
  }

  /** A genuine chain: distinct agents, each move starting where the one before ends. */
  predicate Chain(paths: map<nat, seq<nat>>, f: Fragment)
  {
    Refers(paths, f) &&
    (forall a, b :: 0 <= a < b < |f.agents| ==> f.agents[a] != f.agents[b]) &&
    forall k :: 0 <= k < |f.agents| - 1 ==>
      paths[f.agents[k]][f.indexes[k] + 1] == paths[f.agents[k + 1]][f.indexes[k + 1]]
  }

  /** `isPotentialDeadlock`: the fragment's first cell is the cell its last move enters. */
  predicate IsPotentialDeadlock(paths: map<nat, seq<nat>>, f: Fragment)
    requires Refers(paths, f)
  {
    Start(paths, f) == End(paths, f)
  }

  /** One fragment followed by another. */
  function Join(f: Fragment, g: Fragment): Fragment
  {
    Fragment(f.agents + g.agents, f.indexes + g.indexes)
  }

  /** Position `k` of a join reads position `k` of the first part, or `k - |f|` of the second. */
  lemma JoinAt(f: Fragment, g: Fragment, k: nat)
    requires |f.agents| == |f.indexes| && |g.agents| == |g.indexes| && k < |f.agents| + |g.agents|
    ensures k < |f.agents| ==> Join(f, g).agents[k] == f.agents[k] && Join(f, g).indexes[k] == f.indexes[k]
    ensures k >= |f.agents| ==>
      Join(f, g).agents[k] == g.agents[k - |f.agents|] && Join(f, g).indexes[k] == g.indexes[k - |f.agents|]
  {
  }

  /** A join of two fragments that refer to planned moves refers to planned moves. */
  lemma JoinRefers(paths: map<nat, seq<nat>>, f: Fragment, g: Fragment)
    requires Refers(paths, f) && Refers(paths, g)
    ensures Refers(paths, Join(f, g))
  {
    var j := Join(f, g);
    forall k | 0 <= k < |j.agents|
      ensures j.agents[k] in paths && j.indexes[k] + 1 < |paths[j.agents[k]]|
    {
      JoinAt(f, g, k);
    }
  }

  /** Two fragments with no agent in common, each without repeats, join without repeats. */
  lemma JoinDistinct(f: Fragment, g: Fragment)
    requires |f.agents| == |f.indexes| && |g.agents| == |g.indexes|
    requires forall a, b :: 0 <= a < b < |f.agents| ==> f.agents[a] != f.agents[b]
    requires forall a, b :: 0 <= a < b < |g.agents| ==> g.agents[a] != g.agents[b]
    requires forall x :: x in f.agents ==> x !in g.agents
    ensures forall a, b :: 0 <= a < b < |Join(f, g).agents| ==> Join(f, g).agents[a] != Join(f, g).agents[b]
  {
    var j := Join(f, g);
    var n := |f.agents|;
    forall a, b | 0 <= a < b < |j.agents|
      ensures j.agents[a] != j.agents[b]
    {
      JoinAt(f, g, a);
      JoinAt(f, g, b);
      if a < n && b >= n {
        assert f.agents[a] in f.agents;
      }
    }
  }

  /**
   * Two chains with no agent in common, the second starting where the first ends, join into a
   * chain from the first's start to the second's end.
   */
  lemma JoinChain(paths: map<nat, seq<nat>>, f: Fragment, g: Fragment)
    requires Chain(paths, f) && Chain(paths, g) && End(paths, f) == Start(paths, g)
    requires forall x :: x in f.agents ==> x !in g.agents
    ensures Chain(paths, Join(f, g))
    ensures Start(paths, Join(f, g)) == Start(paths, f) && End(paths, Join(f, g)) == End(paths, g)
  {
    JoinRefers(paths, f, g);
    JoinDistinct(f, g);
    JoinLinked(paths, f, g);
    JoinAt(f, g, 0);
    JoinAt(f, g, |Join(f, g).agents| - 1);
  }

  /** In the join of two linked chains every move starts where the one before it ends. */
  lemma JoinLinked(paths: map<nat, seq<nat>>, f: Fragment, g: Fragment)
    requires Chain(paths, f) && Chain(paths, g) && End(paths, f) == Start(paths, g)
    ensures forall k :: 0 <= k < |Join(f, g).agents| - 1 ==>
      paths[Join(f, g).agents[k]][Join(f, g).indexes[k] + 1] == paths[Join(f, g).agents[k + 1]][Join(f, g).indexes[k + 1]]
  {
    var j := Join(f, g);
    var n := |f.agents|;
    forall k | 0 <= k < |j.agents| - 1
      ensures paths[j.agents[k]][j.indexes[k] + 1] == paths[j.agents[k + 1]][j.indexes[k + 1]]
    {
      JoinAt(f, g, k);
      JoinAt(f, g, k + 1);
      if k < n - 1 {
      } else if k == n - 1 {
        assert j.agents[k + 1] == g.agents[0];
      } else {
        assert j.agents[k + 1] == g.agents[k + 1 - n];
      }
    }
  }

  /** The fragment list filed under `key`, empty when there is none (`map.get(key) || []`). */
  function Get(m: map<nat, seq<Fragment>>, key: nat): seq<Fragment>
  {
    if key in m then m[key] else []
  }

  /**
   * Every fragment filed in `thetaS` under `s` is a chain starting at `s`, every one filed in
   * `thetaT` under `t` is a chain ending at `t`, and no filed chain of two or more agents is a
   * potential deadlock.
   */
  ghost predicate Filed(paths: map<nat, seq<nat>>, thetaS: map<nat, seq<Fragment>>, thetaT: map<nat, seq<Fragment>>)
  {
    (forall s, f :: s in thetaS && f in thetaS[s] ==>
      Chain(paths, f) && Start(paths, f) == s && (|f.agents| > 1 ==> !IsPotentialDeadlock(paths, f))) &&
    (forall t, f :: t in thetaT && f in thetaT[t] ==>
      Chain(paths, f) && End(paths, f) == t && (|f.agents| > 1 ==> !IsPotentialDeadlock(paths, f)))
  }

  /**
   * Nothing filed is lost, and whatever was added names `agent`: every list of `m0` is a prefix
   * of its list in `m1`, and every entry past that prefix holds `agent`.
   */
  ghost predicate Grown(m0: map<nat, seq<Fragment>>, m1: map<nat, seq<Fragment>>, agent: nat)
  {
    (forall key :: key in m0 ==> key in m1 && m0[key] <= m1[key]) &&
    forall key, x :: key in m1 && |Get(m0, key)| <= x < |m1[key]| ==> agent in m1[key][x].agents
  }

  /** `Grown` composes. */
  lemma GrownTrans(m0: map<nat, seq<Fragment>>, m1: map<nat, seq<Fragment>>, m2: map<nat, seq<Fragment>>, agent: nat)
    requires Grown(m0, m1, agent) && Grown(m1, m2, agent)
    ensures Grown(m0, m2, agent)
  {
    forall key, x | key in m2 && |Get(m0, key)| <= x < |m2[key]|
      ensures agent in m2[key][x].agents
    {
      if key in m1 && x < |m1[key]| {
        assert m1[key] <= m2[key];
        assert m2[key][x] == m1[key][x];
      }
    }
  }

  /** Appending a fragment that names `agent` to one list grows the table by `agent`. */
  lemma AppendGrows(m: map<nat, seq<Fragment>>, key: nat, f: Fragment, agent: nat)
    requires agent in f.agents
    ensures Grown(m, m[key := Get(m, key) + [f]], agent)
  {
  }

  /** A path of at least one cell whose consecutive cells differ. */
  predicate Moving(path: seq<nat>)
  {
    |path| > 0 && forall i :: 0 <= i < |path| - 1 ==> path[i] != path[i + 1]
  }

  /** Filing a chain that starts at `s` and ends at `t` keeps the tables filed. */
  lemma FileKeeps(paths: map<nat, seq<nat>>, thetaS: map<nat, seq<Fragment>>, thetaT: map<nat, seq<Fragment>>, f: Fragment)
    requires Filed(paths, thetaS, thetaT) && Chain(paths, f)
    requires |f.agents| > 1 ==> !IsPotentialDeadlock(paths, f)
    ensures Filed(paths, thetaS[Start(paths, f) := Get(thetaS, Start(paths, f)) + [f]],
                         thetaT[End(paths, f) := Get(thetaT, End(paths, f)) + [f]])
  {
  }

  /**
   * `registerFragment`: files the fragment at the end of the list for its first cell in
   * `thetaS` and of the list for the cell its last move enters in `thetaT`.
   */
  method RegisterFragment(thetaS0: map<nat, seq<Fragment>>, thetaT0: map<nat, seq<Fragment>>, theta: Fragment,
                          allPaths: map<nat, seq<nat>>)
    returns (thetaS: map<nat, seq<Fragment>>, thetaT: map<nat, seq<Fragment>>)
    requires Refers(allPaths, theta)
    ensures thetaS == thetaS0[Start(allPaths, theta) := Get(thetaS0, Start(allPaths, theta)) + [theta]]
    ensures thetaT == thetaT0[End(allPaths, theta) := Get(thetaT0, End(allPaths, theta)) + [theta]]
  {
    var firstA, firstI := theta.agents[0], theta.indexes[0];
    var start := allPaths[firstA][firstI];
    var lastA, lastI := theta.agents[|theta.agents| - 1], theta.indexes[|theta.indexes| - 1];
    var end := allPaths[lastA][lastI + 1];
    thetaS, thetaT := thetaS0, thetaT0;
    if start !in thetaS {
      thetaS := thetaS[start := []];
    }
    thetaS := thetaS[start := thetaS[start] + [theta]];
    if end !in thetaT {
      thetaT := thetaT[end := []];
    }
    thetaT := thetaT[end := thetaT[end] + [theta]];
  }

  /** The single move `index` of `agent`'s path. */
  function Single(agent: nat, index: nat): Fragment
  {
    Fragment([agent], [index])
  }

  lemma SingleChain(paths: map<nat, seq<nat>>, agent: nat, index: nat)
    requires agent in paths && index + 1 < |paths[agent]|
    ensures Chain(paths, Single(agent, index))
    ensures Start(paths, Single(agent, index)) == paths[agent][index]
    ensures End(paths, Single(agent, index)) == paths[agent][index + 1]
  {
  }

  /** Move `jj` of `agent` followed by a chain starting where the move ends, without `agent`, is a chain. */
  lemma MoveThenChain(paths: map<nat, seq<nat>>, agent: nat, jj: nat, f: Fragment)
    requires agent in paths && jj + 1 < |paths[agent]|
    requires Chain(paths, f) && Start(paths, f) == paths[agent][jj + 1] && agent !in f.agents
    ensures Fragment([agent] + f.agents, [jj] + f.indexes) == Join(Single(agent, jj), f)
    ensures Chain(paths, Join(Single(agent, jj), f)) && agent in Join(Single(agent, jj), f).agents
    ensures |Join(Single(agent, jj), f).agents| > 1
    ensures Start(paths, Join(Single(agent, jj), f)) == paths[agent][jj]
    ensures End(paths, Join(Single(agent, jj), f)) == End(paths, f)
  {
    SingleChain(paths, agent, jj);
    JoinChain(paths, Single(agent, jj), f);
  }

  /** Move `jj` of `agent`'s planned path exists and leaves its cell. */
  predicate MoveOf(paths: map<nat, seq<nat>>, agent: nat, jj: nat)
  {
    agent in paths && jj + 1 < |paths[agent]| && paths[agent][jj] != paths[agent][jj + 1]
  }

  /** Some chain of two or more agents, one of them `agent`, is a potential deadlock. */
  ghost predicate DeadlockThrough(paths: map<nat, seq<nat>>, agent: nat)
  {
    exists f :: Chain(paths, f) && agent in f.agents && |f.agents| > 1 && IsPotentialDeadlock(paths, f)
  }

  /**
   * Files `theta`, a chain through `agent` that is no potential deadlock: the tables stay filed
   * and grow by `agent`.
   */
  method File(thetaS0: map<nat, seq<Fragment>>, thetaT0: map<nat, seq<Fragment>>, theta: Fragment,
              agent: nat, allPaths: map<nat, seq<nat>>)
    returns (thetaS: map<nat, seq<Fragment>>, thetaT: map<nat, seq<Fragment>>)
    requires Filed(allPaths, thetaS0, thetaT0) && Chain(allPaths, theta) && agent in theta.agents
    requires |theta.agents| > 1 ==> !IsPotentialDeadlock(allPaths, theta)
    ensures Filed(allPaths, thetaS, thetaT) && Grown(thetaS0, thetaS, agent) && Grown(thetaT0, thetaT, agent)
    ensures theta in Get(thetaS, Start(allPaths, theta)) && theta in Get(thetaT, End(allPaths, theta))
    ensures forall key :: key != Start(allPaths, theta) ==> Get(thetaS, key) == Get(thetaS0, key)
    ensures forall key :: key != End(allPaths, theta) ==> Get(thetaT, key) == Get(thetaT0, key)
  {
    FileKeeps(allPaths, thetaS0, thetaT0, theta);
    AppendGrows(thetaS0, Start(allPaths, theta), theta, agent);
    AppendGrows(thetaT0, End(allPaths, theta), theta, agent);
    thetaS, thetaT := RegisterFragment(thetaS0, thetaT0, theta, allPaths);
  }

  /**
   * The first loop of `addPathToFragments` for the move from `u` to `v`: every filed chain
   * ending at `u` that does not hold the agent, followed by the move, is checked and filed.
   */
  method ExtendBack(thetaS0: map<nat, seq<Fragment>>, thetaT0: map<nat, seq<Fragment>>, agentId: nat, jj: nat,
                    allPaths: map<nat, seq<nat>>)
    returns (ok: bool, thetaS: map<nat, seq<Fragment>>, thetaT: map<nat, seq<Fragment>>)
    requires Filed(allPaths, thetaS0, thetaT0) && MoveOf(allPaths, agentId, jj)
    ensures Filed(allPaths, thetaS, thetaT) && Grown(thetaS0, thetaS, agentId) && Grown(thetaT0, thetaT, agentId)
    ensures ok ==> ExtendedBack(allPaths, thetaT0, thetaS, thetaT, agentId, jj)
    ensures !ok ==> DeadlockThrough(allPaths, agentId)
  {
    var u := allPaths[agentId][jj];
    var theta := Single(agentId, jj);
    SingleChain(allPaths, agentId, jj);
    thetaS, thetaT := thetaS0, thetaT0;
    ok := true;
    // The list only gains chains ending at `v`, so it stays as it was when the loop began.
    var ts := Get(thetaT, u);
    for k := 0 to |ts|
      invariant Filed(allPaths, thetaS, thetaT)
      invariant Grown(thetaS0, thetaS, agentId) && Grown(thetaT0, thetaT, agentId)
      invariant Get(thetaT, u) == ts
      invariant forall t :: t in ts[..k] && agentId !in t.agents ==> FiledBoth(allPaths, thetaS, thetaT, Join(t, theta))
    {
      var thetat := ts[k];
      assert thetat in thetaT[u];
      assert ts[..k + 1] == ts[..k] + [thetat];
      if agentId in thetat.agents {
        continue;
      }
      var newTheta := Fragment(thetat.agents + [agentId], thetat.indexes + [jj]);
      assert newTheta == Join(thetat, theta);
      JoinChain(allPaths, thetat, theta);
      if IsPotentialDeadlock(allPaths, newTheta) {
        assert agentId in newTheta.agents;
        return false, thetaS, thetaT;
      }
      ghost var s1, t1 := thetaS, thetaT;
      thetaS, thetaT := File(thetaS, thetaT, newTheta, agentId, allPaths);
      GrownTrans(thetaS0, s1, thetaS, agentId);
      GrownTrans(thetaT0, t1, thetaT, agentId);
      forall t | t in ts[..k] && agentId !in t.agents
        ensures FiledBoth(allPaths, thetaS, thetaT, Join(t, theta))
      {
        FiledBothGrown(allPaths, s1, t1, thetaS, thetaT, agentId, Join(t, theta));
      }
    }
    assert ts[..|ts|] == ts;
  }

  /**
   * The second loop of `addPathToFragments` for the move from `u` to `v`: the move followed by
   * every filed chain starting at `v` that does not hold the agent is checked and filed.
   */
  method ExtendFront(thetaS0: map<nat, seq<Fragment>>, thetaT0: map<nat, seq<Fragment>>, agentId: nat, jj: nat,
                     allPaths: map<nat, seq<nat>>)
    returns (ok: bool, thetaS: map<nat, seq<Fragment>>, thetaT: map<nat, seq<Fragment>>)
    requires Filed(allPaths, thetaS0, thetaT0) && MoveOf(allPaths, agentId, jj)
    ensures Filed(allPaths, thetaS, thetaT) && Grown(thetaS0, thetaS, agentId) && Grown(thetaT0, thetaT, agentId)
    ensures ok ==> ExtendedFront(allPaths, thetaS0, thetaS, thetaT, agentId, jj)
    ensures !ok ==> DeadlockThrough(allPaths, agentId)
  {
    var v := allPaths[agentId][jj + 1];
    var theta := Single(agentId, jj);
    SingleChain(allPaths, agentId, jj);
    thetaS, thetaT := thetaS0, thetaT0;
    ok := true;
    // The list only gains chains starting at `u`, so it stays as it was when the loop began.
    var fs := Get(thetaS, v);
    forall x | 0 <= x < |fs|
      ensures Chain(allPaths, fs[x]) && Start(allPaths, fs[x]) == v
    {
      assert fs[x] in thetaS[v];
    }
    for k := 0 to |fs|
      invariant Filed(allPaths, thetaS, thetaT)
      invariant Grown(thetaS0, thetaS, agentId) && Grown(thetaT0, thetaT, agentId)
      invariant Get(thetaS, v) == fs
      invariant forall g :: g in fs[..k] && agentId !in g.agents ==> FiledBoth(allPaths, thetaS, thetaT, Join(theta, g))
    {
      var thetaf := fs[k];
      assert fs[..k + 1] == fs[..k] + [thetaf];
      if agentId in thetaf.agents {
        continue;
      }
      MoveThenChain(allPaths, agentId, jj, thetaf);
      // The move prepended to the chain: agents `[agentId] + thetaf.agents`, indexes `[jj] + thetaf.indexes`.
      var newTheta := Join(theta, thetaf);
      if IsPotentialDeadlock(allPaths, newTheta) {
        return false, thetaS, thetaT;
      }
      ghost var s1, t1 := thetaS, thetaT;
      thetaS, thetaT := File(thetaS, thetaT, newTheta, agentId, allPaths);
      GrownTrans(thetaS0, s1, thetaS, agentId);
      GrownTrans(thetaT0, t1, thetaT, agentId);
      forall g | g in fs[..k] && agentId !in g.agents
        ensures FiledBoth(allPaths, thetaS, thetaT, Join(theta, g))
      {
        FiledBothGrown(allPaths, s1, t1, thetaS, thetaT, agentId, Join(theta, g));
      }
    }
    assert fs[..|fs|] == fs;
  }

  /**
   * The inner loop of the third loop of `addPathToFragments`: `thetat` (a chain ending at `u`),
   * the move from `u` to `v`, then every filed chain starting at `v`, when neither holds the
   * agent and the two share no agent, are checked and filed.
   */
  method BridgeFrom(thetaS0: map<nat, seq<Fragment>>, thetaT0: map<nat, seq<Fragment>>, thetat: Fragment,
                    agentId: nat, jj: nat, allPaths: map<nat, seq<nat>>)
    returns (ok: bool, thetaS: map<nat, seq<Fragment>>, thetaT: map<nat, seq<Fragment>>)
    requires Filed(allPaths, thetaS0, thetaT0) && MoveOf(allPaths, agentId, jj)
    requires Chain(allPaths, thetat) && End(allPaths, thetat) == allPaths[agentId][jj]
    ensures Filed(allPaths, thetaS, thetaT) && Grown(thetaS0, thetaS, agentId) && Grown(thetaT0, thetaT, agentId)
    ensures ok ==> forall g ::
      g in Get(thetaS0, allPaths[agentId][jj + 1]) &&
      agentId !in thetat.agents && agentId !in g.agents && Disjoint(thetat, g) ==>
        FiledBoth(allPaths, thetaS, thetaT, Join(Join(thetat, Single(agentId, jj)), g))
    ensures !ok ==> DeadlockThrough(allPaths, agentId)
  {
    var v := allPaths[agentId][jj + 1];
    var theta := Single(agentId, jj);
    SingleChain(allPaths, agentId, jj);
    thetaS, thetaT := thetaS0, thetaT0;
    ok := true;
    var fs := Get(thetaS, v);
    forall x | 0 <= x < |fs|
      ensures Chain(allPaths, fs[x]) && Start(allPaths, fs[x]) == v
    {
      assert fs[x] in thetaS[v];
    }
    for k := 0 to |fs|
      invariant Filed(allPaths, thetaS, thetaT)
      invariant Grown(thetaS0, thetaS, agentId) && Grown(thetaT0, thetaT, agentId)
      // The list being walked may gain entries, but each of them holds the agent and is skipped.
      invariant fs <= Get(thetaS, v)
      invariant forall x :: |fs| <= x < |Get(thetaS, v)| ==> agentId in Get(thetaS, v)[x].agents
      invariant forall g :: g in fs[..k] && agentId !in thetat.agents && agentId !in g.agents && Disjoint(thetat, g) ==>
        FiledBoth(allPaths, thetaS, thetaT, Join(Join(thetat, theta), g))
    {
      var thetaf := fs[k];
      assert fs[..k + 1] == fs[..k] + [thetaf];
      if agentId in thetat.agents || agentId in thetaf.agents {
        continue;
      }
      if !Disjoint(thetat, thetaf) {
        continue;
      }
      var newTheta := Fragment(thetat.agents + [agentId] + thetaf.agents, thetat.indexes + [jj] + thetaf.indexes);
      JoinChain(allPaths, thetat, theta);
      JoinChain(allPaths, Join(thetat, theta), thetaf);
      assert newTheta == Join(Join(thetat, theta), thetaf);
      if IsPotentialDeadlock(allPaths, newTheta) {
        assert agentId in newTheta.agents;
        return false, thetaS, thetaT;
      }
      ghost var s1, t1 := thetaS, thetaT;
      thetaS, thetaT := File(thetaS, thetaT, newTheta, agentId, allPaths);
      GrownTrans(thetaS0, s1, thetaS, agentId);
      GrownTrans(thetaT0, t1, thetaT, agentId);
      forall g | g in fs[..k] && agentId !in thetat.agents && agentId !in g.agents && Disjoint(thetat, g)
        ensures FiledBoth(allPaths, thetaS, thetaT, Join(Join(thetat, theta), g))
      {
        FiledBothGrown(allPaths, s1, t1, thetaS, thetaT, agentId, Join(Join(thetat, theta), g));
      }
    }
    assert fs[..|fs|] == fs;
  }

  /**
   * The third loop of `addPathToFragments` for the move from `u` to `v`: every filed chain
   * ending at `u`, joined through the move to the chains starting at `v`.
   */
  method Bridge(thetaS0: map<nat, seq<Fragment>>, thetaT0: map<nat, seq<Fragment>>, agentId: nat, jj: nat,
                allPaths: map<nat, seq<nat>>)
    returns (ok: bool, thetaS: map<nat, seq<Fragment>>, thetaT: map<nat, seq<Fragment>>)
    requires Filed(allPaths, thetaS0, thetaT0) && MoveOf(allPaths, agentId, jj)
    ensures Filed(allPaths, thetaS, thetaT) && Grown(thetaS0, thetaS, agentId) && Grown(thetaT0, thetaT, agentId)
    ensures ok ==> Bridged(allPaths, thetaS0, thetaT0, thetaS, thetaT, agentId, jj)
    ensures !ok ==> DeadlockThrough(allPaths, agentId)
  {
    var u, v := allPaths[agentId][jj], allPaths[agentId][jj + 1];
    ghost var theta := Single(agentId, jj);
    thetaS, thetaT := thetaS0, thetaT0;
    ok := true;
    var ts := Get(thetaT, u);
    forall x | 0 <= x < |ts|
      ensures Chain(allPaths, ts[x]) && End(allPaths, ts[x]) == u
    {
      assert ts[x] in thetaT[u];
    }
    for k := 0 to |ts|
      invariant Filed(allPaths, thetaS, thetaT)
      invariant Grown(thetaS0, thetaS, agentId) && Grown(thetaT0, thetaT, agentId)
      // The list being walked may gain entries, but each of them holds the agent and is skipped.
      invariant ts <= Get(thetaT, u)
      invariant forall x :: |ts| <= x < |Get(thetaT, u)| ==> agentId in Get(thetaT, u)[x].agents
      invariant forall t, g ::
        t in ts[..k] && g in Get(thetaS0, v) && agentId !in t.agents && agentId !in g.agents && Disjoint(t, g) ==>
          FiledBoth(allPaths, thetaS, thetaT, Join(Join(t, theta), g))
    {
      assert ts[..k + 1] == ts[..k] + [ts[k]];
      ghost var s1, t1 := thetaS, thetaT;
      ok, thetaS, thetaT := BridgeFrom(thetaS, thetaT, ts[k], agentId, jj, allPaths);
      GrownTrans(thetaS0, s1, thetaS, agentId);
      GrownTrans(thetaT0, t1, thetaT, agentId);
      if !ok {
        return;
      }
      forall t, g | t in ts[..k + 1] && g in Get(thetaS0, v) && agentId !in t.agents && agentId !in g.agents &&
                    Disjoint(t, g)
        ensures FiledBoth(allPaths, thetaS, thetaT, Join(Join(t, theta), g))
      {
        InGrown(thetaS0, s1, agentId, v, g);
        if t in ts[..k] {
          FiledBothGrown(allPaths, s1, t1, thetaS, thetaT, agentId, Join(Join(t, theta), g));
        }
      }
    }
    assert ts[..|ts|] == ts;
  }

  /**
   * `addPathToFragments` for move `jj` of `agentId`'s path: files the move on its own, then runs
   * the three loops, stopping with `false` at the first potential deadlock. If every chain
   * without a move of the agent from `jj` on was filed before, every chain without one from
   * `jj + 1` on is filed after.
   */
  method AddMove(thetaS0: map<nat, seq<Fragment>>, thetaT0: map<nat, seq<Fragment>>, agentId: nat, jj: nat,
                 allPaths: map<nat, seq<nat>>)
    returns (ok: bool, thetaS: map<nat, seq<Fragment>>, thetaT: map<nat, seq<Fragment>>)
    requires Filed(allPaths, thetaS0, thetaT0) && MoveOf(allPaths, agentId, jj)
    ensures Filed(allPaths, thetaS, thetaT) && Grown(thetaS0, thetaS, agentId) && Grown(thetaT0, thetaT, agentId)
    ensures FiledBoth(allPaths, thetaS, thetaT, Single(agentId, jj))
    ensures ok && Complete(allPaths, thetaS0, thetaT0, agentId, jj) ==> Complete(allPaths, thetaS, thetaT, agentId, jj + 1)
    ensures !ok ==> DeadlockThrough(allPaths, agentId)
  {
    var theta := Single(agentId, jj);
    SingleChain(allPaths, agentId, jj);
    var s1, t1 := File(thetaS0, thetaT0, theta, agentId, allPaths);
    ok, thetaS, thetaT := ExtendBack(s1, t1, agentId, jj, allPaths);
    GrownTrans(thetaS0, s1, thetaS, agentId);
    GrownTrans(thetaT0, t1, thetaT, agentId);
    FiledBothGrown(allPaths, s1, t1, thetaS, thetaT, agentId, theta);
    if !ok {
      return;
    }
    var s2, t2 := thetaS, thetaT;
    ok, thetaS, thetaT := ExtendFront(s2, t2, agentId, jj, allPaths);
    GrownTrans(thetaS0, s2, thetaS, agentId);
    GrownTrans(thetaT0, t2, thetaT, agentId);
    FiledBothGrown(allPaths, s2, t2, thetaS, thetaT, agentId, theta);
    if !ok {
      return;
    }
    var s3, t3 := thetaS, thetaT;
    ok, thetaS, thetaT := Bridge(s3, t3, agentId, jj, allPaths);
    GrownTrans(thetaS0, s3, thetaS, agentId);
    GrownTrans(thetaT0, t3, thetaT, agentId);
    FiledBothGrown(allPaths, s3, t3, thetaS, thetaT, agentId, theta);
    if ok {
      GrownTrans(s2, s3, thetaS, agentId);
      GrownTrans(t2, t3, thetaT, agentId);
      GrownTrans(thetaS0, s1, s2, agentId);
      BackMono(allPaths, thetaT0, t1, s2, t2, thetaS, thetaT, agentId, jj);
      FrontMono(allPaths, thetaS0, s2, s3, t3, thetaS, thetaT, agentId, jj);
      GrownTrans(thetaT0, t1, t2, agentId);
      GrownTrans(thetaS0, s2, s3, agentId);
      GrownTrans(thetaT0, t2, t3, agentId);
      BridgedMono(allPaths, thetaS0, thetaT0, s3, t3, thetaS, thetaT, agentId, jj);
      CompleteStep(allPaths, thetaS0, thetaT0, thetaS, thetaT, agentId, jj);
    }
  }

  /**
   * `addPathToFragments`: files every move of `agentId`'s freshly planned path in turn; `false`
   * means a potential deadlock through the agent was found. When every chain over the other
   * planned paths was filed before, every chain over all of them is filed after.
   */
  method AddPathToFragments(thetaS0: map<nat, seq<Fragment>>, thetaT0: map<nat, seq<Fragment>>, agentId: nat,
                            path: seq<nat>, allPaths: map<nat, seq<nat>>)
    returns (ok: bool, thetaS: map<nat, seq<Fragment>>, thetaT: map<nat, seq<Fragment>>)
    requires Filed(allPaths, thetaS0, thetaT0) && agentId in allPaths && allPaths[agentId] == path && Moving(path)
    ensures Filed(allPaths, thetaS, thetaT) && Grown(thetaS0, thetaS, agentId) && Grown(thetaT0, thetaT, agentId)
    ensures ok && Complete(allPaths, thetaS0, thetaT0, agentId, 0) ==> AllFiled(allPaths, thetaS, thetaT)
    ensures !ok ==> DeadlockThrough(allPaths, agentId)
  {
    thetaS, thetaT := thetaS0, thetaT0;
    ok := true;
    for jj := 0 to |path| - 1
      invariant Filed(allPaths, thetaS, thetaT)
      invariant Grown(thetaS0, thetaS, agentId) && Grown(thetaT0, thetaT, agentId)
      invariant Complete(allPaths, thetaS0, thetaT0, agentId, 0) ==> Complete(allPaths, thetaS, thetaT, agentId, jj)
    {
      ghost var s1, t1 := thetaS, thetaT;
      ok, thetaS, thetaT := AddMove(thetaS, thetaT, agentId, jj, allPaths);
      GrownTrans(thetaS0, s1, thetaS, agentId);
      GrownTrans(thetaT0, t1, thetaT, agentId);
      if !ok {
        return;
      }
    }
    CompleteAll(allPaths, thetaS, thetaT, agentId);
  }

  // Completeness: every chain over the planned paths is filed.

  /** `f` is filed under its first cell in `thetaS` and under its end cell in `thetaT`. */
  ghost predicate FiledBoth(paths: map<nat, seq<nat>>, thetaS: map<nat, seq<Fragment>>, thetaT: map<nat, seq<Fragment>>,
                            f: Fragment)
  {
    Refers(paths, f) && f in Get(thetaS, Start(paths, f)) && f in Get(thetaT, End(paths, f))
  }

  /** `f` holds no move of `agent` numbered `jj` or later. */
  predicate Before(f: Fragment, agent: nat, jj: nat)
  {
    forall k :: 0 <= k < |f.agents| && k < |f.indexes| && f.agents[k] == agent ==> f.indexes[k] < jj
  }

  /** Every chain over the planned paths without a move of `agent` from `jj` on is filed. */
  ghost predicate Complete(paths: map<nat, seq<nat>>, thetaS: map<nat, seq<Fragment>>, thetaT: map<nat, seq<Fragment>>,
                           agent: nat, jj: nat)
  {
    forall f :: Chain(paths, f) && Before(f, agent, jj) ==> FiledBoth(paths, thetaS, thetaT, f)
  }

  /** Every chain over the planned paths is filed. */
  ghost predicate AllFiled(paths: map<nat, seq<nat>>, thetaS: map<nat, seq<Fragment>>, thetaT: map<nat, seq<Fragment>>)
  {
    forall f :: Chain(paths, f) ==> FiledBoth(paths, thetaS, thetaT, f)
  }

  /** What is in a list stays in it as the table grows. */
  lemma InGrown(m0: map<nat, seq<Fragment>>, m1: map<nat, seq<Fragment>>, agent: nat, key: nat, f: Fragment)
    requires Grown(m0, m1, agent) && f in Get(m0, key)
    ensures f in Get(m1, key)
  {
    assert m0[key] <= m1[key];
  }

  lemma FiledBothGrown(paths: map<nat, seq<nat>>, s0: map<nat, seq<Fragment>>, t0: map<nat, seq<Fragment>>,
                       s1: map<nat, seq<Fragment>>, t1: map<nat, seq<Fragment>>, agent: nat, f: Fragment)
    requires Grown(s0, s1, agent) && Grown(t0, t1, agent) && FiledBoth(paths, s0, t0, f)
    ensures FiledBoth(paths, s1, t1, f)
  {
    InGrown(s0, s1, agent, Start(paths, f), f);
    InGrown(t0, t1, agent, End(paths, f), f);
  }

  /** The moves `i .. j-1` of a fragment. */
  function Slice(f: Fragment, i: nat, j: nat): Fragment
    requires i <= j <= |f.agents| && j <= |f.indexes|
  {
    Fragment(f.agents[i..j], f.indexes[i..j])
  }

  /** A non-empty run of a chain is a chain, from the cell its first move leaves to the cell its last move enters. */
  lemma SliceChain(paths: map<nat, seq<nat>>, f: Fragment, i: nat, j: nat)
    requires Chain(paths, f) && i < j <= |f.agents|
    ensures Chain(paths, Slice(f, i, j))
    ensures Start(paths, Slice(f, i, j)) == paths[f.agents[i]][f.indexes[i]]
    ensures End(paths, Slice(f, i, j)) == paths[f.agents[j - 1]][f.indexes[j - 1] + 1]
  {
    var g := Slice(f, i, j);
    assert forall k :: 0 <= k < |g.agents| ==> g.agents[k] == f.agents[i + k] && g.indexes[k] == f.indexes[i + k];
    assert Refers(paths, g);
  }

  /** Agents listed before or after a position of a chain differ from the one at that position, and from each other. */
  lemma SliceApart(paths: map<nat, seq<nat>>, f: Fragment, p: nat)
    requires Chain(paths, f) && p < |f.agents|
    ensures f.agents[p] !in Slice(f, 0, p).agents && f.agents[p] !in Slice(f, p + 1, |f.agents|).agents
    ensures forall x :: x in Slice(f, 0, p).agents ==> x !in Slice(f, p + 1, |f.agents|).agents
  {
    var pre, suf := Slice(f, 0, p), Slice(f, p + 1, |f.agents|);
    forall x | x in pre.agents
      ensures x != f.agents[p] && x !in suf.agents
    {
      var a :| 0 <= a < p && pre.agents[a] == x;
      assert x == f.agents[a];
    }
  }

  /** A chain is its moves before `p`, its move at `p`, and its moves after `p`, joined. */
  lemma SliceJoin(f: Fragment, p: nat)
    requires |f.agents| == |f.indexes| && p < |f.agents|
    ensures p == 0 && p + 1 == |f.agents| ==> f == Single(f.agents[p], f.indexes[p])
    ensures p == 0 && p + 1 < |f.agents| ==> f == Join(Single(f.agents[p], f.indexes[p]), Slice(f, p + 1, |f.agents|))
    ensures p > 0 && p + 1 == |f.agents| ==> f == Join(Slice(f, 0, p), Single(f.agents[p], f.indexes[p]))
    ensures p > 0 && p + 1 < |f.agents| ==>
      f == Join(Join(Slice(f, 0, p), Single(f.agents[p], f.indexes[p])), Slice(f, p + 1, |f.agents|))
  {
    assert f.agents == f.agents[..p] + [f.agents[p]] + f.agents[p + 1..];
    assert f.indexes == f.indexes[..p] + [f.indexes[p]] + f.indexes[p + 1..];
  }

  /** No agent is in both fragments. */
  predicate Disjoint(f: Fragment, g: Fragment)
  {
    forall a :: a in f.agents ==> a !in g.agents
  }

  /** What the first loop files: each chain of `thetaT0` ending at `u` without the agent, then the move. */
  ghost predicate ExtendedBack(paths: map<nat, seq<nat>>, thetaT0: map<nat, seq<Fragment>>,
                               thetaS: map<nat, seq<Fragment>>, thetaT: map<nat, seq<Fragment>>, agent: nat, jj: nat)
    requires MoveOf(paths, agent, jj)
  {
    forall t :: t in Get(thetaT0, paths[agent][jj]) && agent !in t.agents ==>
      FiledBoth(paths, thetaS, thetaT, Join(t, Single(agent, jj)))
  }

  /** What the second loop files: the move, then each chain of `thetaS0` starting at `v` without the agent. */
  ghost predicate ExtendedFront(paths: map<nat, seq<nat>>, thetaS0: map<nat, seq<Fragment>>,
                                thetaS: map<nat, seq<Fragment>>, thetaT: map<nat, seq<Fragment>>, agent: nat, jj: nat)
    requires MoveOf(paths, agent, jj)
  {
    forall g :: g in Get(thetaS0, paths[agent][jj + 1]) && agent !in g.agents ==>
      FiledBoth(paths, thetaS, thetaT, Join(Single(agent, jj), g))
  }

  /** What the third loop files: a chain ending at `u`, the move, and a chain starting at `v`, all apart. */
  ghost predicate Bridged(paths: map<nat, seq<nat>>, thetaS0: map<nat, seq<Fragment>>, thetaT0: map<nat, seq<Fragment>>,
                          thetaS: map<nat, seq<Fragment>>, thetaT: map<nat, seq<Fragment>>, agent: nat, jj: nat)
    requires MoveOf(paths, agent, jj)
  {
    forall t, g ::
      t in Get(thetaT0, paths[agent][jj]) && g in Get(thetaS0, paths[agent][jj + 1]) &&
      agent !in t.agents && agent !in g.agents && Disjoint(t, g) ==>
        FiledBoth(paths, thetaS, thetaT, Join(Join(t, Single(agent, jj)), g))
  }

  lemma BackMono(paths: map<nat, seq<nat>>, tSmall: map<nat, seq<Fragment>>, tBig: map<nat, seq<Fragment>>,
                 s1: map<nat, seq<Fragment>>, t1: map<nat, seq<Fragment>>,
                 s2: map<nat, seq<Fragment>>, t2: map<nat, seq<Fragment>>, agent: nat, jj: nat)
    requires MoveOf(paths, agent, jj) && Grown(tSmall, tBig, agent) && ExtendedBack(paths, tBig, s1, t1, agent, jj)
    requires Grown(s1, s2, agent) && Grown(t1, t2, agent)
    ensures ExtendedBack(paths, tSmall, s2, t2, agent, jj)
  {
    forall t | t in Get(tSmall, paths[agent][jj]) && agent !in t.agents
      ensures FiledBoth(paths, s2, t2, Join(t, Single(agent, jj)))
    {
      InGrown(tSmall, tBig, agent, paths[agent][jj], t);
      FiledBothGrown(paths, s1, t1, s2, t2, agent, Join(t, Single(agent, jj)));
    }
  }

  lemma FrontMono(paths: map<nat, seq<nat>>, sSmall: map<nat, seq<Fragment>>, sBig: map<nat, seq<Fragment>>,
                  s1: map<nat, seq<Fragment>>, t1: map<nat, seq<Fragment>>,
                  s2: map<nat, seq<Fragment>>, t2: map<nat, seq<Fragment>>, agent: nat, jj: nat)
    requires MoveOf(paths, agent, jj) && Grown(sSmall, sBig, agent) && ExtendedFront(paths, sBig, s1, t1, agent, jj)
    requires Grown(s1, s2, agent) && Grown(t1, t2, agent)
    ensures ExtendedFront(paths, sSmall, s2, t2, agent, jj)
  {
    forall g | g in Get(sSmall, paths[agent][jj + 1]) && agent !in g.agents
      ensures FiledBoth(paths, s2, t2, Join(Single(agent, jj), g))
    {
      InGrown(sSmall, sBig, agent, paths[agent][jj + 1], g);
      FiledBothGrown(paths, s1, t1, s2, t2, agent, Join(Single(agent, jj), g));
    }
  }

  lemma BridgedMono(paths: map<nat, seq<nat>>, sSmall: map<nat, seq<Fragment>>, tSmall: map<nat, seq<Fragment>>,
                    sBig: map<nat, seq<Fragment>>, tBig: map<nat, seq<Fragment>>,
                    s1: map<nat, seq<Fragment>>, t1: map<nat, seq<Fragment>>, agent: nat, jj: nat)
    requires MoveOf(paths, agent, jj) && Grown(sSmall, sBig, agent) && Grown(tSmall, tBig, agent)
    requires Bridged(paths, sBig, tBig, s1, t1, agent, jj)
    ensures Bridged(paths, sSmall, tSmall, s1, t1, agent, jj)
  {
    forall t, g | t in Get(tSmall, paths[agent][jj]) && g in Get(sSmall, paths[agent][jj + 1]) &&
                  agent !in t.agents && agent !in g.agents && Disjoint(t, g)
      ensures FiledBoth(paths, s1, t1, Join(Join(t, Single(agent, jj)), g))
    {
      InGrown(tSmall, tBig, agent, paths[agent][jj], t);
      InGrown(sSmall, sBig, agent, paths[agent][jj + 1], g);
    }
  }

  /** The moves of a chain before its move `jj` of `agent` form a chain filed at `u`, if the tables were complete. */
  lemma PrefixFiled(paths: map<nat, seq<nat>>, s0: map<nat, seq<Fragment>>, t0: map<nat, seq<Fragment>>,
                    agent: nat, jj: nat, f: Fragment, p: nat)
    requires MoveOf(paths, agent, jj) && Complete(paths, s0, t0, agent, jj)
    requires Chain(paths, f) && 0 < p < |f.agents| && f.agents[p] == agent && f.indexes[p] == jj
    ensures Slice(f, 0, p) in Get(t0, paths[agent][jj]) && agent !in Slice(f, 0, p).agents
  {
    var pre := Slice(f, 0, p);
    SliceChain(paths, f, 0, p);
    SliceApart(paths, f, p);
    assert End(paths, pre) == paths[agent][jj];
    assert Before(pre, agent, jj);
    assert FiledBoth(paths, s0, t0, pre);
  }

  /** The moves of a chain after its move `jj` of `agent` form a chain filed at `v`, if the tables were complete. */
  lemma SuffixFiled(paths: map<nat, seq<nat>>, s0: map<nat, seq<Fragment>>, t0: map<nat, seq<Fragment>>,
                    agent: nat, jj: nat, f: Fragment, p: nat)
    requires MoveOf(paths, agent, jj) && Complete(paths, s0, t0, agent, jj)
    requires Chain(paths, f) && p + 1 < |f.agents| && f.agents[p] == agent && f.indexes[p] == jj
    ensures Slice(f, p + 1, |f.agents|) in Get(s0, paths[agent][jj + 1]) && agent !in Slice(f, p + 1, |f.agents|).agents
  {
    var suf := Slice(f, p + 1, |f.agents|);
    SliceChain(paths, f, p + 1, |f.agents|);
    SliceApart(paths, f, p);
    assert Start(paths, suf) == paths[agent][jj + 1];
    assert Before(suf, agent, jj);
    assert FiledBoth(paths, s0, t0, suf);
  }

  /** A chain through move `jj` of `agent` is filed once the move and the three loops have run. */
  lemma ThroughMove(paths: map<nat, seq<nat>>, s0: map<nat, seq<Fragment>>, t0: map<nat, seq<Fragment>>,
                    s: map<nat, seq<Fragment>>, t: map<nat, seq<Fragment>>, agent: nat, jj: nat, f: Fragment, p: nat)
    requires MoveOf(paths, agent, jj) && Complete(paths, s0, t0, agent, jj)
    requires FiledBoth(paths, s, t, Single(agent, jj))
    requires ExtendedBack(paths, t0, s, t, agent, jj) && ExtendedFront(paths, s0, s, t, agent, jj)
    requires Bridged(paths, s0, t0, s, t, agent, jj)
    requires Chain(paths, f) && p < |f.agents| && f.agents[p] == agent && f.indexes[p] == jj
    ensures FiledBoth(paths, s, t, f)
  {
    var n := |f.agents|;
    var one := Single(agent, jj);
    SliceJoin(f, p);
    if p > 0 && p + 1 < n {
      var pre, suf := Slice(f, 0, p), Slice(f, p + 1, n);
      PrefixFiled(paths, s0, t0, agent, jj, f, p);
      SuffixFiled(paths, s0, t0, agent, jj, f, p);
      SliceApart(paths, f, p);
      assert Disjoint(pre, suf);
      assert FiledBoth(paths, s, t, Join(Join(pre, one), suf));
    } else if p > 0 {
      var pre := Slice(f, 0, p);
      PrefixFiled(paths, s0, t0, agent, jj, f, p);
      assert FiledBoth(paths, s, t, Join(pre, one));
    } else if p + 1 < n {
      var suf := Slice(f, p + 1, n);
      SuffixFiled(paths, s0, t0, agent, jj, f, p);
      assert FiledBoth(paths, s, t, Join(one, suf));
    }
  }

  /**
   * Filing move `jj` with the three loops completes the tables for that move: if every chain
   * without a move of `agent` from `jj` on was filed, every one without a move from `jj + 1` on is.
   */
  lemma CompleteStep(paths: map<nat, seq<nat>>, s0: map<nat, seq<Fragment>>, t0: map<nat, seq<Fragment>>,
                     s: map<nat, seq<Fragment>>, t: map<nat, seq<Fragment>>, agent: nat, jj: nat)
    requires MoveOf(paths, agent, jj) && Grown(s0, s, agent) && Grown(t0, t, agent)
    requires FiledBoth(paths, s, t, Single(agent, jj))
    requires ExtendedBack(paths, t0, s, t, agent, jj) && ExtendedFront(paths, s0, s, t, agent, jj)
    requires Bridged(paths, s0, t0, s, t, agent, jj)
    ensures Complete(paths, s0, t0, agent, jj) ==> Complete(paths, s, t, agent, jj + 1)
  {
    if Complete(paths, s0, t0, agent, jj) {
      forall f | Chain(paths, f) && Before(f, agent, jj + 1)
        ensures FiledBoth(paths, s, t, f)
      {
        if Before(f, agent, jj) {
          FiledBothGrown(paths, s0, t0, s, t, agent, f);
        } else {
          var p :| 0 <= p < |f.agents| && p < |f.indexes| && f.agents[p] == agent && f.indexes[p] >= jj;
          ThroughMove(paths, s0, t0, s, t, agent, jj, f, p);
        }
      }
    }
  }

  /** Once every move of `agent`'s path is past, the tables hold every chain. */
  lemma CompleteAll(paths: map<nat, seq<nat>>, thetaS: map<nat, seq<Fragment>>, thetaT: map<nat, seq<Fragment>>,
                    agent: nat)
    requires agent in paths && |paths[agent]| > 0
    ensures Complete(paths, thetaS, thetaT, agent, |paths[agent]| - 1) ==> AllFiled(paths, thetaS, thetaT)
  {
    if Complete(paths, thetaS, thetaT, agent, |paths[agent]| - 1) {
      forall f | Chain(paths, f)
        ensures FiledBoth(paths, thetaS, thetaT, f)
      {
        assert Before(f, agent, |paths[agent]| - 1);
      }
    }
  }

  // Planning all agents.

  /** No chain of moves over the planned paths is a potential deadlock. */
  ghost predicate NoCircularWait(paths: map<nat, seq<nat>>)
  {
    forall f :: Chain(paths, f) ==> !IsPotentialDeadlock(paths, f)
  }

  /** The path table holding `ps[i]` for agent `i`. */
  function PathMap(ps: seq<seq<nat>>): map<nat, seq<nat>>
  {
    map i: nat | i < |ps| :: ps[i]
  }

  /** Tables that hold every chain, none of two or more agents a potential deadlock, over moving paths: no circular wait. */
  lemma FiledNoCircularWait(paths: map<nat, seq<nat>>, thetaS: map<nat, seq<Fragment>>, thetaT: map<nat, seq<Fragment>>)
    requires Filed(paths, thetaS, thetaT) && AllFiled(paths, thetaS, thetaT)
    requires forall a :: a in paths ==> Moving(paths[a])
    ensures NoCircularWait(paths)
  {
    forall f | Chain(paths, f)
      ensures !IsPotentialDeadlock(paths, f)
    {
      assert FiledBoth(paths, thetaS, thetaT, f);
      assert f in thetaS[Start(paths, f)];
      if |f.agents| == 1 {
        assert Moving(paths[f.agents[0]]);
      }
    }
  }

  /** A fragment without agent `b` reads the same whether or not `b`'s path is in the table. */
  lemma Unrelated(paths: map<nat, seq<nat>>, b: nat, p: seq<nat>, f: Fragment)
    requires b !in f.agents
    ensures Refers(paths[b := p], f) == Refers(paths, f) && Chain(paths[b := p], f) == Chain(paths, f)
    ensures Refers(paths, f) ==>
      Start(paths[b := p], f) == Start(paths, f) && End(paths[b := p], f) == End(paths, f)
  {
    assert forall k :: 0 <= k < |f.agents| ==> f.agents[k] != b;
  }

  /**
   * Adding the path of an agent not yet planned keeps the tables filed, and makes them
   * complete for that agent's first move when they held every chain before.
   */
  lemma NextAgent(paths: map<nat, seq<nat>>, thetaS: map<nat, seq<Fragment>>, thetaT: map<nat, seq<Fragment>>,
                  b: nat, p: seq<nat>)
    requires b !in paths && Filed(paths, thetaS, thetaT) && AllFiled(paths, thetaS, thetaT)
    ensures Filed(paths[b := p], thetaS, thetaT) && Complete(paths[b := p], thetaS, thetaT, b, 0)
  {
    var paths' := paths[b := p];
    forall s, f | s in thetaS && f in thetaS[s]
      ensures Chain(paths', f) && Start(paths', f) == s && (|f.agents| > 1 ==> !IsPotentialDeadlock(paths', f))
    {
      assert b !in f.agents;
      Unrelated(paths, b, p, f);
    }
    forall t, f | t in thetaT && f in thetaT[t]
      ensures Chain(paths', f) && End(paths', f) == t && (|f.agents| > 1 ==> !IsPotentialDeadlock(paths', f))
    {
      assert b !in f.agents;
      Unrelated(paths, b, p, f);
    }
    forall f | Chain(paths', f) && Before(f, b, 0)
      ensures FiledBoth(paths', thetaS, thetaT, f)
    {
      assert b !in f.agents;
      Unrelated(paths, b, p, f);
      assert FiledBoth(paths, thetaS, thetaT, f);
    }
  }

  /** The grid's neighbour lists stay inside the grid. */
  lemma GridClosed(w: nat, h: nat)
    ensures DistTables.Closed(w * h, DistTables.GridNeighbors(w, h))
  {
    if w > 0 {
      DistTables.GridNeighborsClosed(w, h);
    }
  }

  /** A route over the grid from a cell of the grid never stays put. */
  lemma RouteMoving(w: nat, h: nat, fv: set<nat>, fe: set<(nat, nat)>, goal: nat, p: seq<nat>, a: nat, b: nat)
    requires PathSearch.Route(DistTables.GridNeighbors(w, h), fv, fe, goal, p, a, b) && a < w * h
    ensures Moving(p)
  {
    var nbrs := DistTables.GridNeighbors(w, h);
    var cells := PathSearch.Cells(w * h);
    GridClosed(w, h);
    forall u, v | u in cells && PathSearch.Move(nbrs, fv, fe, goal, u, v)
      ensures v in cells
    {
      assert v in nbrs(u);
    }
    forall i | 0 <= i < |p| - 1
      ensures p[i] != p[i + 1]
    {
      assert PathSearch.Route(nbrs, fv, fe, goal, p[..i + 1], a, p[i]);
      PathSearch.RouteInside(nbrs, fv, fe, goal, cells, p[..i + 1], a, p[i]);
      assert PathSearch.Move(nbrs, fv, fe, goal, p[i], p[i + 1]);
      Grid.NeighborListSpec(w, h, {}, p[i], p[i + 1]);
    }
  }

  /** `p` never enters another agent's goal, unless it is `i`'s own start or own goal. */
  ghost predicate AvoidsGoals(starts: seq<nat>, goals: seq<nat>, i: nat, p: seq<nat>)
    requires |starts| == |goals| && i < |starts|
  {
    forall j, k :: 1 <= j < |p| && 0 <= k < |goals| && k != i && p[j] == goals[k] && starts[i] != goals[k] ==>
      p[j] == goals[i]
  }

  /**
   * The vertices `computePaths` forbids agent `idx`: the goals of the other agents, except one
   * that is `idx`'s own start.
   */
  method ForbiddenVerts(starts: seq<nat>, goals: seq<nat>, idx: nat) returns (fv: set<nat>)
    requires |starts| == |goals| && idx < |starts|
    ensures forall c :: c in fv <==> exists k :: 0 <= k < |goals| && k != idx && goals[k] == c && starts[idx] != c
  {
    fv := {};
    for k := 0 to |goals|
      invariant forall c :: c in fv <==> exists j :: 0 <= j < k && j != idx && goals[j] == c && starts[idx] != c
    {
      if k != idx && starts[idx] != goals[k] {
        fv := fv + {goals[k]};
      }
    }
  }

  /** The edges `computePaths` forbids: from `u` into the first cell of every chain filed as ending at `u`. */
  function ForbiddenEdges(paths: map<nat, seq<nat>>, thetaT: map<nat, seq<Fragment>>): (r: set<(nat, nat)>)
    ensures forall u, f :: u in thetaT && f in thetaT[u] && Refers(paths, f) ==> (u, Start(paths, f)) in r
    ensures forall e :: e in r ==> exists u, f :: u in thetaT && f in thetaT[u] && Refers(paths, f) && e == (u, Start(paths, f))
  {
    set u, f | u in thetaT && f in thetaT[u] && Refers(paths, f) :: (u, Start(paths, f))
  }

  /**
   * `computePaths`: plans the agents one by one in `order` (a permutation of the agents, which
   * the source shuffles), each by `findConstrainedPath` avoiding the other agents' goals and the
   * edges that would close a filed chain, then files the new path's moves. It gives up (`None`)
   * when an agent has no such path or a potential deadlock is found. A plan it returns takes
   * every agent from its start to its goal along grid neighbours, never through another agent's
   * goal, and contains no chain of moves that is a potential deadlock.
   */
  /** The goals of the agents other than `idx`, except `idx`'s own start: what `ForbiddenVerts` returns. */
  ghost function OthersGoals(starts: seq<nat>, goals: seq<nat>, idx: nat): set<nat>
    requires |starts| == |goals| && idx < |starts|
  {
    set k | 0 <= k < |goals| && k != idx && starts[idx] != goals[k] :: goals[k]
  }

  /**
   * Why `computePaths` gives up on agent `idx` after planning `done` and filing its chains ending
   * at each cell in `thetaT`: no route avoids the forbidden vertices and edges, or the route
   * found closes a chain through `idx` that is a potential deadlock.
   */
  ghost predicate Stuck(w: nat, h: nat, starts: seq<nat>, goals: seq<nat>, idx: nat,
                        done: map<nat, seq<nat>>, thetaT: map<nat, seq<Fragment>>)
    requires |starts| == |goals| && idx < |starts|
  {
    var nbrs := DistTables.GridNeighbors(w, h);
    var fv := OthersGoals(starts, goals, idx);
    var fe := ForbiddenEdges(done, thetaT);
    (forall p :: !PathSearch.Route(nbrs, fv, fe, goals[idx], p, starts[idx], goals[idx])) ||
    exists p :: PathSearch.Route(nbrs, fv, fe, goals[idx], p, starts[idx], goals[idx]) && DeadlockThrough(done[idx := p], idx)
  }

  method ComputePaths(w: nat, h: nat, starts: seq<nat>, goals: seq<nat>, order: seq<nat>)
    returns (r: Option<seq<seq<nat>>>, ghost stop: nat, ghost done: map<nat, seq<nat>>,
             ghost tS: map<nat, seq<Fragment>>, ghost tT: map<nat, seq<Fragment>>)
    requires |starts| == |goals| && forall i :: 0 <= i < |starts| ==> starts[i] < w * h
    requires |order| == |starts| && forall k :: 0 <= k < |order| ==> order[k] < |starts|
    requires forall i :: 0 <= i < |starts| ==> i in order
    requires forall a, b :: 0 <= a < b < |order| ==> order[a] != order[b]
    ensures r.Some? ==> |r.value| == |starts|
    ensures r.Some? ==> forall i :: 0 <= i < |starts| ==>
      DistTables.Walk(DistTables.GridNeighbors(w, h), r.value[i], starts[i], goals[i]) &&
      AvoidsGoals(starts, goals, i, r.value[i])
    ensures r.Some? ==> NoCircularWait(PathMap(r.value))
    ensures r.None? ==> stop < |order| && Planned(DistTables.GridNeighbors(w, h), starts, goals, order, stop, done)
    ensures r.None? ==> Filed(done, tS, tT) && AllFiled(done, tS, tT)
    ensures r.None? ==> stop < |order| && Stuck(w, h, starts, goals, order[stop], done, tT)
  {
    stop, done, tS, tT := |order|, map[], map[], map[];
    var n := |starts|;
    var cells := w * h;
    var nbrs := DistTables.GridNeighbors(w, h);
    var paths: map<nat, seq<nat>> := map[];
    var thetaS: map<nat, seq<Fragment>> := map[];
    var thetaT: map<nat, seq<Fragment>> := map[];
    GridClosed(w, h);
    for k := 0 to n
      invariant Planned(nbrs, starts, goals, order, k, paths)
      invariant Filed(paths, thetaS, thetaT) && AllFiled(paths, thetaS, thetaT)
    {
      var idx := order[k];
      Unplanned(nbrs, starts, goals, order, k, paths);
      var fv := ForbiddenVerts(starts, goals, idx);
      var fe := ForbiddenEdges(paths, thetaT);
      assert fv == OthersGoals(starts, goals, idx);
      var path := PathSearch.FindConstrainedPath(cells, nbrs, starts[idx], goals[idx], fv, fe);
      stop, done, tS, tT := k, paths, thetaS, thetaT;
      if path.None? {
        return None, stop, done, tS, tT;
      }
      var p := path.value;
      RouteMoving(w, h, fv, fe, goals[idx], p, starts[idx], goals[idx]);
      RouteFacts(nbrs, starts, goals, idx, fv, fe, p);
      NextAgent(paths, thetaS, thetaT, idx, p);
      PlannedStep(nbrs, starts, goals, order, k, paths, p);
      paths := paths[idx := p];
      var ok;
      ok, thetaS, thetaT := AddPathToFragments(thetaS, thetaT, idx, p, paths);
      if !ok {
        return None, stop, done, tS, tT;
      }
    }
    PlannedEvery(nbrs, starts, goals, order, paths);
    var ps := seq(n, i requires 0 <= i < n && i in paths => paths[i]);
    PlannedDone(nbrs, starts, goals, order, paths, ps);
    FiledNoCircularWait(paths, thetaS, thetaT);
    return Some(ps), stop, done, tS, tT;
  }

  /**
   * The routes of the first `k` agents of `order` are planned: each moves at every step, walks
   * from the agent's start to its goal and avoids the other agents' goals.
   */
  ghost predicate Planned(nbrs: nat -> seq<nat>, starts: seq<nat>, goals: seq<nat>, order: seq<nat>, k: nat,
                          paths: map<nat, seq<nat>>)
  {
    |starts| == |goals| && k <= |order| &&
    (forall i :: i in paths <==> i in order[..k]) &&
    forall i :: i in paths ==>
      i < |starts| && Moving(paths[i]) && DistTables.Walk(nbrs, paths[i], starts[i], goals[i]) &&
      AvoidsGoals(starts, goals, i, paths[i])
  }

  /** With no agent listed twice, the next agent of `order` has no route yet. */
  lemma Unplanned(nbrs: nat -> seq<nat>, starts: seq<nat>, goals: seq<nat>, order: seq<nat>, k: nat,
                  paths: map<nat, seq<nat>>)
    requires Planned(nbrs, starts, goals, order, k, paths) && k < |order|
    requires forall a, b :: 0 <= a < b < |order| ==> order[a] != order[b]
    ensures order[k] !in paths
  {
    forall x | x in order[..k]
      ensures x != order[k]
    {
      var a :| 0 <= a < k && order[..k][a] == x;
      assert order[a] == x;
    }
  }

  /** Adding a sound route for the next agent of `order` plans one agent more. */
  lemma PlannedStep(nbrs: nat -> seq<nat>, starts: seq<nat>, goals: seq<nat>, order: seq<nat>, k: nat,
                    paths: map<nat, seq<nat>>, p: seq<nat>)
    requires Planned(nbrs, starts, goals, order, k, paths) && k < |order| && order[k] < |starts|
    requires Moving(p) && DistTables.Walk(nbrs, p, starts[order[k]], goals[order[k]])
    requires AvoidsGoals(starts, goals, order[k], p)
    ensures Planned(nbrs, starts, goals, order, k + 1, paths[order[k] := p])
  {
    assert order[..k + 1] == order[..k] + [order[k]];
  }

  /** When `order` lists exactly the agents, planning all of it gives every agent a route. */
  lemma PlannedEvery(nbrs: nat -> seq<nat>, starts: seq<nat>, goals: seq<nat>, order: seq<nat>,
                     paths: map<nat, seq<nat>>)
    requires Planned(nbrs, starts, goals, order, |order|, paths)
    requires forall i :: 0 <= i < |starts| ==> i in order
    ensures forall i: nat :: i in paths <==> i < |starts|
  {
    assert order[..|order|] == order;
    forall i | 0 <= i < |starts|
      ensures i in paths
    {
      assert i in order[..|order|];
    }
  }

  /** The planned routes, listed by agent, keep every planned property. */
  lemma PlannedDone(nbrs: nat -> seq<nat>, starts: seq<nat>, goals: seq<nat>, order: seq<nat>,
                    paths: map<nat, seq<nat>>, ps: seq<seq<nat>>)
    requires Planned(nbrs, starts, goals, order, |order|, paths)
    requires forall i: nat :: i in paths <==> i < |starts|
    requires |ps| == |starts| && forall i :: 0 <= i < |ps| ==> ps[i] == paths[i]
    ensures PathMap(ps) == paths
    ensures forall i :: 0 <= i < |starts| ==>
      DistTables.Walk(nbrs, ps[i], starts[i], goals[i]) && AvoidsGoals(starts, goals, i, ps[i])
    ensures forall a :: a in paths ==> Moving(paths[a])
  {
  }

  /** A constrained route found for agent `idx` is a walk that avoids the other agents' goals. */
  lemma RouteFacts(nbrs: nat -> seq<nat>, starts: seq<nat>, goals: seq<nat>, idx: nat, fv: set<nat>,
                   fe: set<(nat, nat)>, p: seq<nat>)
    requires |starts| == |goals| && idx < |starts|
    requires forall c :: c in fv <==> exists k :: 0 <= k < |goals| && k != idx && goals[k] == c && starts[idx] != c
    requires PathSearch.Route(nbrs, fv, fe, goals[idx], p, starts[idx], goals[idx])
    ensures DistTables.Walk(nbrs, p, starts[idx], goals[idx]) && AvoidsGoals(starts, goals, idx, p)
  {
    PathSearch.RouteIsWalk(nbrs, p, starts[idx], goals[idx]);
    assert PathSearch.Route(nbrs, {}, {}, goals[idx], p, starts[idx], goals[idx]);
    forall j, k | 1 <= j < |p| && 0 <= k < |goals| && k != idx && p[j] == goals[k] && starts[idx] != goals[k]
      ensures p[j] == goals[idx]
    {
      assert p[j] in fv;
      assert PathSearch.Move(nbrs, fv, fe, goals[idx], p[j - 1], p[j]);
    }
  }
}
