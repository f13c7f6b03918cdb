/**
 * Vertex and edge locks of the lock-based controller (src/ts/TwoController.tsx): the
 * `Reservations` tables, and the discrete half of each path-following `Agent` (which path
 * cell it stands on, which it is moving to, and the locks it takes and gives back).
 * Edge keys `u->v` are the ordered pairs `(u, v)`: two different pairs of cell numbers never
 * print to the same key.
 */
module Locks {
  import opened Wrappers

  datatype Motion = Contracted | Extended

  /** The two lock tables: the owner of each vertex and of each directed edge. */
  datatype Owners = Owners(vertex: map<nat, int>, edge: map<(nat, nat), int>)

  /** Some agent other than `agent` owns `key`. */
  predicate OtherOwns<K>(m: map<K, int>, key: K, agent: int)
  {
    key in m && m[key] != agent
  }

  /**
   * `tryLockMove(agent, u, v)`: fails, changing nothing, exactly when another agent owns `v`,
   * `u->v` or `v->u`; otherwise `agent` now owns `v` and `u->v` and no other entry changes.
   */
  function LockMove(o: Owners, agent: int, u: nat, v: nat): (r: (bool, Owners))
    ensures r.0 <==> !OtherOwns(o.vertex, v, agent) && !OtherOwns(o.edge, (u, v), agent) &&
                     !OtherOwns(o.edge, (v, u), agent)
    ensures !r.0 ==> r.1 == o
    ensures r.0 ==> r.1.vertex.Keys == o.vertex.Keys + {v} && r.1.edge.Keys == o.edge.Keys + {(u, v)}
    ensures r.0 ==> r.1.vertex[v] == agent && r.1.edge[(u, v)] == agent
    ensures r.0 ==> (forall x :: x in o.vertex && x != v ==> r.1.vertex[x] == o.vertex[x]) &&
                    (forall e :: e in o.edge && e != (u, v) ==> r.1.edge[e] == o.edge[e])
  {
    if v in o.vertex && o.vertex[v] != agent then (false, o)
    else if ((u, v) in o.edge && o.edge[(u, v)] != agent) || ((v, u) in o.edge && o.edge[(v, u)] != agent) then (false, o)
    else (true, Owners(o.vertex[v := agent], o.edge[(u, v) := agent]))
  }

  /**
   * `releaseAfterArrive(agent, from, to)`: drops edge `from->to` and vertex `from`, each only
   * when `agent` owns it; every other entry is kept.
   */
  function Release(o: Owners, agent: int, from: nat, to: nat): (r: Owners)
    ensures r.vertex.Keys == if from in o.vertex && o.vertex[from] == agent then o.vertex.Keys - {from} else o.vertex.Keys
    ensures r.edge.Keys == if (from, to) in o.edge && o.edge[(from, to)] == agent then o.edge.Keys - {(from, to)} else o.edge.Keys
    ensures forall x :: x in r.vertex ==> r.vertex[x] == o.vertex[x]
    ensures forall e :: e in r.edge ==> r.edge[e] == o.edge[e]
  {
    var k := (from, to);
    var edge := if k in o.edge && o.edge[k] == agent then o.edge - {k} else o.edge;
    var vertex := if from in o.vertex && o.vertex[from] == agent then o.vertex - {from} else o.vertex;
    Owners(vertex, edge)
  }

  /** `occupyVertex(agent, v)`: `agent` owns `v`, whoever owned it before. */
  function Occupy(o: Owners, agent: int, v: nat): (r: Owners)
    ensures r.edge == o.edge && r.vertex.Keys == o.vertex.Keys + {v} && r.vertex[v] == agent
    ensures forall x :: x in o.vertex && x != v ==> r.vertex[x] == o.vertex[x]
  {
    o.(vertex := o.vertex[v := agent])
  }

  /** What the locks see of an agent: its id, the cell it stands on and the cell it is moving to. */
  datatype View = View(id: int, from: nat, to: Option<nat>)

  /** The agent owns the vertex it stands on and, while moving, the vertex and edge it moves along. */
  predicate HoldsOwn(o: Owners, a: View)
  {
    a.from in o.vertex && o.vertex[a.from] == a.id &&
    (a.to.Some? ==> a.to.value in o.vertex && o.vertex[a.to.value] == a.id &&
                    (a.from, a.to.value) in o.edge && o.edge[(a.from, a.to.value)] == a.id)
  }

  /** Agents with distinct ids, each holding its own locks. */
  predicate Held(o: Owners, fleet: seq<View>)
  {
    (forall i, j :: 0 <= i < j < |fleet| ==> fleet[i].id != fleet[j].id) &&
    forall i :: 0 <= i < |fleet| ==> HoldsOwn(o, fleet[i])
  }

  /** The cells an agent stands on or is moving to. */
  function Claimed(a: View): set<nat>
  {
    {a.from} + if a.to.Some? then {a.to.value} else {}
  }

  /**
   * While the locks are held, no two agents claim a common cell: none stands on or moves
   * into another's cell, so in particular no two agents swap cells.
   */
  lemma HeldSeparates(o: Owners, fleet: seq<View>, i: nat, j: nat)
    requires Held(o, fleet) && i < |fleet| && j < |fleet| && i != j
    ensures Claimed(fleet[i]) !! Claimed(fleet[j])
  {
    assert HoldsOwn(o, fleet[i]) && HoldsOwn(o, fleet[j]);
    assert fleet[i].id != fleet[j].id by {
      if i < j {
        assert fleet[i].id != fleet[j].id;
      } else {
        assert fleet[j].id != fleet[i].id;
      }
    }
  }

  /** A contracted agent's `tryLockMove` toward `v` keeps every agent's locks held, and, when it succeeds, the agent now holds its move. */
  lemma LockKeepsHeld(o: Owners, fleet: seq<View>, i: nat, v: nat)
    requires Held(o, fleet) && i < |fleet| && fleet[i].to.None?
    ensures var (ok, o') := LockMove(o, fleet[i].id, fleet[i].from, v);
      Held(o', if ok then fleet[i := fleet[i].(to := Some(v))] else fleet)
  {
    var (ok, o') := LockMove(o, fleet[i].id, fleet[i].from, v);
    if ok {
      var f' := fleet[i := fleet[i].(to := Some(v))];
      forall k | 0 <= k < |f'|
        ensures HoldsOwn(o', f'[k])
      {
        assert HoldsOwn(o, fleet[k]);
        if k != i {
          assert fleet[k].id != fleet[i].id by {
            if k < i {
              assert fleet[k].id != fleet[i].id;
            } else {
              assert fleet[i].id != fleet[k].id;
            }
          }
        }
      }
    }
  }

  /** Arrival (`releaseAfterArrive`, then `occupyVertex` on the new cell) keeps every agent's locks held. */
  lemma ArriveKeepsHeld(o: Owners, fleet: seq<View>, i: nat)
    requires Held(o, fleet) && i < |fleet| && fleet[i].to.Some?
    ensures var a := fleet[i];
      Held(Occupy(Release(o, a.id, a.from, a.to.value), a.id, a.to.value), fleet[i := View(a.id, a.to.value, None)])
  {
    var a := fleet[i];
    var o' := Occupy(Release(o, a.id, a.from, a.to.value), a.id, a.to.value);
    var f' := fleet[i := View(a.id, a.to.value, None)];
    forall k | 0 <= k < |f'|
      ensures HoldsOwn(o', f'[k])
    {
      assert HoldsOwn(o, fleet[k]);
      if k != i {
        assert fleet[k].id != a.id by {
          if k < i {
            assert fleet[k].id != fleet[i].id;
          } else {
            assert fleet[i].id != fleet[k].id;
          }
        }
      }
    }
  }

  /** Occupying each agent's cell in turn, as the agent constructors and the replanning loop do. */
  function OccupyEach(o: Owners, fleet: seq<View>): Owners
    decreases |fleet|
  {
    if fleet == [] then o else OccupyEach(Occupy(o, fleet[0].id, fleet[0].from), fleet[1..])
  }

  /** An agent that no later occupation touches keeps the vertex it occupied. */
  lemma {:induction false} OccupyEachKeeps(o: Owners, fleet: seq<View>, x: nat)
    requires forall k :: 0 <= k < |fleet| ==> fleet[k].from != x
    ensures x in o.vertex ==> x in OccupyEach(o, fleet).vertex && OccupyEach(o, fleet).vertex[x] == o.vertex[x]
    ensures OccupyEach(o, fleet).edge == o.edge
    decreases |fleet|
  {
    if fleet != [] {
      OccupyEachKeeps(Occupy(o, fleet[0].id, fleet[0].from), fleet[1..], x);
    }
  }

  /**
   * Standing, contracted agents with distinct ids on distinct cells hold their locks once each
   * has occupied its cell on fresh tables.
   */
  lemma {:induction false} OccupyEachHeld(o: Owners, fleet: seq<View>)
    requires forall k :: 0 <= k < |fleet| ==> fleet[k].to.None?
    requires forall a, b :: 0 <= a < b < |fleet| ==> fleet[a].id != fleet[b].id && fleet[a].from != fleet[b].from
    ensures Held(OccupyEach(o, fleet), fleet)
    decreases |fleet|
  {
    if fleet != [] {
      var o1 := Occupy(o, fleet[0].id, fleet[0].from);
      OccupyEachHeld(o1, fleet[1..]);
      OccupyEachKeeps(o1, fleet[1..], fleet[0].from);
      forall k | 0 <= k < |fleet|
        ensures HoldsOwn(OccupyEach(o, fleet), fleet[k])
      {
        if k > 0 {
          assert fleet[k] == fleet[1..][k - 1];
        }
      }
    }
  }

  /** The lock tables, updated in place by every agent. */
  class Reservations {
    var vertexOwner: map<nat, int>
    var edgeOwner: map<(nat, nat), int>

    function Tables(): Owners
      reads this
    {
      Owners(vertexOwner, edgeOwner)
    }

    constructor ()
      ensures vertexOwner == map[] && edgeOwner == map[]
    {
      vertexOwner, edgeOwner := map[], map[];
    }

    method TryLockMove(agent: int, u: nat, v: nat) returns (ok: bool)
      modifies this
      ensures (ok, Tables()) == LockMove(old(Tables()), agent, u, v)
    {
      var vo := if v in vertexOwner then Some(vertexOwner[v]) else None;
      if vo.Some? && vo.value != agent {
        return false;
      }
      var k, kr := (u, v), (v, u);
      var eo := if k in edgeOwner then Some(edgeOwner[k]) else None;
      var eor := if kr in edgeOwner then Some(edgeOwner[kr]) else None;
      if (eo.Some? && eo.value != agent) || (eor.Some? && eor.value != agent) {
        return false;
      }
      vertexOwner := vertexOwner[v := agent];
      edgeOwner := edgeOwner[k := agent];
      return true;
    }

    method ReleaseAfterArrive(agent: int, from: nat, to: nat)
      modifies this
      ensures Tables() == Release(old(Tables()), agent, from, to)
    {
      var k := (from, to);
      if k in edgeOwner && edgeOwner[k] == agent {
        edgeOwner := edgeOwner - {k};
      }
      if from in vertexOwner && vertexOwner[from] == agent {
        vertexOwner := vertexOwner - {from};
      }
    }

    method OccupyVertex(agent: int, v: nat)
      modifies this
      ensures Tables() == Occupy(old(Tables()), agent, v)
    {
      vertexOwner := vertexOwner[v := agent];
    }
  }

  /** The discrete state of a path-following agent: its path, progress along it and lock table. */
  class Agent {
    const id: int
    var path: seq<nat>
    var idx: nat
    var from: nat
    var to: Option<nat>
    var state: Motion
    var goal: nat
    var res: Reservations

    /** The agent stands on path cell `idx` and, while extended, is moving to cell `idx + 1`. */
    ghost predicate Valid()
      reads this
    {
      |path| > 0 && idx < |path| && from == path[idx] &&
      (state == Extended <==> to.Some?) &&
      (to.Some? ==> idx + 1 < |path| && to.value == path[idx + 1])
    }

    /** What the lock tables see of this agent. */
    function AsView(): View
      reads this
    {
      View(id, from, to)
    }

    /** Starts contracted on the first path cell, aiming at the last, and occupies the first cell. */
    constructor (id: int, res: Reservations, path: seq<nat>)
      requires |path| > 0
      modifies res
      ensures Valid() && this.id == id && this.res == res && this.path == path
      ensures idx == 0 && from == path[0] && to == None && state == Contracted && goal == path[|path| - 1]
      ensures res.Tables() == Occupy(old(res.Tables()), id, path[0])
    {
      this.id := id;
      this.res := res;
      this.path := path;
      idx := 0;
      from := path[0];
      to := None;
      state := Contracted;
      goal := path[|path| - 1];
      new;
      res.OccupyVertex(id, path[0]);
    }

    /** `done`: contracted with no path cell left to move to. */
    predicate Done()
      reads this
    {
      idx + 1 >= |path| && state == Contracted
    }

    /** `desiredNext`: the next path cell, or `None` at the end of the path. */
    function DesiredNext(): (r: Option<nat>)
      reads this
      requires Valid()
      ensures r.None? <==> idx + 1 >= |path|
      ensures r.Some? ==> r.value == path[idx + 1]
    {
      if idx + 1 >= |path| then None else Some(path[idx + 1])
    }

    /**
     * `tryStartMove`: at the end of the path nothing happens; otherwise the agent tries to lock
     * the move to the next path cell, and only on success is it extended toward that cell.
     */
    method TryStartMove()
      requires Valid() && state == Contracted
      modifies this, res
      ensures Valid() && res == old(res) && path == old(path) && idx == old(idx) && from == old(from) && goal == old(goal)
      ensures old(idx) + 1 >= |path| ==> res.Tables() == old(res.Tables()) && to == None && state == Contracted
      ensures old(idx) + 1 < |path| ==>
        var (ok, o) := LockMove(old(res.Tables()), id, old(from), path[idx + 1]);
        res.Tables() == o && (ok ==> to == Some(path[idx + 1]) && state == Extended) &&
        (!ok ==> to == None && state == Contracted)
    {
      var vNext := DesiredNext();
      if vNext.None? {
        return;
      }
      var ok := res.TryLockMove(id, from, vNext.value);
      if !ok {
        return;
      }
      to := vNext;
      state := Extended;
    }

    /**
     * Arrival on the target cell: gives back the edge and the old cell, occupies the new cell,
     * and stands contracted on the next path cell.
     */
    method Arrive()
      requires Valid() && state == Extended
      modifies this, res
      ensures Valid() && res == old(res) && path == old(path) && goal == old(goal)
      ensures res.Tables() == Occupy(Release(old(res.Tables()), id, old(from), old(to).value), id, old(to).value)
      ensures from == old(to).value && idx == old(idx) + 1 && to == None && state == Contracted
    {
      var t := to.value;
      res.ReleaseAfterArrive(id, from, t);
      res.OccupyVertex(id, t);
      from := t;
      idx := idx + 1;
      to := None;
      state := Contracted;
    }

    /**
     * The discrete half of `step`: a finished agent does nothing, a contracted one tries to
     * start its next move, and an extended one settles on its target once it `arrived`.
     */
    method Step(arrived: bool)
      requires Valid()
      modifies this, res
      ensures Valid() && res == old(res) && path == old(path) && goal == old(goal)
      ensures old(Done()) ==>
        res.Tables() == old(res.Tables()) && idx == old(idx) && from == old(from) && to == old(to) && state == old(state)
      ensures old(state) == Contracted && !old(Done()) ==>
        var (ok, o) := LockMove(old(res.Tables()), id, old(from), path[old(idx) + 1]);
        res.Tables() == o && idx == old(idx) && from == old(from) &&
        (ok ==> to == Some(path[old(idx) + 1]) && state == Extended) &&
        (!ok ==> to == None && state == Contracted)
      ensures old(state) == Extended && !arrived ==>
        res.Tables() == old(res.Tables()) && idx == old(idx) && from == old(from) && to == old(to) && state == old(state)
      ensures old(state) == Extended && arrived ==>
        res.Tables() == Occupy(Release(old(res.Tables()), id, old(from), old(to).value), id, old(to).value) &&
        from == old(to).value && idx == old(idx) + 1 && to == None && state == Contracted
    {
      if Done() {
        return;
      }
      if state == Contracted {
        TryStartMove();
        return;
      }
      if arrived {
        Arrive();
      }
    }
  }
}
