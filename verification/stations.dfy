/**
 * The station bookkeeping of the server simulator (server/abomination.py, `StationSet`): a row of
 * station cells, each with at most one holder and a FIFO queue of waiting agents, plus the set of
 * the queued agents kept beside each queue for quick membership tests.
 */
module Stations {
  import opened Wrappers

  /** No agent appears twice in `q`. */
  predicate NoRepeats(q: seq<nat>)
  {
    forall a, b :: 0 <= a < b < |q| ==> q[a] != q[b]
  }

  /** The agents waiting in `q`. */
  function Members(q: seq<nat>): set<nat>
  {
    set x | x in q
  }

  class StationSet {
    const cells: seq<nat>
    var holder: seq<Option<nat>>
    var queue: seq<seq<nat>>
    var inQueue: seq<set<nat>>

    /** One holder slot, one queue and one membership set per station; the set mirrors the queue. */
    ghost predicate Valid()
      reads this
    {
      |holder| == |cells| && |queue| == |cells| && |inQueue| == |cells| &&
      forall k :: 0 <= k < |cells| ==> NoRepeats(queue[k]) && inQueue[k] == Members(queue[k])
    }

    /** Every station starts free with an empty queue. */
    constructor (cells: seq<nat>)
      ensures Valid()
      ensures this.cells == cells
      ensures holder == seq(|cells|, _ => None)
      ensures queue == seq(|cells|, _ => [])
      ensures inQueue == seq(|cells|, _ => {})
    {
      this.cells := cells;
      holder := seq(|cells|, _ => None);
      queue := seq(|cells|, _ => []);
      inQueue := seq(|cells|, _ => {});
    }

    /** Station `k` has a holder. */
    predicate IsTaken(k: nat)
      reads this
      requires k < |holder|
    {
      holder[k].Some?
    }

    /** Station `k` is held by an agent other than `agent`. */
    predicate TakenByOther(k: nat, agent: nat)
      reads this
      requires k < |holder|
    {
      holder[k].Some? && holder[k].value != agent
    }

    /**
     * Gives station `k` to `agent` exactly when nobody holds it; the queues are untouched.
     */
    method ClaimIfFree(k: nat, agent: nat) returns (ok: bool)
      requires Valid() && k < |cells|
      modifies this
      ensures Valid()
      ensures ok <==> old(holder[k]).None?
      ensures holder == if ok then old(holder)[k := Some(agent)] else old(holder)
      ensures queue == old(queue) && inQueue == old(inQueue)
      ensures holder[k].Some?
    {
      if holder[k].None? {
        holder := holder[k := Some(agent)];
        ok := true;
      } else {
        ok := false;
      }
    }

    /**
     * Appends `agent` to the queue of station `k` unless it already waits there or holds the
     * station; either way it ends up waiting at or holding `k`.
     */
    method Enqueue(k: nat, agent: nat)
      requires Valid() && k < |cells|
      modifies this
      ensures Valid()
      ensures holder == old(holder)
      ensures var added := agent !in old(inQueue[k]) && old(holder[k]) != Some(agent);
        queue == (if added then old(queue)[k := old(queue[k]) + [agent]] else old(queue)) &&
        inQueue == (if added then old(inQueue)[k := old(inQueue[k]) + {agent}] else old(inQueue))
      ensures agent in queue[k] || holder[k] == Some(agent)
    {
      if agent !in inQueue[k] && holder[k] != Some(agent) {
        var q := queue[k] + [agent];
        assert Members(q) == Members(queue[k]) + {agent};
        queue := queue[k := q];
        inQueue := inQueue[k := inQueue[k] + {agent}];
      }
    }

    /**
     * Hands station `k` to the head of its queue (first come, first served), which stops waiting.
     * An empty queue changes nothing and yields None.
     */
    method PopNext(k: nat) returns (a: Option<nat>)
      requires Valid() && k < |cells|
      modifies this
      ensures Valid()
      ensures a.None? <==> old(queue[k]) == []
      ensures a.None? ==> holder == old(holder) && queue == old(queue) && inQueue == old(inQueue)
      ensures a.Some? ==>
        a.value == old(queue[k][0]) &&
        holder == old(holder)[k := a] &&
        queue == old(queue)[k := old(queue[k][1..])] &&
        inQueue == old(inQueue)[k := old(inQueue[k]) - {a.value}]
      ensures a.Some? ==> a.value !in queue[k] && a.value !in inQueue[k]
    {
      if queue[k] != [] {
        var q := queue[k];
        var head := q[0];
        assert q == [head] + q[1..];
        assert head !in q[1..] by {
          forall j | 0 <= j < |q[1..]|
            ensures q[1..][j] != head
          {
            assert q[1..][j] == q[j + 1];
          }
        }
        assert Members(q[1..]) == Members(q) - {head};
        queue := queue[k := q[1..]];
        inQueue := inQueue[k := inQueue[k] - {head}];
        holder := holder[k := Some(head)];
        a := Some(head);
      } else {
        a := None;
      }
    }

    /** Frees station `k` only if `agent` is its holder. */
    method ReleaseIfHolder(k: nat, agent: nat)
      requires Valid() && k < |cells|
      modifies this
      ensures Valid()
      ensures holder == if old(holder[k]) == Some(agent) then old(holder)[k := None] else old(holder)
      ensures queue == old(queue) && inQueue == old(inQueue)
      ensures holder[k] != Some(agent)
    {
      if holder[k] == Some(agent) {
        holder := holder[k := None];
      }
    }
  }
}
