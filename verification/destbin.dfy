/**
 * A destination bin of the server: a position and a capacity-bounded list of items.
 */
module DestinationBins {

  /** Whether `add_item` stored the item or raised `ValueError` (the bin was full). */
  datatype AddOutcome = Added | Full

  class DestinationBin {
    const id: int
    const x: real
    const y: real
    const capacity: int
    var items: seq<int>

    /** A new bin holds no items; the default capacity is 10. */
    constructor (binId: int, atX: real, atY: real, cap: int)
      ensures id == binId && x == atX && y == atY && capacity == cap && items == [] && IsEmpty()
    {
      id, x, y, capacity := binId, atX, atY, cap;
      items := [];
    }

    /** `add_item`: appends the item unless the bin already holds `capacity` items. */
    method AddItem(item: int) returns (r: AddOutcome)
      modifies this`items
      ensures r == Full <==> |old(items)| >= capacity
      ensures r == Full ==> items == old(items)
      ensures r == Added ==> items == old(items) + [item]
      ensures |old(items)| <= capacity ==> |items| <= capacity
      ensures (r, items) == Add(old(items), capacity, item)
    {
      if |items| >= capacity {
        return Full;
      }
      items := items + [item];
      r := Added;
    }

    /** `clean_items`: the items become a copy of the given list; capacity is not checked. */
    method CleanItems(newItems: seq<int>)
      modifies this`items
      ensures items == newItems
    {
      items := newItems;
    }

    /** `_is_empty`. */
    predicate IsEmpty()
      reads this
    {
      |items| == 0
    }
  }

  /** `add_item` on a list alone: the outcome and the new list. */
  function Add(items: seq<int>, capacity: int, item: int): (r: (AddOutcome, seq<int>))
    ensures r.0 == Full <==> |items| >= capacity
    ensures r.0 == Full ==> r.1 == items
    ensures r.0 == Added ==> r.1 == items + [item] && |r.1| <= capacity
  {
    if |items| >= capacity then (Full, items) else (Added, items + [item])
  }

  /** However many items are offered, a bin filled only by `add_item` never exceeds its capacity. */
  lemma {:induction false} AddNeverOverfills(items: seq<int>, capacity: int, offered: seq<int>)
    requires |items| <= capacity
    decreases |offered|
    ensures |AddAll(items, capacity, offered)| <= capacity
    ensures |AddAll(items, capacity, offered)| == if |items| + |offered| <= capacity then |items| + |offered| else capacity
  {
    if offered != [] {
      AddNeverOverfills(Add(items, capacity, offered[0]).1, capacity, offered[1..]);
    }
  }

  /** Offering every item in turn. */
  function AddAll(items: seq<int>, capacity: int, offered: seq<int>): seq<int>
    decreases |offered|
  {
    if offered == [] then items else AddAll(Add(items, capacity, offered[0]).1, capacity, offered[1..])
  }
}
