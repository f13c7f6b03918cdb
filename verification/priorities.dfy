/**
 * Robot priorities of the standalone PIBT library: a tier by mode, ties broken by robot id.
 * The tier test names a `Carrying` mode that the robot's `Mode` enumeration does not have, so
 * that branch never fires and a robot heading to its delivery falls into the last tier.
 */
module Priorities {
  import opened Robots

  datatype Priority = Priority(tier: int, tie: int)

  /** `priority`: `ToPickup` 2, `Free` 1, every other mode 0 (the `Carrying` test never holds). */
  function Tier(mode: Mode): (r: int)
    ensures 0 <= r <= 2
    ensures r == 2 <==> mode == ToPickup
    ensures r == 1 <==> mode == Free
  {
    if mode == ToPickup then 2 else if mode == Free then 1 else 0
  }

  function PriorityOf(robot: Robot): (r: Priority)
    reads robot
    ensures r.tie == robot.id && r.tier == Tier(robot.mode)
  {
    Priority(Tier(robot.mode), robot.id)
  }

  /** `comparePriority`: negative when `a` goes first: a higher tier, then a lower id. */
  function ComparePriority(a: Robot, b: Robot): (r: int)
    reads a, b
    ensures Tier(a.mode) != Tier(b.mode) ==> (r < 0 <==> Tier(a.mode) > Tier(b.mode))
    ensures Tier(a.mode) == Tier(b.mode) ==> (r < 0 <==> a.id < b.id) && (r > 0 <==> a.id > b.id)
  {
    var pa, pb := PriorityOf(a), PriorityOf(b);
    if pa.tier != pb.tier then pb.tier - pa.tier else pa.tie - pb.tie
  }

  /** The comparison is antisymmetric. */
  lemma CompareAntisymmetric(a: Robot, b: Robot)
    ensures ComparePriority(a, b) == -ComparePriority(b, a)
  {
  }

  /** It returns 0 only for equal tiers and equal ids, so robots with distinct ids are totally ordered. */
  lemma CompareZero(a: Robot, b: Robot)
    ensures ComparePriority(a, b) == 0 <==> Tier(a.mode) == Tier(b.mode) && a.id == b.id
  {
  }

  /** The comparison is transitive. */
  lemma CompareTransitive(a: Robot, b: Robot, c: Robot)
    requires ComparePriority(a, b) < 0 && ComparePriority(b, c) < 0
    ensures ComparePriority(a, c) < 0
  {
  }

  /** A robot carrying its item to the delivery ranks below a free one of any id. */
  lemma DeliveringRanksLast(a: Robot, b: Robot)
    requires a.mode == ToDeliver && b.mode == Free
    ensures ComparePriority(a, b) > 0
  {
  }
}
