/**
 * The reservation table of the standalone PIBT library: cell and edge reservations over
 * half-open time intervals, each owned by a robot id.
 */
module Reservations {
  import opened Wrappers
  import opened Worlds

  /** The half-open time interval `[start, end)`. */
  datatype Interval = Interval(start: real, end: real)

  datatype CellReservation = CellReservation(node: Node, interval: Interval, robotId: int)

  datatype EdgeReservation = EdgeReservation(from: Node, to: Node, interval: Interval, robotId: int)

  /** `overlap`: the two half-open intervals share an instant. */
  predicate Overlap(a: Interval, b: Interval)
  {
    a.start < b.end && b.start < a.end
  }

  /** Instant `t` lies in the interval. */
  predicate During(i: Interval, t: real)
  {
    i.start <= t < i.end
  }

  /** Overlap is symmetric, and for non-empty intervals it means a common instant. */
  lemma OverlapSpec(a: Interval, b: Interval)
    ensures Overlap(a, b) <==> Overlap(b, a)
    ensures a.start < a.end && b.start < b.end ==>
      (Overlap(a, b) <==> exists t: real :: During(a, t) && During(b, t))
  {
    if a.start < a.end && b.start < b.end && Overlap(a, b) {
      var t := if a.start < b.start then b.start else a.start;
      assert During(a, t) && During(b, t);
    }
  }

  /** Intervals that merely touch (`a.end == b.start`) do not overlap. */
  lemma TouchingDoNotOverlap(a: Interval, b: Interval)
    requires a.end == b.start
    ensures !Overlap(a, b)
  {
  }

  /** `opposite`: the same undirected edge, in either direction. */
  predicate Opposite(a1: Node, a2: Node, b1: Node, b2: Node)
  {
    (a1 == b1 && a2 == b2) || (a1 == b2 && a2 == b1)
  }

  /** `!robotId` in JavaScript: no robot given, or robot 0. */
  predicate Falsy(robotId: Option<int>)
  {
    robotId.None? || robotId.value == 0
  }

  /** The filter of `freeOlderThan`: still running after `time`, and not owned by the freed robot. */
  predicate Kept(end: real, owner: int, time: real, robotId: Option<int>)
  {
    end > time && (Falsy(robotId) || owner != robotId.value)
  }

  function KeepCells(cells: seq<CellReservation>, time: real, robotId: Option<int>): (r: seq<CellReservation>)
    ensures forall c :: c in r <==> c in cells && Kept(c.interval.end, c.robotId, time, robotId)
    ensures |r| <= |cells|
  {
    if cells == [] then []
    else
      var rest := KeepCells(cells[1..], time, robotId);
      if Kept(cells[0].interval.end, cells[0].robotId, time, robotId) then [cells[0]] + rest else rest
  }

  function KeepEdges(edges: seq<EdgeReservation>, time: real, robotId: Option<int>): (r: seq<EdgeReservation>)
    ensures forall e :: e in r <==> e in edges && Kept(e.interval.end, e.robotId, time, robotId)
    ensures |r| <= |edges|
  {
    if edges == [] then []
    else
      var rest := KeepEdges(edges[1..], time, robotId);
      if Kept(edges[0].interval.end, edges[0].robotId, time, robotId) then [edges[0]] + rest else rest
  }

  class ReservationTable {
    var cells: seq<CellReservation>
    var edges: seq<EdgeReservation>

    constructor ()
      ensures cells == [] && edges == []
    {
      cells, edges := [], [];
    }

    /** `reserveCell`: one record appended. */
    method ReserveCell(node: Node, interval: Interval, robotId: int)
      modifies this`cells
      ensures cells == old(cells) + [CellReservation(node, interval, robotId)]
      ensures forall iv, other :: other != robotId && Overlap(interval, iv) ==> ConflictCell(node, iv, other)
    {
      cells := cells + [CellReservation(node, interval, robotId)];
      assert cells[|cells| - 1] == CellReservation(node, interval, robotId);
    }

    /** `reserveEdge`: one record appended. */
    method ReserveEdge(from: Node, to: Node, interval: Interval, robotId: int)
      modifies this`edges
      ensures edges == old(edges) + [EdgeReservation(from, to, interval, robotId)]
      ensures forall iv, other :: other != robotId && Overlap(interval, iv) ==>
        ConflictEdge(from, to, iv, other) && ConflictEdge(to, from, iv, other)
    {
      edges := edges + [EdgeReservation(from, to, interval, robotId)];
      assert edges[|edges| - 1] == EdgeReservation(from, to, interval, robotId);
    }

    /**
     * `freeOlderThan`: drops every reservation ending by `time` and, when `robotId` is truthy,
     * every reservation of that robot.
     */
    method FreeOlderThan(time: real, robotId: Option<int>)
      modifies this
      ensures cells == KeepCells(old(cells), time, robotId) && edges == KeepEdges(old(edges), time, robotId)
      ensures forall c :: c in cells ==> c.interval.end > time && (Falsy(robotId) || c.robotId != robotId.value)
      ensures forall e :: e in edges ==> e.interval.end > time && (Falsy(robotId) || e.robotId != robotId.value)
    {
      cells := KeepCells(cells, time, robotId);
      edges := KeepEdges(edges, time, robotId);
    }

    /** `conflictCell`: another robot holds the node during an overlapping interval. */
    predicate ConflictCell(node: Node, interval: Interval, robotId: int)
      reads this
    {
      exists k :: 0 <= k < |cells| && cells[k].node == node && Overlap(cells[k].interval, interval) && cells[k].robotId != robotId
    }

    /** `conflictEdge`: another robot holds the edge, in either direction, during an overlapping interval. */
    predicate ConflictEdge(from: Node, to: Node, interval: Interval, robotId: int)
      reads this
    {
      exists k :: 0 <= k < |edges| && Opposite(edges[k].from, edges[k].to, from, to)
        && Overlap(edges[k].interval, interval) && edges[k].robotId != robotId
    }
  }

  /** A robot never conflicts with its own reservations: on a table holding only its records, there is no conflict. */
  lemma NoSelfConflict(table: ReservationTable, node: Node, from: Node, to: Node, interval: Interval, robotId: int)
    requires forall k :: 0 <= k < |table.cells| ==> table.cells[k].robotId == robotId
    requires forall k :: 0 <= k < |table.edges| ==> table.edges[k].robotId == robotId
    ensures !table.ConflictCell(node, interval, robotId) && !table.ConflictEdge(from, to, interval, robotId)
  {
  }

  /** An edge conflict is the same in both directions of travel. */
  lemma ConflictEdgeReversed(table: ReservationTable, from: Node, to: Node, interval: Interval, robotId: int)
    ensures table.ConflictEdge(from, to, interval, robotId) <==> table.ConflictEdge(to, from, interval, robotId)
  {
  }
}
