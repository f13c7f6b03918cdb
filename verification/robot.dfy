/**
 * The robot of the standalone PIBT library: a node, a heading among four orientations and
 * at most one motion primitive in progress (forward one node, turn left, turn right, wait).
 */
module Robots {
  import opened Wrappers
  import opened Worlds

  /** Headings `Up = 0`, `Right = 1`, `Down = 2`, `Left = 3`. */
  type Orientation = t: int | 0 <= t < 4

  const UP: Orientation := 0
  const RIGHT: Orientation := 1
  const DOWN: Orientation := 2
  const LEFT: Orientation := 3

  datatype Mode = Free | ToPickup | ToDeliver | ToLounge

  datatype PrimitiveKind = Forward | RotateL | RotateR | Wait

  datatype Primitive = Primitive(kind: PrimitiveKind, from: Node, to: Node, startTheta: Orientation, endTheta: Orientation)

  /** A primitive being executed, with its start and finish times. */
  datatype ActivePrimitive = Active(spec: Primitive, startAt: real, finishAt: real)

  /** `Robot.dirVec`: the unit step of a heading (`Left` for anything else). */
  function DirVec(theta: int): (r: Node)
    ensures Abs(r.x) + Abs(r.y) == 1
  {
    if theta == UP then Node(0, -1)
    else if theta == RIGHT then Node(1, 0)
    else if theta == DOWN then Node(0, 1)
    else Node(-1, 0)
  }

  /** `Robot.wrapTheta`: `((t % 4) + 4) % 4` with JavaScript's remainder. */
  function WrapTheta(t: int): (r: int)
  {
    JsRem(JsRem(t, 4) + 4, 4)
  }

  /** Every integer is wrapped to a heading congruent to it modulo 4. */
  lemma WrapThetaSpec(t: int)
    ensures 0 <= WrapTheta(t) < 4 && WrapTheta(t) % 4 == t % 4
  {
    var a := JsRem(t, 4);
    assert (t - a) % 4 == 0 by {
      assert (t - a) / 4 * 4 == t - a;
    }
    var b := JsRem(a + 4, 4);
    assert (a + 4 - b) / 4 * 4 == a + 4 - b;
  }

  /** `Robot.turnsBetween`: the number of quarter turns between two headings. */
  function TurnsBetween(a: Orientation, b: Orientation): (r: int)
  {
    var d := Abs(a - b) % 4;
    if d < 4 - d then d else 4 - d
  }

  /** At most two quarter turns separate two headings; the count is symmetric and zero only for equal headings. */
  lemma TurnsBetweenSpec(a: Orientation, b: Orientation)
    ensures 0 <= TurnsBetween(a, b) <= 2
    ensures TurnsBetween(a, b) == TurnsBetween(b, a)
    ensures TurnsBetween(a, b) == 0 <==> a == b
    ensures TurnsBetween(a, b) == 1 <==> (a + 1) % 4 == b || (b + 1) % 4 == a
  {
  }

  /** `Robot.primaryHeading`: the heading of the dominant axis of the displacement from `a` to `b`. */
  function PrimaryHeading(a: Node, b: Node): (r: Orientation)
    ensures var dx, dy := b.x - a.x, b.y - a.y;
      && (Abs(dx) >= Abs(dy) ==> (r == RIGHT <==> dx >= 0) && (r == LEFT <==> dx < 0))
      && (Abs(dx) < Abs(dy) ==> (r == DOWN <==> dy >= 0) && (r == UP <==> dy < 0))
  {
    var dx, dy := b.x - a.x, b.y - a.y;
    if Abs(dx) >= Abs(dy) then (if dx >= 0 then RIGHT else LEFT)
    else (if dy >= 0 then DOWN else UP)
  }

  /** One step along the primary heading brings a robot one step closer to `b` in Manhattan distance. */
  lemma PrimaryHeadingApproaches(a: Node, b: Node)
    requires a != b
    ensures var d := DirVec(PrimaryHeading(a, b));
      Abs(b.x - (a.x + d.x)) + Abs(b.y - (a.y + d.y)) == Abs(b.x - a.x) + Abs(b.y - a.y) - 1
  {
  }

  class Robot {
    const id: int
    var mode: Mode
    var node: Node
    var theta: Orientation
    var taskPickup: Option<Node>
    var taskDelivery: Option<Node>
    var current: Option<ActivePrimitive>

    constructor (robotId: int, start: Node, heading: Orientation)
      ensures id == robotId && node == start && theta == heading
      ensures mode == Free && taskPickup.None? && taskDelivery.None? && current.None?
    {
      id, node, theta := robotId, start, heading;
      mode := Free;
      taskPickup, taskDelivery, current := None, None, None;
    }

    /** No primitive in progress, or the current one is due. */
    predicate IsIdle(now: real)
      reads this
    {
      current.None? || now >= current.value.finishAt
    }

    /** `begin`: the given primitive becomes the current one. */
    method Begin(spec: Primitive, startAt: real, finishAt: real) returns (r: ActivePrimitive)
      modifies this`current
      ensures r == Active(spec, startAt, finishAt) && current == Some(r)
      ensures IsIdle(finishAt) && (startAt < finishAt ==> !IsIdle(startAt))
    {
      r := Active(spec, startAt, finishAt);
      current := Some(r);
    }

    /** `finish`: a due primitive is completed: the robot takes its end node and heading. */
    method Finish(now: real)
      modifies this`node, this`theta, this`current
      ensures !old(IsIdle(now)) || old(current).None? ==> node == old(node) && theta == old(theta) && current == old(current)
      ensures old(current).Some? && now >= old(current).value.finishAt ==>
        node == old(current).value.spec.to && theta == old(current).value.spec.endTheta && current.None?
      ensures old(IsIdle(now)) <==> current.None?
    {
      if current.None? { return; }
      if now < current.value.finishAt { return; }
      node := current.value.spec.to;
      theta := current.value.spec.endTheta;
      current := None;
    }

    /** `forwardSpec`: one node along the heading, unless that node is outside the world or blocked. */
    function ForwardSpec(world: World): (r: Option<Primitive>)
      reads this
      ensures var next := Node(node.x + DirVec(theta).x, node.y + DirVec(theta).y);
        && (r.None? <==> !InBounds(world, next) || IsObstacleAtNode(world, next))
        && (r.Some? ==> r.value == Primitive(Forward, node, next, theta, theta))
    {
      var d := DirVec(theta);
      var next := Node(node.x + d.x, node.y + d.y);
      if !InBounds(world, next) || IsObstacleAtNode(world, next) then None
      else Some(Primitive(Forward, node, next, theta, theta))
    }

    /** `rotateLeftSpec`: a turn in place to `theta + 3` (mod 4). */
    function RotateLeftSpec(): (r: Primitive)
      reads this
      ensures r.from == r.to == node && r.startTheta == theta && r.kind == RotateL
      ensures r.endTheta == (theta + 3) % 4
    {
      WrapThetaSpec(theta + 3);
      Primitive(RotateL, node, node, theta, WrapTheta(theta + 3))
    }

    /** `rotateRightSpec`: a turn in place to `theta + 1` (mod 4). */
    function RotateRightSpec(): (r: Primitive)
      reads this
      ensures r.from == r.to == node && r.startTheta == theta && r.kind == RotateR
      ensures r.endTheta == (theta + 1) % 4
    {
      WrapThetaSpec(theta + 1);
      Primitive(RotateR, node, node, theta, WrapTheta(theta + 1))
    }

    function WaitSpec(): (r: Primitive)
      reads this
      ensures r == Primitive(Wait, node, node, theta, theta)
    {
      Primitive(Wait, node, node, theta, theta)
    }

    /** `candidateSpecs`: forward when available, then left, right and wait. */
    function CandidateSpecs(world: World): (r: seq<Primitive>)
      reads this
      ensures |r| == if ForwardSpec(world).Some? then 4 else 3
      ensures r[|r| - 3] == RotateLeftSpec() && r[|r| - 2] == RotateRightSpec() && r[|r| - 1] == WaitSpec()
      ensures ForwardSpec(world).Some? ==> r[0] == ForwardSpec(world).value
      ensures forall k :: 0 <= k < |r| ==> r[k].from == node && r[k].startTheta == theta
    {
      var f := ForwardSpec(world);
      (if f.Some? then [f.value] else []) + [RotateLeftSpec(), RotateRightSpec(), WaitSpec()]
    }
  }

  /** A right turn followed by a left turn restores the heading, and so does left then right. */
  lemma TurnsCancel(t: Orientation)
    ensures WrapTheta(WrapTheta(t + 1) + 3) == t
    ensures WrapTheta(WrapTheta(t + 3) + 1) == t
  {
    WrapSmall(t + 1);
    WrapSmall(t + 3);
    WrapSmall(WrapTheta(t + 1) + 3);
    WrapSmall(WrapTheta(t + 3) + 1);
  }

  /** Below eight, wrapping subtracts four at most once. */
  lemma WrapSmall(t: int)
    requires 0 <= t < 8
    ensures WrapTheta(t) == if t < 4 then t else t - 4
  {
    WrapThetaSpec(t);
  }
}
