/**
 * The planner world of the standalone PIBT library: a `width`×`height` grid of nodes, indexed
 * row-major, with a list of obstacle nodes (which no operation ever fills).
 */
module Worlds {
  import Grid

  datatype Node = Node(x: int, y: int)

  /** JavaScript's `%`: the remainder takes the sign of the dividend. */
  function JsRem(a: int, b: int): (r: int)
    requires b != 0
    ensures (a - r) / b * b == a - r
    ensures a >= 0 ==> 0 <= r < Abs(b)
    ensures a < 0 ==> -Abs(b) < r <= 0
  {
    var m := Abs(b);
    var r := if a >= 0 then a % m else -((-a) % m);
    var q := if a >= 0 then a / m else -((-a) / m);
    assert a - r == q * m;
    var k := if b > 0 then q else -q;
    assert a - r == k * b;
    ExactQuotient(k, b);
    r
  }

  lemma ExactQuotient(k: int, b: int)
    requires b != 0
    ensures (k * b) / b == k
  {
    var q, r := (k * b) / b, (k * b) % b;
    assert k * b == q * b + r;
    assert (k - q) * b == r by {
      assert (k - q) * b == k * b - q * b;
    }
    SmallMultiple(k - q, b);
  }

  /** A multiple of `b` in `[0, |b|)` is zero. */
  lemma SmallMultiple(d: int, b: int)
    requires b != 0 && 0 <= d * b < Abs(b)
    ensures d == 0
  {
    if d > 0 {
      Grid.MulAtLeast(d, Abs(b));
    }
  }

  function Abs(a: int): int
  {
    if a < 0 then -a else a
  }

  /** `World.index`. */
  function Index(x: int, y: int, width: int): int
  {
    y * width + x
  }

  /** `World.pos`: the column is `index % width` and the row `(index - x) / width`. */
  function Pos(index: int, width: int): Node
    requires width != 0
  {
    var x := JsRem(index, width);
    Node(x, (index - x) / width)
  }

  /** Every index is recovered from its position, negative ones included. */
  lemma IndexOfPos(index: int, width: int)
    requires width != 0
    ensures var p := Pos(index, width); Index(p.x, p.y, width) == index
  {
  }

  /** A node inside a row of width `width` is recovered from its index. */
  lemma {:induction false} PosOfIndex(x: int, y: int, width: int)
    requires 0 <= x < width && y >= 0
    ensures Pos(Index(x, y, width), width) == Node(x, y)
  {
    Grid.DivModOf(width, x, y);
    assert 0 <= y * width;
  }

  /** The world: its size and the obstacles registered in it. */
  datatype World = World(width: int, height: int, obstacles: seq<Node>)

  /** `new World(width, height)`: no obstacles. */
  function NewWorld(width: int, height: int): (r: World)
    ensures r.width == width && r.height == height
    ensures forall n :: InBounds(r, n) ==> !IsObstacleAtNode(r, n)
  {
    World(width, height, [])
  }

  predicate InBounds(world: World, n: Node)
  {
    n.x >= 0 && n.y >= 0 && n.x < world.width && n.y < world.height
  }

  /** Out of bounds counts as an obstacle; in bounds, a listed obstacle node does. */
  predicate IsObstacleAtNode(world: World, n: Node)
  {
    !InBounds(world, n) || exists k :: 0 <= k < |world.obstacles| && world.obstacles[k] == n
  }

  /** The four axis neighbours in the order +x, -x, +y, -y. */
  function Around(n: Node): seq<Node>
  {
    [Node(n.x + 1, n.y), Node(n.x - 1, n.y), Node(n.x, n.y + 1), Node(n.x, n.y - 1)]
  }

  /** `candidates.filter(keep)` over the first `k` candidates. */
  function KeepOpen(world: World, c: seq<Node>): seq<Node>
  {
    if c == [] then []
    else
      var rest := KeepOpen(world, c[1..]);
      if InBounds(world, c[0]) && !IsObstacleAtNode(world, c[0]) then [c[0]] + rest else rest
  }

  /** `World.getNodeNeighbors`. */
  function GetNodeNeighbors(world: World, n: Node): seq<Node>
  {
    KeepOpen(world, Around(n))
  }

  /** The filter keeps exactly the open candidates, in their order. */
  lemma {:induction false} KeepOpenSpec(world: World, c: seq<Node>)
    ensures |KeepOpen(world, c)| <= |c|
    ensures forall q :: q in KeepOpen(world, c) <==> q in c && InBounds(world, q) && !IsObstacleAtNode(world, q)
  {
    if c != [] {
      KeepOpenSpec(world, c[1..]);
      assert c == [c[0]] + c[1..];
    }
  }

  /**
   * The neighbours are at most four open nodes at Manhattan distance one, and every open
   * node at that distance is among them.
   */
  lemma GetNodeNeighborsSpec(world: World, n: Node)
    ensures |GetNodeNeighbors(world, n)| <= 4
    ensures forall q :: q in GetNodeNeighbors(world, n) <==>
      InBounds(world, q) && !IsObstacleAtNode(world, q) && Abs(q.x - n.x) + Abs(q.y - n.y) == 1
  {
    KeepOpenSpec(world, Around(n));
    forall q ensures q in Around(n) <==> Abs(q.x - n.x) + Abs(q.y - n.y) == 1 {
      if Abs(q.x - n.x) + Abs(q.y - n.y) == 1 {
        if q.x == n.x + 1 { assert q == Around(n)[0]; }
        else if q.x == n.x - 1 { assert q == Around(n)[1]; }
        else if q.y == n.y + 1 { assert q == Around(n)[2]; }
        else { assert q == Around(n)[3]; }
      }
    }
  }

  /** The neighbours keep the order +x, -x, +y, -y: the right one comes before the left one, and so on. */
  lemma {:induction false} KeepOpenOrder(world: World, c: seq<Node>, a: nat, b: nat)
    requires a < b < |c|
    requires InBounds(world, c[a]) && !IsObstacleAtNode(world, c[a])
    requires InBounds(world, c[b]) && !IsObstacleAtNode(world, c[b])
    ensures exists i, j :: 0 <= i < j < |KeepOpen(world, c)| && KeepOpen(world, c)[i] == c[a] && KeepOpen(world, c)[j] == c[b]
  {
    var rest := KeepOpen(world, c[1..]);
    if a == 0 {
      KeepOpenSpec(world, c[1..]);
      assert c[b] == c[1..][b - 1];
      assert c[b] in rest;
      var j :| 0 <= j < |rest| && rest[j] == c[b];
      assert KeepOpen(world, c)[0] == c[0] && KeepOpen(world, c)[j + 1] == c[b];
    } else {
      KeepOpenOrder(world, c[1..], a - 1, b - 1);
      var i, j :| 0 <= i < j < |rest| && rest[i] == c[1..][a - 1] && rest[j] == c[1..][b - 1];
      if InBounds(world, c[0]) && !IsObstacleAtNode(world, c[0]) {
        assert KeepOpen(world, c)[i + 1] == c[a] && KeepOpen(world, c)[j + 1] == c[b];
      } else {
        assert KeepOpen(world, c)[i] == c[a] && KeepOpen(world, c)[j] == c[b];
      }
    }
  }
}
