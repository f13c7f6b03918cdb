/**
 * The row-major grid shared by the MAPD game and the PIBT controllers:
 * cell indexing `y*w+x` and the memoised 4-neighbourhood with obstacles.
 * The obstacle-free grid of the second controller is the instance with no obstacles.
 */
module Grid {

  /** Index of column `x`, row `y` on a grid `w` cells wide. */
  function Id(w: nat, x: nat, y: nat): nat { y * w + x }

  /** Column and row of a non-negative cell index (JS `%` and `Math.floor` agree with `%` and `/` here). */
  function Xy(w: nat, id: nat): (nat, nat)
    requires w > 0
  { (id % w, id / w) }

  lemma {:induction false} MulAtLeast(a: nat, w: nat)
    requires a >= 1
    ensures a * w >= w
  {
    if a > 1 {
      MulAtLeast(a - 1, w);
      assert a * w == (a - 1) * w + w;
    }
  }

  lemma DivModOf(w: nat, x: nat, y: nat)
    requires 0 <= x < w
    ensures (y * w + x) / w == y && (y * w + x) % w == x
  {
    var n := y * w + x;
    var q, r := n / w, n % w;
    assert n == q * w + r;
    if q > y {
      MulAtLeast(q - y, w);
      assert false;
    } else if q < y {
      MulAtLeast(y - q, w);
      assert false;
    }
  }

  /** A cell index below `w*h` lies in a row below `h`, and in-range coordinates give such an index. */
  lemma RowBound(w: nat, h: nat, c: nat)
    requires w > 0
    ensures c < w * h <==> c / w < h
  {
    var q, r := c / w, c % w;
    assert c == q * w + r;
    if q < h {
      MulAtLeast(h - q, w);
      assert (h - q) * w == h * w - q * w;
    } else {
      assert q * w >= h * w by {
        if q > h {
          MulAtLeast(q - h, w);
          assert (q - h) * w == q * w - h * w;
        }
      }
    }
  }

  /** `xy` inverts `id` for in-range columns. */
  lemma XyOfId(w: nat, x: nat, y: nat)
    requires x < w
    ensures Xy(w, Id(w, x, y)) == (x, y)
  {
    DivModOf(w, x, y);
  }

  /** `id` inverts `xy` on every non-negative index. */
  lemma IdOfXy(w: nat, c: nat)
    requires w > 0
    ensures Xy(w, c).0 < w && Id(w, Xy(w, c).0, Xy(w, c).1) == c
  {
  }

  predicate InBounds(w: nat, h: nat, c: int) { 0 <= c < w * h }

  function Abs(n: int): nat { if n < 0 then -n else n }

  /** Two cells are 4-adjacent: their coordinates are at Manhattan distance 1. */
  predicate Adjacent(w: nat, u: nat, v: nat)
    requires w > 0
  {
    Abs(Xy(w, u).0 - Xy(w, v).0) + Abs(Xy(w, u).1 - Xy(w, v).1) == 1
  }

  /**
   * The neighbour list `neighbors(u)` computes: left, right, up, down, each only when in
   * bounds and not an obstacle, and nothing for an obstacle cell.
   */
  function NeighborList(w: nat, h: nat, obstacles: set<int>, u: nat): seq<nat>
    requires w > 0
  {
    if u in obstacles then []
    else
      var (x, y) := Xy(w, u);
      (if x > 0 && Id(w, x - 1, y) !in obstacles then [Id(w, x - 1, y)] else [])
      + (if x + 1 < w && Id(w, x + 1, y) !in obstacles then [Id(w, x + 1, y)] else [])
      + (if y > 0 && Id(w, x, y - 1) !in obstacles then [Id(w, x, y - 1)] else [])
      + (if y + 1 < h && Id(w, x, y + 1) !in obstacles then [Id(w, x, y + 1)] else [])
  }

  /** At most four entries, none for an obstacle cell. */
  lemma NeighborListSize(w: nat, h: nat, obstacles: set<int>, u: nat)
    requires w > 0
    ensures |NeighborList(w, h, obstacles, u)| <= 4
    ensures u in obstacles ==> NeighborList(w, h, obstacles, u) == []
  {
  }

  /**
   * For an in-bounds cell, `v` is listed exactly when neither cell is an obstacle,
   * `v` is in bounds and the two cells are at Manhattan distance 1.
   */
  lemma NeighborListSpec(w: nat, h: nat, obstacles: set<int>, u: nat, v: nat)
    requires w > 0 && u < w * h
    ensures v in NeighborList(w, h, obstacles, u) <==>
      u !in obstacles && v !in obstacles && v < w * h && Adjacent(w, u, v)
  {
    var (x, y) := Xy(w, u);
    IdOfXy(w, u);
    IdOfXy(w, v);
    RowBound(w, h, u);
    RowBound(w, h, v);
    if x > 0 { XyOfId(w, x - 1, y); RowBound(w, h, Id(w, x - 1, y)); }
    if x + 1 < w { XyOfId(w, x + 1, y); RowBound(w, h, Id(w, x + 1, y)); }
    if y > 0 { XyOfId(w, x, y - 1); RowBound(w, h, Id(w, x, y - 1)); }
    XyOfId(w, x, y + 1);
    RowBound(w, h, Id(w, x, y + 1));
  }

  /** On cells that are not obstacles the neighbour relation is symmetric. */
  lemma NeighborListSymmetric(w: nat, h: nat, obstacles: set<int>, u: nat, v: nat)
    requires w > 0 && u < w * h && v < w * h
    ensures v in NeighborList(w, h, obstacles, u) <==> u in NeighborList(w, h, obstacles, v)
  {
    NeighborListSpec(w, h, obstacles, u, v);
    NeighborListSpec(w, h, obstacles, v, u);
  }

  /** Memoising a list `neighbors` computes keeps every memoised list current. */
  lemma Memoised(w: nat, h: nat, obstacles: set<int>, adj: map<nat, seq<nat>>, u: nat, n: seq<nat>)
    requires w > 0 && n == NeighborList(w, h, obstacles, u)
    requires forall v :: v in adj ==> adj[v] == NeighborList(w, h, obstacles, v)
    ensures forall v :: v in adj[u := n] ==> adj[u := n][v] == NeighborList(w, h, obstacles, v)
  {
  }

  /** The grid with its `adj` memo table and obstacle set. */
  class MemoGrid {
    const w: nat
    const h: nat
    var adj: map<nat, seq<nat>>
    var obstacles: set<int>

    /** Every memoised list is the list `neighbors` would compute now. */
    ghost predicate Valid()
      reads this
    {
      w > 0 && forall u :: u in adj ==> adj[u] == NeighborList(w, h, obstacles, u)
    }

    constructor (width: nat, height: nat)
      requires width > 0
      ensures Valid() && w == width && h == height
      ensures adj == map[] && obstacles == {}
    {
      w, h := width, height;
      adj, obstacles := map[], {};
    }

    /** Marks a cell blocked and drops every memoised list, so later queries see it. */
    method AddObstacle(c: int)
      requires Valid()
      modifies this
      ensures Valid()
      ensures obstacles == old(obstacles) + {c} && adj == map[]
    {
      obstacles := obstacles + {c};
      adj := map[];
    }

    /** The memoised neighbour query; obstacle cells yield `[]` without being cached. */
    method Neighbors(u: nat) returns (n: seq<nat>)
      requires Valid()
      modifies this`adj
      ensures Valid()
      ensures n == NeighborList(w, h, obstacles, u)
      ensures adj == if u in old(adj) || u in obstacles then old(adj) else old(adj)[u := n]
    {
      if u in adj {
        return adj[u];
      }
      if u in obstacles {
        return [];
      }
      var (x, y) := Xy(w, u);
      n := [];
      if x > 0 && Id(w, x - 1, y) !in obstacles { n := n + [Id(w, x - 1, y)]; }
      if x + 1 < w && Id(w, x + 1, y) !in obstacles { n := n + [Id(w, x + 1, y)]; }
      if y > 0 && Id(w, x, y - 1) !in obstacles { n := n + [Id(w, x, y - 1)]; }
      if y + 1 < h && Id(w, x, y + 1) !in obstacles { n := n + [Id(w, x, y + 1)]; }
      assert n == NeighborList(w, h, obstacles, u);
      Memoised(w, h, obstacles, adj, u, n);
      adj := adj[u := n];
    }
  }
}
