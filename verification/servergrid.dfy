/**
 * The Python server's occupancy grid: a row-major sequence of booleans (`true` = free),
 * addressed through the same `y*w+x` cell ids as the browser grid.
 */
module ServerGrid {
  import Grid

  /** `np.iinfo(np.int32).max`, the "unreached" distance. */
  const INT32_MAX: int := 2147483647

  predicate WellFormed(w: nat, h: nat, free: seq<bool>)
  {
    w > 0 && |free| == w * h
  }

  /** `get_neighbors`: the in-bounds free cells around `u`, in the order up, down, left, right. */
  function FreeNeighbors(w: nat, h: nat, free: seq<bool>, u: nat): seq<nat>
    requires WellFormed(w, h, free) && u < w * h
  {
    var (x, y) := Grid.Xy(w, u);
    Grid.IdOfXy(w, u);
    Grid.RowBound(w, h, u);
    Grid.XyOfId(w, x, y + 1);
    Grid.RowBound(w, h, Grid.Id(w, x, y + 1));
    (if y > 0 && free[Grid.Id(w, x, y - 1)] then [Grid.Id(w, x, y - 1)] else [])
    + (if y + 1 < h && free[Grid.Id(w, x, y + 1)] then [Grid.Id(w, x, y + 1)] else [])
    + (if x > 0 && free[Grid.Id(w, x - 1, y)] then [Grid.Id(w, x - 1, y)] else [])
    + (if x + 1 < w && free[Grid.Id(w, x + 1, y)] then [Grid.Id(w, x + 1, y)] else [])
  }

  /**
   * `v` is listed exactly when it is an in-bounds free cell at Manhattan distance 1;
   * the list has at most four entries. The cell `u` itself need not be free.
   */
  lemma FreeNeighborsSpec(w: nat, h: nat, free: seq<bool>, u: nat, v: nat)
    requires WellFormed(w, h, free) && u < w * h
    ensures |FreeNeighbors(w, h, free, u)| <= 4
    ensures v in FreeNeighbors(w, h, free, u) <==> v < w * h && free[v] && Grid.Adjacent(w, u, v)
  {
    Grid.NeighborListSpec(w, h, {}, u, v);
    var (x, y) := Grid.Xy(w, u);
    Grid.IdOfXy(w, u);
    Grid.RowBound(w, h, u);
    Grid.XyOfId(w, x, y + 1);
    Grid.RowBound(w, h, Grid.Id(w, x, y + 1));
    if x + 1 < w { Grid.XyOfId(w, x + 1, y); Grid.RowBound(w, h, Grid.Id(w, x + 1, y)); }
  }
}
