/** np.argwhere(filt_image == 2): the foreground coordinates in row-major order. */
module Points {
  import opened Grids

  /** A pixel coordinate as argwhere gives it: `[:, 0]` is the row (y), `[:, 1]` the column (x). */
  datatype Point = Point(row: int, col: int)

  /** Strict row-major order. */
  predicate Before(a: Point, b: Point)
  {
    a.row < b.row || (a.row == b.row && a.col < b.col)
  }

  predicate RowMajorSorted(ps: seq<Point>)
  {
    forall a, b :: 0 <= a < b < |ps| ==> Before(ps[a], ps[b])
  }

  /** The foreground cells of row `r` from column `from` on, left to right. */
  function RowPoints(g: Grid, r: nat, from: nat): (ps: seq<Point>)
    requires r < |g| && from <= |g[r]|
    ensures RowMajorSorted(ps)
    ensures forall k :: 0 <= k < |ps| ==> ps[k].row == r && from <= ps[k].col
    ensures forall p :: p in ps <==> p.row == r && from <= p.col && IsForeground(g, p.row, p.col)
    decreases |g[r]| - from
  {
    if from == |g[r]| then []
    else (if g[r][from] == Foreground then [Point(r, from)] else []) + RowPoints(g, r, from + 1)
  }

  /** The foreground cells of rows `from..`, row by row. */
  function PointsFrom(g: Grid, from: nat): (ps: seq<Point>)
    requires from <= |g|
    ensures RowMajorSorted(ps)
    ensures forall k :: 0 <= k < |ps| ==> from <= ps[k].row
    ensures forall p :: p in ps <==> from <= p.row && IsForeground(g, p.row, p.col)
    decreases |g| - from
  {
    if from == |g| then [] else RowPoints(g, from, 0) + PointsFrom(g, from + 1)
  }

  /** Every foreground pixel exactly once, in row-major order. */
  function ForegroundPoints(g: Grid): (ps: seq<Point>)
    ensures RowMajorSorted(ps)
    ensures forall p :: p in ps <==> IsForeground(g, p.row, p.col)
  {
    PointsFrom(g, 0)
  }

  lemma SortedHasNoDuplicates(ps: seq<Point>, a: int, b: int)
    requires RowMajorSorted(ps) && 0 <= a < |ps| && 0 <= b < |ps| && a != b
    ensures ps[a] != ps[b]
  {
    if a < b { assert Before(ps[a], ps[b]); } else { assert Before(ps[b], ps[a]); }
  }
}
