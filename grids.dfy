/**
 * Two-dimensional images as sequences of rows. An image here is what NumPy
 * holds as a 2-D integer array; a cell is addressed as `g[row][col]`.
 */
module Grids {

  type Grid = seq<seq<int>>

  /** The value a label map uses for a foreground (nanotube) pixel. */
  const Foreground: int := 2

  predicate InGrid(g: Grid, r: int, c: int)
  {
    0 <= r < |g| && 0 <= c < |g[r]|
  }

  predicate SameShape(a: Grid, b: Grid)
  {
    |a| == |b| && forall r :: 0 <= r < |a| ==> |a[r]| == |b[r]|
  }

  /** The cell at (r, c) exists and holds the foreground value. */
  predicate IsForeground(g: Grid, r: int, c: int)
  {
    InGrid(g, r, c) && g[r][c] == Foreground
  }

  /** (p, q) is one of the eight cells around (r, c), diagonals included. */
  predicate Adjacent8(r: int, c: int, p: int, q: int)
  {
    (p, q) != (r, c) && -1 <= p - r <= 1 && -1 <= q - c <= 1
  }

  /** Number of foreground cells in columns `from..` of row `r`. */
  function RowForegroundCount(g: Grid, r: nat, from: nat): nat
    requires r < |g| && from <= |g[r]|
    decreases |g[r]| - from
  {
    if from == |g[r]| then 0
    else (if g[r][from] == Foreground then 1 else 0) + RowForegroundCount(g, r, from + 1)
  }

  /** Number of foreground cells in rows `from..`. */
  function ForegroundCountFrom(g: Grid, from: nat): nat
    requires from <= |g|
    decreases |g| - from
  {
    if from == |g| then 0 else RowForegroundCount(g, from, 0) + ForegroundCountFrom(g, from + 1)
  }

  function ForegroundCount(g: Grid): nat
  {
    ForegroundCountFrom(g, 0)
  }

  /** Counting is monotone: a cellwise smaller foreground has no more foreground cells. */
  lemma {:induction false} RowCountMonotone(a: Grid, b: Grid, r: nat, from: nat)
    requires SameShape(a, b) && r < |a| && from <= |a[r]|
    requires forall c :: 0 <= c < |a[r]| && IsForeground(a, r, c) ==> IsForeground(b, r, c)
    ensures RowForegroundCount(a, r, from) <= RowForegroundCount(b, r, from)
    decreases |a[r]| - from
  {
    if from < |a[r]| {
      assert IsForeground(a, r, from) ==> IsForeground(b, r, from);
      RowCountMonotone(a, b, r, from + 1);
    }
  }

  lemma {:induction false} CountMonotone(a: Grid, b: Grid, from: nat)
    requires SameShape(a, b) && from <= |a|
    requires forall r, c :: IsForeground(a, r, c) ==> IsForeground(b, r, c)
    ensures ForegroundCountFrom(a, from) <= ForegroundCountFrom(b, from)
    decreases |a| - from
  {
    if from < |a| {
      RowCountMonotone(a, b, from, 0);
      CountMonotone(a, b, from + 1);
    }
  }
}
