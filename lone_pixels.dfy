/**
 * cluster_image.filter_lone_pixels: drop foreground pixels that have no
 * foreground pixel among their eight neighbours.
 */
module LonePixels {
  import opened Grids

  /** The foreground indicator image `(image == 2) * 1`, zero outside the image (zero padding). */
  function Indicator(g: Grid, r: int, c: int): int
  {
    if IsForeground(g, r, c) then 1 else 0
  }

  /**
   * The value at (r, c) of the 'same'-mode convolution of the indicator image
   * with a 3x3 kernel of ones: the number of foreground cells in the 3x3 window
   * centred on (r, c). The kernel is symmetric, so convolution and correlation agree.
   */
  function WindowSum(g: Grid, r: int, c: int): int
  {
      Indicator(g, r - 1, c - 1) + Indicator(g, r - 1, c) + Indicator(g, r - 1, c + 1)
    + Indicator(g, r, c - 1)     + Indicator(g, r, c)     + Indicator(g, r, c + 1)
    + Indicator(g, r + 1, c - 1) + Indicator(g, r + 1, c) + Indicator(g, r + 1, c + 1)
  }

  ghost predicate HasForegroundNeighbour(g: Grid, r: int, c: int)
  {
    exists p, q :: Adjacent8(r, c, p, q) && IsForeground(g, p, q)
  }

  /** `indicator * (window > 1)`, scaled back to the label values. */
  function FilterLonePixels(image: Grid): (filtered: Grid)
    ensures SameShape(filtered, image)
    ensures forall r, c :: InGrid(image, r, c) ==> filtered[r][c] == 0 || filtered[r][c] == Foreground
  {
    seq(|image|, r requires 0 <= r < |image| =>
      seq(|image[r]|, c requires 0 <= c < |image[r]| =>
        Foreground * (Indicator(image, r, c) * (if WindowSum(image, r, c) > 1 then 1 else 0))))
  }

  /** For a foreground cell, the window holds more than the cell itself exactly when a neighbour is foreground. */
  lemma WindowSumCountsNeighbours(g: Grid, r: int, c: int)
    requires IsForeground(g, r, c)
    ensures WindowSum(g, r, c) > 1 <==> HasForegroundNeighbour(g, r, c)
  {
    if WindowSum(g, r, c) > 1 {
      if IsForeground(g, r - 1, c - 1) { assert Adjacent8(r, c, r - 1, c - 1); }
      else if IsForeground(g, r - 1, c) { assert Adjacent8(r, c, r - 1, c); }
      else if IsForeground(g, r - 1, c + 1) { assert Adjacent8(r, c, r - 1, c + 1); }
      else if IsForeground(g, r, c - 1) { assert Adjacent8(r, c, r, c - 1); }
      else if IsForeground(g, r, c + 1) { assert Adjacent8(r, c, r, c + 1); }
      else if IsForeground(g, r + 1, c - 1) { assert Adjacent8(r, c, r + 1, c - 1); }
      else if IsForeground(g, r + 1, c) { assert Adjacent8(r, c, r + 1, c); }
      else { assert Adjacent8(r, c, r + 1, c + 1); }
    }
    if HasForegroundNeighbour(g, r, c) {
      var p, q :| Adjacent8(r, c, p, q) && IsForeground(g, p, q);
      assert Indicator(g, p, q) == 1;
    }
  }

  /**
   * A pixel is foreground after filtering exactly when it was foreground before
   * and at least one of its in-image eight neighbours was foreground too.
   */
  lemma FilterCharacterization(image: Grid, r: int, c: int)
    requires InGrid(image, r, c)
    ensures IsForeground(FilterLonePixels(image), r, c) <==>
            IsForeground(image, r, c) && HasForegroundNeighbour(image, r, c)
  {
    if IsForeground(image, r, c) {
      WindowSumCountsNeighbours(image, r, c);
    }
  }

  /** The filter only removes pixels. */
  lemma FilterRemovesOnly(image: Grid)
    ensures forall r, c :: IsForeground(FilterLonePixels(image), r, c) ==> IsForeground(image, r, c)
  {
    forall r, c | IsForeground(FilterLonePixels(image), r, c) ensures IsForeground(image, r, c) {
      FilterCharacterization(image, r, c);
    }
  }

  /** Every pixel that survives the filter has a surviving eight neighbour. */
  lemma SurvivorsHaveSurvivingNeighbour(image: Grid, r: int, c: int)
    requires IsForeground(FilterLonePixels(image), r, c)
    ensures HasForegroundNeighbour(FilterLonePixels(image), r, c)
  {
    var filtered := FilterLonePixels(image);
    FilterCharacterization(image, r, c);
    var p, q :| Adjacent8(r, c, p, q) && IsForeground(image, p, q);
    assert Adjacent8(p, q, r, c);
    FilterCharacterization(image, p, q);
    assert IsForeground(filtered, p, q);
  }

  /** Filtering twice is filtering once. */
  lemma FilterIdempotent(image: Grid)
    ensures FilterLonePixels(FilterLonePixels(image)) == FilterLonePixels(image)
  {
    var once := FilterLonePixels(image);
    var twice := FilterLonePixels(once);
    forall r | 0 <= r < |once| ensures twice[r] == once[r] {
      forall c | 0 <= c < |once[r]| ensures twice[r][c] == once[r][c] {
        FilterCharacterization(once, r, c);
        if IsForeground(once, r, c) {
          SurvivorsHaveSurvivingNeighbour(image, r, c);
        }
      }
    }
  }
}
