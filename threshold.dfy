/** simple_lin_map: classify every pixel against the threshold `par[0]`. */
module ThresholdMap {
  import opened Grids

  /** One pixel: foreground (2) when strictly brighter than the threshold, else background (0). */
  function LinMapPixel(par: seq<int>, greenPixel: int): (pixelClass: int)
    requires |par| >= 1
    ensures pixelClass == Foreground <==> greenPixel > par[0]
    ensures pixelClass == 0 <==> greenPixel <= par[0]
  {
    if greenPixel > par[0] then Foreground else 0
  }

  /** The vectorised map over a whole image; `par` is excluded from vectorisation. */
  function SimpleLinMap(par: seq<int>, image: Grid): (labels: Grid)
    requires |par| >= 1
    ensures SameShape(labels, image)
    ensures forall r, c :: InGrid(image, r, c) ==>
              (labels[r][c] == Foreground <==> image[r][c] > par[0]) &&
              (labels[r][c] == 0 <==> image[r][c] <= par[0])
  {
    seq(|image|, r requires 0 <= r < |image| =>
      seq(|image[r]|, c requires 0 <= c < |image[r]| => LinMapPixel(par, image[r][c])))
  }

  /** Raising the threshold never adds a foreground pixel, so never raises the foreground count. */
  lemma RaisingThresholdShrinksForeground(image: Grid, low: seq<int>, high: seq<int>)
    requires |low| >= 1 && |high| >= 1 && low[0] <= high[0]
    ensures forall r, c :: IsForeground(SimpleLinMap(high, image), r, c) ==>
                           IsForeground(SimpleLinMap(low, image), r, c)
    ensures ForegroundCount(SimpleLinMap(high, image)) <= ForegroundCount(SimpleLinMap(low, image))
  {
    var a, b := SimpleLinMap(high, image), SimpleLinMap(low, image);
    CountMonotone(a, b, 0);
  }
}
