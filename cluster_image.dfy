/**
 * cluster_image.__init__: filter the label map, extract the foreground points,
 * cluster them, and score the accepted clusters' widths.
 */
module ClusterImage {
  import opened Grids
  import opened LonePixels
  import opened Points
  import opened Clusters
  import ThresholdMap

  // ---------------------------------------------------------------------------
  // The score, in exact real arithmetic.

  /** The width a real nanotube is expected to have. */
  const NominalWidth: real := 8.0
  /** The score when no cluster is accepted. */
  const Penalty: real := 64.0

  function RealSum(ws: seq<real>): real
  {
    if ws == [] then 0.0 else RealSum(ws[..|ws| - 1]) + ws[|ws| - 1]
  }

  function Mean(ws: seq<real>): real
    requires ws != []
  {
    RealSum(ws) / (|ws| as real)
  }

  /** The sum of squared deviations of `ws` from `center`. */
  function SqDeviationSum(ws: seq<real>, center: real): (s: real)
    ensures s >= 0.0
  {
    if ws == [] then 0.0
    else
      var d := ws[|ws| - 1] - center;
      SqDeviationSum(ws[..|ws| - 1], center) + d * d
  }

  /** np.var: the population variance. */
  function Variance(ws: seq<real>): (v: real)
    requires ws != []
    ensures v >= 0.0
  {
    SqDeviationSum(ws, Mean(ws)) / (|ws| as real)
  }

  /** `SE_var_width`: the variance of the accepted widths, with 1 in place of a zero variance or of no widths. */
  function VarWidth(widths: seq<real>): (v: real)
    ensures v > 0.0
    ensures widths != [] && Variance(widths) != 0.0 ==> v == Variance(widths)
    ensures widths == [] || Variance(widths) == 0.0 ==> v == 1.0
  {
    if widths == [] then 1.0
    else if Variance(widths) == 0.0 then 1.0
    else Variance(widths)
  }

  /**
   * `chi_square`: the penalty when no width was reported, otherwise the squared
   * deviations from the nominal width, divided by the variance divisor and by the
   * number of accepted clusters (which is the number of widths).
   */
  function ChiSquare(widths: seq<real>): (chi: real)
    ensures widths == [] ==> chi == Penalty
    ensures chi >= 0.0
  {
    if widths == [] then Penalty
    else SqDeviationSum(widths, NominalWidth) / VarWidth(widths) / (|widths| as real)
  }

  /** With every accepted width equal, the divisor is 1 and the score is that width's squared deviation. */
  lemma {:induction false} EqualWidthsScore(widths: seq<real>, w: real)
    requires widths != [] && forall i :: 0 <= i < |widths| ==> widths[i] == w
    ensures ChiSquare(widths) == (w - NominalWidth) * (w - NominalWidth)
  {
    var n := |widths| as real;
    ConstantSums(widths, w);
    assert Mean(widths) == w;
    assert Variance(widths) == 0.0;
    assert SqDeviationSum(widths, NominalWidth) == n * ((w - NominalWidth) * (w - NominalWidth));
  }

  lemma {:induction false} ConstantSums(ws: seq<real>, w: real)
    requires forall i :: 0 <= i < |ws| ==> ws[i] == w
    ensures RealSum(ws) == (|ws| as real) * w
    ensures SqDeviationSum(ws, w) == 0.0
    ensures forall c :: SqDeviationSum(ws, c) == (|ws| as real) * ((w - c) * (w - c))
  {
    if ws != [] {
      ConstantSums(ws[..|ws| - 1], w);
    }
  }

  // ---------------------------------------------------------------------------
  // The pipeline as one value, and what holds of it.

  /** The points that reach the clustering: foreground of the filtered label map. */
  function FilteredPoints(labelMap: Grid): seq<Point>
  {
    ForegroundPoints(FilterLonePixels(labelMap))
  }

  /** Every filtered point has another filtered point among its eight neighbours. */
  lemma FilteredPointHasNeighbour(labelMap: Grid, a: int) returns (b: int)
    requires 0 <= a < |FilteredPoints(labelMap)|
    ensures var pts := FilteredPoints(labelMap);
            0 <= b < |pts| && b != a && Linkable(pts[a], pts[b])
  {
    var filtered := FilterLonePixels(labelMap);
    var pts := FilteredPoints(labelMap);
    var p := pts[a];
    assert p in pts;
    SurvivorsHaveSurvivingNeighbour(labelMap, p.row, p.col);
    var r, c :| Adjacent8(p.row, p.col, r, c) && IsForeground(filtered, r, c);
    var q := Point(r, c);
    assert q in pts;
    b :| 0 <= b < |pts| && pts[b] == q;
    LinkableIsEightNeighbourhood(p, q);
  }

  /** After filtering there is never exactly one point, so the degenerate clustering path is never hit with one. */
  lemma FilteredPointCountIsNotOne(labelMap: Grid)
    ensures |FilteredPoints(labelMap)| != 1
  {
    if |FilteredPoints(labelMap)| == 1 {
      var b := FilteredPointHasNeighbour(labelMap, 0);
    }
  }

  /**
   * After filtering, every cluster has at least two distinct points, so every
   * cluster's squared length is positive and the width division is never by zero.
   */
  lemma NoSingletonClusters(labelMap: Grid, agglomerate: seq<Point> -> seq<nat>, c: int)
    requires ClusteringContract(agglomerate, FilteredPoints(labelMap))
    requires |FilteredPoints(labelMap)| != 1  // always the case, by FilteredPointCountIsNotOne
    requires 0 <= c < NumClusters(AssignClusters(FilteredPoints(labelMap), agglomerate))
    ensures var pts := FilteredPoints(labelMap);
            var labels := AssignClusters(pts, agglomerate);
            CountLabel(labels, c) >= 2 && SqExtent(Members(pts, labels, c)) > 0
  {
    var pts := FilteredPoints(labelMap);
    var labels := AssignClusters(pts, agglomerate);
    assert c in labels;
    var a :| 0 <= a < |labels| && labels[a] == c;
    var b := FilteredPointHasNeighbour(labelMap, a);
    LinkableShareLabel(pts, labels, a, b);
    TwoMembersCount(labels, c, a, b);
    SortedHasNoDuplicates(pts, a, b);
    DistinctMembersHaveExtent(Members(pts, labels, c), pts[a], pts[b]);
  }

  /** A single accepted width of 16 also scores exactly the penalty: 64 does not by itself mean that nothing was accepted. */
  lemma PenaltyIsNotOnlyForNoClusters()
    ensures ChiSquare([16.0]) == Penalty
  {
    EqualWidthsScore([16.0], 16.0);
  }

  /** The whole of `__init__` as one value: the score of a label map. */
  function Score(labelMap: Grid, agglomerate: seq<Point> -> seq<nat>, sc: Scoring): (chi: real)
    requires ClusteringContract(agglomerate, FilteredPoints(labelMap))
    ensures chi >= 0.0
  {
    var pts := FilteredPoints(labelMap);
    FilteredPointCountIsNotOne(labelMap);
    var labels := AssignClusters(pts, agglomerate);
    ChiSquare(FindClusters(pts, labels, sc).dims.widths)
  }

  /** A label map with no foreground pixel has no cluster and scores the penalty. */
  lemma BlankMapScoresPenalty(labelMap: Grid, agglomerate: seq<Point> -> seq<nat>, sc: Scoring)
    requires ClusteringContract(agglomerate, FilteredPoints(labelMap))
    requires forall r, c :: !IsForeground(labelMap, r, c)
    ensures Score(labelMap, agglomerate, sc) == Penalty
  {
    var pts := FilteredPoints(labelMap);
    if pts != [] {
      var p := pts[0];
      assert p in pts;
      FilterRemovesOnly(labelMap);
      assert false;
    }
  }

  /** An image with no pixel brighter than the threshold is classified all background and scores the penalty. */
  lemma DarkImageScoresPenalty(par: seq<int>, image: Grid, agglomerate: seq<Point> -> seq<nat>, sc: Scoring)
    requires |par| >= 1
    requires forall r, c :: InGrid(image, r, c) ==> image[r][c] <= par[0]
    requires ClusteringContract(agglomerate, FilteredPoints(ThresholdMap.SimpleLinMap(par, image)))
    ensures Score(ThresholdMap.SimpleLinMap(par, image), agglomerate, sc) == Penalty
  {
    var labelMap := ThresholdMap.SimpleLinMap(par, image);
    forall r, c ensures !IsForeground(labelMap, r, c) {
      if InGrid(image, r, c) {
        assert labelMap[r][c] == 0;
      }
    }
    BlankMapScoresPenalty(labelMap, agglomerate, sc);
  }

  /**
   * The closing branch of `__init__`: the variance divisor and the score of the
   * accepted widths, `count` being the number of accepted clusters. This is the
   * statement-by-statement form of the branch; `VarWidth` and `ChiSquare` are the
   * same computation as values, for the lemmas to use.
   */
  method ScoreWidths(widths: seq<real>, count: nat) returns (varWidth: real, chi: real)
    requires count == |widths|
    ensures varWidth == VarWidth(widths) && varWidth > 0.0
    ensures chi == ChiSquare(widths) && chi >= 0.0
    ensures widths == [] ==> varWidth == 1.0 && chi == Penalty
  {
    if |widths| == 0 {
      varWidth, chi := 1.0, Penalty;
    } else {
      var v := Variance(widths);
      if v == 0.0 {
        varWidth := 1.0;
      } else {
        varWidth := v;
      }
      chi := SqDeviationSum(widths, NominalWidth) / varWidth / (count as real);
    }
  }

  /**
   * `cluster_image`: built from a label map, it keeps each intermediate result
   * of the pipeline in a field, as the constructor computes them in turn.
   * The clustering routine and the width scoring are the constructor's
   * parameters, standing for the library calls the source makes.
   */
  class ClusterImage {
    var image: Grid
    var filtImage: Grid
    var sePoints: seq<Point>
    var seClustAssign: seq<nat>
    var seClustDim: Dimensions
    var goodSeClusters: seq<nat>
    var seVarWidth: real
    var chiSquare: real

    constructor (labelMap: Grid, agglomerate: seq<Point> -> seq<nat>, sc: Scoring)
      requires ClusteringContract(agglomerate, FilteredPoints(labelMap))
      ensures image == labelMap
      ensures filtImage == FilterLonePixels(labelMap)
      ensures sePoints == ForegroundPoints(filtImage)
      ensures |sePoints| != 1
      ensures seClustAssign == AssignClusters(sePoints, agglomerate)
      ensures seClustDim == FindClusters(sePoints, seClustAssign, sc).dims
      ensures goodSeClusters == FindClusters(sePoints, seClustAssign, sc).good
      ensures |seClustDim.widths| == |goodSeClusters|
      ensures seVarWidth == VarWidth(seClustDim.widths)
      ensures chiSquare == ChiSquare(seClustDim.widths) == Score(labelMap, agglomerate, sc)
      ensures goodSeClusters == [] ==> seVarWidth == 1.0 && chiSquare == Penalty
    {
      // Each step works on the previous step's result, as `__init__` reads back the field it just set.
      var filtered := FilterLonePixels(labelMap);
      var points := ForegroundPoints(filtered);
      FilteredPointCountIsNotOne(labelMap);
      var assign := AssignClusters(points, agglomerate);
      var res := FindClusters(points, assign, sc);
      var varWidth, chi := ScoreWidths(res.dims.widths, |res.good|);
      image, filtImage, sePoints, seClustAssign := labelMap, filtered, points, assign;
      seClustDim, goodSeClusters, seVarWidth, chiSquare := res.dims, res.good, varWidth, chi;
    }
  }
}
