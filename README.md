# Nanotube finder: calibration search and blob scoring

This project models the computational core of `nanotube_finder_SEs_only.py`. The program finds
nanotubes in a green-channel microscope image in four steps:

1. It dyes every pixel brighter than a threshold as foreground (label 2) and every other pixel as
   background (label 0). This is `simple_lin_map`.
2. It removes foreground pixels that have no foreground pixel among their eight neighbours. This
   is `cluster_image.filter_lone_pixels`.
3. It groups the remaining foreground pixels into 8-connected clusters. For each cluster it
   computes a size, a bounding-box length and a width, and keeps the clusters that are large and
   unlikely to be outliers. This is `cluster_image.find_clusters`.
4. It scores the kept widths against the nominal width 8 with a chi-square-like number. When no
   cluster is kept, the score is 64. This is `cluster_image.__init__`.

A discrete coordinate search, `custom_minimize`, looks for the threshold with the lowest score.
It visits the coordinates in order. For each one it tries two candidates, built from the
coordinate's value at the start of its turn: one below, then one above. A candidate outside the
bounds is skipped. So after a successful first trial, the second candidate lies two away from the
new best value. The search never records a vector twice. The guess is evaluated without being
recorded, so it can be evaluated again later. The search can stop early when an optional budget on
the number of calls is reached.

Modules:

- `Minimize` (`minimize.dfy`): the search, as imperative methods with loops. Each method is
  proved to compute a specification function on the search state:
  - `Trial` is one candidate;
  - `DimensionTrials` is one coordinate;
  - `Pass` is one sweep over the coordinates, cut at the budget check;
  - a whole run is the sequence of passes (`IsRun`).

  Lemmas about these functions give the rest: the state invariant (no vector recorded twice, and
  where every recorded vector comes from), local optimality and the call bound.
- `ThresholdMap` (`threshold.dfy`): the pixel classifier.
- `Grids`, `Points` (`grids.dfy`, `points.dfy`): label maps, foreground counts, and
  `np.argwhere` in row-major order.
- `LonePixels` (`lone_pixels.dfy`): the 3×3 convolution filter, characterised by neighbourhoods.
- `Clusters` (`clusters.dfy`): the clustering contract (connected components of the linkage
  relation), cluster ids, sizes, squared lengths, `np.where`, and the acceptance filter.
- `ClusterImage` (`cluster_image.dfy`): the score, and the `ClusterImage` class whose
  constructor fills the fields in the order `__init__` does.

Design decisions:

- The linkage radius is strict. Lines 104-106 call `AgglomerativeClustering` with
  `distance_threshold=2` and single linkage. sklearn documents `distance_threshold` as the
  linkage distance at or above which clusters are not merged. So two pixels are linkable when
  their squared distance is below 4, which is exactly the 8-neighbourhood
  (`Clusters.LinkableIsEightNeighbourhood`).
- The budget test at line 66 sits after a dimension's two trials, and it uses `>=`. So the call
  count can exceed `max_fun_calls`. The model proves the bound the code really has:
  `calls <= max(max_fun_calls + 1, 3)`.
- Lines 138-147 give a score of 64 whenever no cluster is accepted, but the converse is false. A
  single accepted width of 16 also scores 64 (`ClusterImage.PenaltyIsNotOnlyForNoClusters`).

## Model

| member | source | states |
|---|---|---|
| Minimize.CustomMinimize | nanotube_finder_SEs_only.py:43-70 | The ghost trace is a complete run: it starts from the guess, and each entry is `Pass` of the one before. Every pass but the last improved and was not stopped. The last one did not improve or hit the budget. The returned vector, record and count are the last entry. The call count is one plus the number of recorded vectors. No vector is recorded twice. Each recorded vector changes one coordinate of the guess, or of an earlier recorded vector, to a value inside the bounds. The result is the guess or a recorded vector. It scores no worse than the guess and no worse than any recorded vector. When the budget did not stop the search, the result is a local optimum over in-bounds unit steps. With a budget, at most max(budget + 1, 3) calls are made. |
| Minimize.Sweep | nanotube_finder_SEs_only.py:52-68 | The new state and the `improved` and `stop` flags are exactly `Pass` of the entry state. That pass goes over the dimensions in increasing order, runs `DimensionTrials` on each, and checks the budget after each one. |
| Minimize.ExploreDimension | nanotube_finder_SEs_only.py:54-65 | The new state is exactly `DimensionTrials`: the trial of `best[dim] - 1` on the entry state, then the trial of `best[dim] + 1` on the state that results. `better` holds exactly when the best score dropped. |
| Minimize.Propose | nanotube_finder_SEs_only.py:55-65 | The new state is exactly `Trial` of the entry state with this step. `better` holds exactly when the best score dropped. |
| Minimize.Trial | nanotube_finder_SEs_only.py:55-65 | A trial keeps the vector length. It never raises the best score. The best vector either stays or becomes the candidate `best[dim := step]`. |
| Minimize.TrialFacts | nanotube_finder_SEs_only.py:55-65 | The candidate is appended exactly when its step is in bounds and it was not recorded before. An in-bounds candidate is recorded afterwards in any case. The count rises by one per appended vector. The best score drops exactly when the candidate was appended and scores strictly lower. The candidate is then the best vector. |
| Minimize.TrialKeepsValid | nanotube_finder_SEs_only.py:55-65 | A trial preserves the state invariant. The best score is the objective at the best vector and no worse than the guess or any recorded vector. The record has no duplicates. Every recorded vector is built by one in-bounds change from the guess or an earlier recorded vector. |
| Minimize.DimensionTrialsFacts | nanotube_finder_SEs_only.py:54-65 | One dimension appends at most two vectors, one call each. A dropped score means something was appended. An unchanged score leaves the best vector as it was, with both in-bounds neighbours along this dimension recorded. |
| Minimize.DimensionTrialsKeepValid | nanotube_finder_SEs_only.py:54-65 | Both trials of a dimension preserve the state invariant. |
| Minimize.PassFromKeepsValid | nanotube_finder_SEs_only.py:53-68 | The rest of a pass preserves the state invariant. |
| Minimize.PassFromFacts | nanotube_finder_SEs_only.py:53-68 | A pass only appends to the record. It reports an improvement only after an earlier one or after appending. Without improvement, the best vector and score are unchanged. If the pass was also not cut short, every later dimension of that vector has been explored. |
| Minimize.PassFromBudget | nanotube_finder_SEs_only.py:53-68 | A pass stops only once the count has reached the budget. A pass that was not stopped leaves the count below the budget, or at the single initial call. The count never exceeds max(budget + 1, 3). |
| Minimize.PassStep | nanotube_finder_SEs_only.py:51-68 | One pass of the outer loop preserves the invariant. It records something new whenever it improves. Without improvement it leaves the best vector in place. It carries the budget facts above. |
| Minimize.RunSoFarExtends | nanotube_finder_SEs_only.py:51-68 | A pass that the loop condition lets run extends the run so far by its result. |
| Minimize.ParabolaLocalOptimum | nanotube_finder_SEs_only.py:169-170 | On the bounds [80, 140], the only local optimum of (p − 113)² is 113. |
| Minimize.CalibrationScenario | nanotube_finder_SEs_only.py:169-172 | Searching from the initial guess [130] on bounds [(80, 140)] with no budget returns [113], for the objective (p − 113)². |
| ThresholdMap.LinMapPixel | nanotube_finder_SEs_only.py:72-77 | A pixel is labelled 2 exactly when it is strictly above `par[0]`, and 0 exactly when it is not. |
| ThresholdMap.SimpleLinMap | nanotube_finder_SEs_only.py:72-79 | The label map has the image's shape. Every cell is 2 exactly when its pixel exceeds `par[0]`, and 0 otherwise. |
| ThresholdMap.RaisingThresholdShrinksForeground | nanotube_finder_SEs_only.py:72-79 | A higher threshold labels a subset of the foreground pixels, so the foreground count does not increase. |
| LonePixels.FilterLonePixels | nanotube_finder_SEs_only.py:83-94 | The filtered map has the input's shape, and every cell is 0 or 2. |
| LonePixels.WindowSumCountsNeighbours | nanotube_finder_SEs_only.py:90-91 | For a foreground pixel, the zero-padded 3×3 convolution exceeds 1 exactly when one of its eight neighbours is foreground. |
| LonePixels.FilterCharacterization | nanotube_finder_SEs_only.py:89-94 | A pixel is foreground after filtering exactly when it was foreground and had a foreground neighbour. |
| LonePixels.FilterRemovesOnly | nanotube_finder_SEs_only.py:89-94 | Filtering never creates a foreground pixel. |
| LonePixels.SurvivorsHaveSurvivingNeighbour | nanotube_finder_SEs_only.py:89-94 | Every surviving pixel has a neighbour that also survives. |
| LonePixels.FilterIdempotent | nanotube_finder_SEs_only.py:83-94 | Filtering a filtered map changes nothing. |
| Points.ForegroundPoints | nanotube_finder_SEs_only.py:134 | The foreground coordinates in row-major order: strictly sorted, and containing a point exactly when that cell is foreground. |
| Clusters.AssignClusters | nanotube_finder_SEs_only.py:104-109 | For two or more points, the labels are sklearn's: one id per point, the ids contiguous from 0, linkable points sharing an id, and points sharing an id joined by a chain of links. With no points, no labels. |
| Clusters.SameClusterIffConnected | nanotube_finder_SEs_only.py:104-107 | Two points share a cluster id exactly when a chain of linkable points joins them. |
| Clusters.ChainKeepsLabel | nanotube_finder_SEs_only.py:104-107 | All points along a chain of links carry the same id. |
| Clusters.LinkableIsEightNeighbourhood | nanotube_finder_SEs_only.py:104-106 | Two distinct pixels are within linkage distance exactly when they are eight-neighbours. |
| Clusters.NumClusters | nanotube_finder_SEs_only.py:111-114 | With no points the count is 0. Otherwise it is one more than the largest id: every id is below it, and the largest id is used. |
| Clusters.CountLabel | nanotube_finder_SEs_only.py:116 | A cluster's size is at most the number of points, and it is positive exactly when the id is used. |
| Clusters.SizesSumToPointCount | nanotube_finder_SEs_only.py:116 | The cluster sizes add up to the number of points. |
| Clusters.Members | nanotube_finder_SEs_only.py:116-118 | The members of a cluster are drawn from the points. There are as many as the cluster's size, and every point with that id is included. That no other point is included is stated by `Clusters.MemberCarriesId` and `Clusters.MembersAreSelectedPoints`. |
| Clusters.MemberCarriesId | nanotube_finder_SEs_only.py:116-118 | Every member of cluster `c` is the point at some position whose id is `c`. |
| Clusters.MembersAreSelectedPoints | nanotube_finder_SEs_only.py:116-118 | `SE_points[np.where(clusters_SE == c)]`, computed as the positions of `clusters_SE == c` and then fancy indexing, equals the member list of cluster `c`. That is the points with id `c`, in point order. |
| Clusters.SqExtentBoundsDistances | nanotube_finder_SEs_only.py:11-21 | The squared bounding-box diagonal bounds the squared distance between any two members. |
| Clusters.SqExtentZeroIffSinglePixel | nanotube_finder_SEs_only.py:11-21 | The squared length is 0 exactly when all members are the same pixel. |
| Clusters.DistinctMembersHaveExtent | nanotube_finder_SEs_only.py:11-21 | A cluster with two different pixels has a positive squared length. |
| Clusters.Where | nanotube_finder_SEs_only.py:122 | `np.where` returns strictly increasing positions that hold true, and every true position is among them. |
| Clusters.ClusterSqLengths | nanotube_finder_SEs_only.py:118 | One squared length per cluster id, equal to the bounding-box extent of its non-empty member list. |
| Clusters.ClusterSizes | nanotube_finder_SEs_only.py:116 | One size per cluster id, each the number of points carrying that id. |
| Clusters.AcceptedIds | nanotube_finder_SEs_only.py:122 | The accepted ids are strictly increasing and are all below the cluster count. An id is among them exactly when its cluster has more than 120 points and an outlier probability below 0.9. |
| Clusters.FindClusters | nanotube_finder_SEs_only.py:111-128 | Returns the assignment it was given. Sizes cover every cluster id, each equal to that cluster's point count and positive, and none are given when there are no points. Lengths and widths are given for accepted clusters only, in increasing id order. An id is accepted exactly when its size exceeds 120 and the outlier probability of its width is below 0.9. |
| Clusters.AcceptedDimensions | nanotube_finder_SEs_only.py:118-126 | Each reported length is its accepted cluster's squared extent. Each reported width is that cluster's size over its length. The cluster passes both cut-offs. |
| ClusterImage.VarWidth | nanotube_finder_SEs_only.py:138-145 | The divisor is positive. It is the population variance of the widths, or 1 when there are no widths or the variance is 0. |
| ClusterImage.ScoreWidths | nanotube_finder_SEs_only.py:138-147 | The branch at the end of `__init__` yields the divisor `VarWidth` and the score `ChiSquare` of the accepted widths, which is 64 with divisor 1 when there are none. |
| ClusterImage.ChiSquare | nanotube_finder_SEs_only.py:138-147 | With no widths the score is 64. Otherwise it is the sum of squared deviations from 8, over the divisor and the number of accepted clusters. It is never negative. |
| ClusterImage.EqualWidthsScore | nanotube_finder_SEs_only.py:142-147 | When all accepted widths equal w, the divisor falls back to 1 and the score is (w − 8)². |
| ClusterImage.PenaltyIsNotOnlyForNoClusters | nanotube_finder_SEs_only.py:138-147 | A single accepted width of 16 scores exactly 64, the same as no accepted cluster. |
| ClusterImage.FilteredPointHasNeighbour | nanotube_finder_SEs_only.py:132-134 | Every point that reaches the clustering has a different, linkable point beside it. |
| ClusterImage.FilteredPointCountIsNotOne | nanotube_finder_SEs_only.py:104-109 | The clustering is never given exactly one point, so the failing one-point fallback is unreachable. |
| ClusterImage.NoSingletonClusters | nanotube_finder_SEs_only.py:116-120 | Every cluster has at least two pixels and a positive length, so no width divides by zero. |
| ClusterImage.Score | nanotube_finder_SEs_only.py:130-147 | The whole `__init__` pipeline, from label map to score. The score is never negative. |
| ClusterImage.BlankMapScoresPenalty | nanotube_finder_SEs_only.py:130-140 | A label map without foreground scores 64. |
| ClusterImage.DarkImageScoresPenalty | nanotube_finder_SEs_only.py:72-79 | An image with no pixel above the threshold scores 64. |
| ClusterImage.ClusterImage.constructor | nanotube_finder_SEs_only.py:130-147 | Each field is set in the order `__init__` sets it: the image, the filtered map, the foreground points, the assignment, the dimensions, the accepted ids, the divisor and the score. The score equals `Score` of the label map, and it is 64 with divisor 1 when nothing is accepted. |

## Left out

- Image loading, directory handling, parallel execution, plotting and export (lines 1-9 and
  149 onwards) are I/O and are not modelled. The per-image objective at line 172 composes
  `simple_lin_map` with `cluster_image(...).chi_square`. `ClusterImage.Score` is that
  composition for a given label map. It is not passed to `CustomMinimize` as a lambda because it
  depends on the clustering contract.
- sklearn's `AgglomerativeClustering` is a foreign call. It is a parameter, `agglomerate`, whose
  result is required to be a component labelling of the linkage relation. Which component gets
  which id is not modelled.
- The `except` fallback `np.ones(len(SE_points))` is modelled for zero points. For exactly one
  point the fallback gives the id `1.0`, so line 114 computes the cluster count as the float
  `2.0`, and `range` at line 116 raises a `TypeError`. `Clusters.AssignClusters`
  therefore requires `|points| != 1`, and `ClusterImage.FilteredPointCountIsNotOne` proves that
  the pipeline never reaches it.
- Floating point is not modelled:
  - The length's square root, the width division and `outlier_probability` (lines 23-41, with
    `exp`) are abstract functions in `Clusters.Scoring`. Lengths are kept squared and exact.
  - The variance and the chi-square are computed in exact reals. The sum of quotients at line 147
    is written as a quotient of a sum, which is equal in exact arithmetic.
- Labels are plain naturals. The float ids that `np.ones` produces are not distinguished.
- `args` of `custom_minimize` is folded into the objective `fun`.
- The `bounds = None` default of `custom_minimize` is not modelled. The source indexes `bounds`
  unconditionally and fails without it, so `CustomMinimize` requires bounds for every
  coordinate.
- Minimize.CustomMinimize: the call bound is max(budget + 1, 3), not the budget itself, because
  the code checks only after each dimension. Where the search stops is fixed by the trace (`IsRun`).
- ClusterImage.ChiSquare: the score of 64 is proved only in the direction "no accepted cluster
  implies 64". The converse does not hold (see `ClusterImage.PenaltyIsNotOnlyForNoClusters`).
