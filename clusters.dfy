/**
 * cluster_image.find_clusters: group the foreground points into clusters and
 * compute, per cluster, its size, its (squared) length and its width, then
 * select the clusters that look like nanotubes.
 */
module Clusters {
  import opened Points

  // ---------------------------------------------------------------------------
  // The clustering itself is sklearn's AgglomerativeClustering (single linkage,
  // distance_threshold = 2, no fixed number of clusters). It is not modelled; its
  // result is specified as the connected components of the linkage relation.

  function Sq(x: int): nat
  {
    x * x
  }

  function SqDist(a: Point, b: Point): nat
  {
    Sq(a.row - b.row) + Sq(a.col - b.col)
  }

  /** sklearn merges two clusters only while their distance is below the threshold 2. */
  const LinkageThresholdSquared: int := 4

  predicate Linkable(a: Point, b: Point)
  {
    SqDist(a, b) < LinkageThresholdSquared
  }

  /** A sequence of point indices in which each consecutive pair is linkable. */
  ghost predicate IsChain(points: seq<Point>, path: seq<int>)
  {
    && |path| >= 1
    && (forall k :: 0 <= k < |path| ==> 0 <= path[k] < |points|)
    && (forall k :: 0 <= k < |path| - 1 ==> Linkable(points[path[k]], points[path[k + 1]]))
  }

  ghost predicate Connected(points: seq<Point>, a: int, b: int)
  {
    exists path :: IsChain(points, path) && path[0] == a && path[|path| - 1] == b
  }

  /** The largest label. */
  function MaxLabel(labels: seq<nat>): (m: nat)
    requires labels != []
    ensures m in labels
    ensures forall i :: 0 <= i < |labels| ==> labels[i] <= m
  {
    if |labels| == 1 then labels[0]
    else
      var m := MaxLabel(labels[..|labels| - 1]);
      assert labels == labels[..|labels| - 1] + [labels[|labels| - 1]];
      if labels[|labels| - 1] > m then labels[|labels| - 1] else m
  }

  /** `0` for no points, otherwise `max(labels) + 1`. */
  function NumClusters(labels: seq<nat>): (k: nat)
    ensures k == 0 <==> labels == []
    ensures forall i :: 0 <= i < |labels| ==> labels[i] < k
    ensures labels != [] ==> k - 1 in labels
  {
    if labels == [] then 0 else MaxLabel(labels) + 1
  }

  /** Every id from 0 to the largest label is used. */
  predicate Contiguous(labels: seq<nat>)
  {
    forall c :: 0 <= c < NumClusters(labels) ==> c in labels
  }

  /**
   * What the clustering promises: one contiguous id per point, linkable points
   * share an id, and points that share an id are joined by a chain of links.
   */
  ghost predicate IsComponentLabelling(points: seq<Point>, labels: seq<nat>)
  {
    && |labels| == |points|
    && Contiguous(labels)
    && (forall a, b :: 0 <= a < |points| && 0 <= b < |points| && Linkable(points[a], points[b]) ==>
          labels[a] == labels[b])
    && (forall a, b :: 0 <= a < |points| && 0 <= b < |points| && labels[a] == labels[b] ==>
          Connected(points, a, b))
  }

  lemma {:induction false} ChainKeepsLabel(points: seq<Point>, labels: seq<nat>, path: seq<int>)
    requires IsComponentLabelling(points, labels) && IsChain(points, path)
    ensures labels[path[0]] == labels[path[|path| - 1]]
    decreases |path|
  {
    if |path| > 1 {
      var rest := path[1..];
      assert IsChain(points, rest) by {
        forall k | 0 <= k < |rest| - 1 ensures Linkable(points[rest[k]], points[rest[k + 1]]) {
          assert rest[k] == path[k + 1] && rest[k + 1] == path[k + 2];
        }
      }
      ChainKeepsLabel(points, labels, rest);
      assert Linkable(points[path[0]], points[path[1]]);
    }
  }

  lemma LinkableShareLabel(points: seq<Point>, labels: seq<nat>, a: int, b: int)
    requires IsComponentLabelling(points, labels)
    requires 0 <= a < |points| && 0 <= b < |points| && Linkable(points[a], points[b])
    ensures labels[a] == labels[b]
  {
  }

  /** Two points share a cluster id exactly when a chain of links joins them. */
  lemma SameClusterIffConnected(points: seq<Point>, labels: seq<nat>, a: int, b: int)
    requires IsComponentLabelling(points, labels)
    requires 0 <= a < |points| && 0 <= b < |points|
    ensures labels[a] == labels[b] <==> Connected(points, a, b)
  {
    if Connected(points, a, b) {
      var path :| IsChain(points, path) && path[0] == a && path[|path| - 1] == b;
      ChainKeepsLabel(points, labels, path);
    }
  }

  /** Two distinct lattice points are linkable exactly when they are eight neighbours. */
  lemma LinkableIsEightNeighbourhood(a: Point, b: Point)
    requires a != b
    ensures Linkable(a, b) <==> -1 <= a.row - b.row <= 1 && -1 <= a.col - b.col <= 1
  {
    var dr, dc := a.row - b.row, a.col - b.col;
    if dr >= 2 || dr <= -2 {
      SquareAtLeast(dr, 2);
    } else if dc >= 2 || dc <= -2 {
      SquareAtLeast(dc, 2);
    }
  }

  lemma SquareAtLeast(x: int, y: int)
    requires y >= 0 && (x >= y || x <= -y)
    ensures Sq(x) >= Sq(y)
  {
    if x >= y { assert x * x >= y * x >= y * y; } else { assert x * x == (-x) * (-x) >= y * (-x) >= y * y; }
  }

  // ---------------------------------------------------------------------------
  // Sizes.

  /** The number of points with id `c`: `len(SE_points[np.where(clusters_SE == c)])`. */
  function CountLabel(labels: seq<nat>, c: int): (n: nat)
    ensures n <= |labels|
    ensures n > 0 <==> c in labels
  {
    if labels == [] then 0
    else
      var init := labels[..|labels| - 1];
      assert labels == init + [labels[|labels| - 1]];
      CountLabel(init, c) + (if labels[|labels| - 1] == c then 1 else 0)
  }

  /** If two different points carry id `c`, the cluster has at least two points. */
  lemma {:induction false} TwoMembersCount(labels: seq<nat>, c: int, a: int, b: int)
    requires 0 <= a < |labels| && 0 <= b < |labels| && a != b
    requires labels[a] == c && labels[b] == c
    ensures CountLabel(labels, c) >= 2
  {
    var n := |labels| - 1;
    var init := labels[..n];
    if a == n {
      assert init[b] == c;
    } else if b == n {
      assert init[a] == c;
    } else {
      TwoMembersCount(init, c, a, b);
    }
  }

  function Sum(s: seq<nat>): nat
  {
    if s == [] then 0 else Sum(s[..|s| - 1]) + s[|s| - 1]
  }

  /** The sizes of clusters `0..k`. */
  function CountsBelow(labels: seq<nat>, k: nat): nat
  {
    if k == 0 then 0 else CountsBelow(labels, k - 1) + CountLabel(labels, k - 1)
  }

  lemma {:induction false} CountsBelowAppend(labels: seq<nat>, x: nat, k: nat)
    ensures CountsBelow(labels + [x], k) == CountsBelow(labels, k) + (if x < k then 1 else 0)
  {
    assert (labels + [x])[..|labels|] == labels;
    if k > 0 {
      CountsBelowAppend(labels, x, k - 1);
    }
  }

  lemma {:induction false} CountsBelowAll(labels: seq<nat>, k: nat)
    requires forall i :: 0 <= i < |labels| ==> labels[i] < k
    ensures CountsBelow(labels, k) == |labels|
  {
    if labels == [] {
      CountsBelowEmpty(k);
    } else {
      var init := labels[..|labels| - 1];
      CountsBelowAll(init, k);
      CountsBelowAppend(init, labels[|labels| - 1], k);
      assert init + [labels[|labels| - 1]] == labels;
    }
  }

  lemma {:induction false} CountsBelowEmpty(k: nat)
    ensures CountsBelow([], k) == 0
  {
    if k > 0 { CountsBelowEmpty(k - 1); }
  }

  /** `SE_sizes`: one entry per cluster id. */
  function ClusterSizes(labels: seq<nat>): (sizes: seq<nat>)
    ensures |sizes| == NumClusters(labels)
    ensures forall c :: 0 <= c < |sizes| ==> sizes[c] == CountLabel(labels, c)
  {
    seq(NumClusters(labels), c => CountLabel(labels, c))
  }

  lemma {:induction false} SumSizesPrefix(labels: seq<nat>, k: nat)
    requires k <= NumClusters(labels)
    ensures Sum(ClusterSizes(labels)[..k]) == CountsBelow(labels, k)
  {
    if k > 0 {
      SumSizesPrefix(labels, k - 1);
      assert ClusterSizes(labels)[..k][..k - 1] == ClusterSizes(labels)[..k - 1];
    }
  }

  /** The cluster sizes add up to the number of points. */
  lemma SizesSumToPointCount(labels: seq<nat>)
    ensures Sum(ClusterSizes(labels)) == |labels|
  {
    var sizes := ClusterSizes(labels);
    SumSizesPrefix(labels, |sizes|);
    assert sizes[..|sizes|] == sizes;
    CountsBelowAll(labels, NumClusters(labels));
  }

  // ---------------------------------------------------------------------------
  // Lengths: find_length on the points of one cluster, kept squared.

  /** The points with id `c`, in point order: `SE_points[np.where(clusters_SE == c)]`. */
  function Members(points: seq<Point>, labels: seq<nat>, c: int): (ms: seq<Point>)
    requires |labels| == |points|
    ensures |ms| == CountLabel(labels, c)
    ensures forall i :: 0 <= i < |points| && labels[i] == c ==> points[i] in ms
    ensures forall p :: p in ms ==> p in points
  {
    if labels == [] then []
    else
      var n := |labels| - 1;
      assert labels == labels[..n] + [labels[n]];
      Members(points[..n], labels[..n], c) + (if labels[n] == c then [points[n]] else [])
  }

  /** Every member of cluster `c` is the point at some position that carries id `c`. */
  lemma {:induction false} MemberCarriesId(points: seq<Point>, labels: seq<nat>, c: int, p: Point)
    requires |labels| == |points|
    requires p in Members(points, labels, c)
    ensures exists i :: 0 <= i < |points| && labels[i] == c && points[i] == p
  {
    var n := |labels| - 1;
    if p in Members(points[..n], labels[..n], c) {
      MemberCarriesId(points[..n], labels[..n], c, p);
      var i :| 0 <= i < n && labels[..n][i] == c && points[..n][i] == p;
      assert labels[i] == c && points[i] == p;
    } else {
      assert labels[n] == c && points[n] == p;
    }
  }

  function MaxOf(s: seq<int>): (m: int)
    requires s != []
    ensures m in s && forall i :: 0 <= i < |s| ==> s[i] <= m
  {
    if |s| == 1 then s[0]
    else
      var m := MaxOf(s[..|s| - 1]);
      assert s == s[..|s| - 1] + [s[|s| - 1]];
      if s[|s| - 1] > m then s[|s| - 1] else m
  }

  function MinOf(s: seq<int>): (m: int)
    requires s != []
    ensures m in s && forall i :: 0 <= i < |s| ==> m <= s[i]
  {
    if |s| == 1 then s[0]
    else
      var m := MinOf(s[..|s| - 1]);
      assert s == s[..|s| - 1] + [s[|s| - 1]];
      if s[|s| - 1] < m then s[|s| - 1] else m
  }

  function Rows(ps: seq<Point>): (ys: seq<int>)
    ensures |ys| == |ps| && forall i :: 0 <= i < |ps| ==> ys[i] == ps[i].row
  {
    seq(|ps|, i requires 0 <= i < |ps| => ps[i].row)
  }

  function Cols(ps: seq<Point>): (xs: seq<int>)
    ensures |xs| == |ps| && forall i :: 0 <= i < |ps| ==> xs[i] == ps[i].col
  {
    seq(|ps|, i requires 0 <= i < |ps| => ps[i].col)
  }

  /**
   * The square of find_length: the squared diagonal of the bounding box,
   * `(max(x) - min(x))**2 + (max(y) - min(y))**2` with x the columns and y the rows.
   */
  function SqExtent(ps: seq<Point>): nat
    requires ps != []
  {
    Sq(MaxOf(Cols(ps)) - MinOf(Cols(ps))) + Sq(MaxOf(Rows(ps)) - MinOf(Rows(ps)))
  }

  /** The spread of a coordinate bounds the difference of any two of its values. */
  lemma SpanBoundsDifference(s: seq<int>, i: int, j: int)
    requires 0 <= i < |s| && 0 <= j < |s|
    ensures Sq(s[i] - s[j]) <= Sq(MaxOf(s) - MinOf(s))
  {
    SquareAtMost(s[i] - s[j], MaxOf(s) - MinOf(s));
  }

  /** Per axis: the spread of the columns and of the rows bounds the gap between two members. */
  lemma AxisGapsBounded(ps: seq<Point>, i: int, j: int)
    requires 0 <= i < |ps| && 0 <= j < |ps|
    ensures Sq(ps[i].col - ps[j].col) <= Sq(MaxOf(Cols(ps)) - MinOf(Cols(ps)))
    ensures Sq(ps[i].row - ps[j].row) <= Sq(MaxOf(Rows(ps)) - MinOf(Rows(ps)))
  {
    SpanBoundsDifference(Cols(ps), i, j);
    SpanBoundsDifference(Rows(ps), i, j);
  }

  /** The bounding-box diagonal bounds every pairwise distance within the cluster. */
  lemma SqExtentBoundsDistances(ps: seq<Point>, i: int, j: int)
    requires 0 <= i < |ps| && 0 <= j < |ps|
    ensures SqDist(ps[i], ps[j]) <= SqExtent(ps)
  {
    AxisGapsBounded(ps, i, j);
    SumsBounded(Sq(ps[i].row - ps[j].row), Sq(ps[i].col - ps[j].col),
                Sq(MaxOf(Rows(ps)) - MinOf(Rows(ps))), Sq(MaxOf(Cols(ps)) - MinOf(Cols(ps))));
  }

  lemma SumsBounded(a: nat, b: nat, c: nat, d: nat)
    requires a <= c && b <= d
    ensures a + b <= c + d
  {
  }

  /** The squared length is zero exactly when every point of the cluster is the same pixel. */
  lemma SqExtentZeroIffSinglePixel(ps: seq<Point>)
    requires ps != []
    ensures SqExtent(ps) == 0 <==> forall i :: 0 <= i < |ps| ==> ps[i] == ps[0]
  {
    var xs, ys := Cols(ps), Rows(ps);
    var dx := MaxOf(xs) - MinOf(xs);
    var dy := MaxOf(ys) - MinOf(ys);
    if SqExtent(ps) == 0 {
      assert dx == 0 by { if dx != 0 { SquareAtLeast(dx, 1); } }
      assert dy == 0 by { if dy != 0 { SquareAtLeast(dy, 1); } }
      forall i | 0 <= i < |ps| ensures ps[i] == ps[0] {
        assert xs[i] == xs[0] && ys[i] == ys[0];
      }
    }
    if forall i :: 0 <= i < |ps| ==> ps[i] == ps[0] {
      var mx, my := MaxOf(xs), MinOf(xs);
      assert mx == xs[0] && my == xs[0];
      assert MaxOf(ys) == ys[0] && MinOf(ys) == ys[0];
    }
  }

  /** A cluster holding two different pixels has a positive squared length. */
  lemma DistinctMembersHaveExtent(ps: seq<Point>, p: Point, q: Point)
    requires p in ps && q in ps && p != q
    ensures SqExtent(ps) > 0
  {
    SqExtentZeroIffSinglePixel(ps);
  }

  lemma SquareAtMost(x: int, y: int)
    requires -y <= x <= y
    ensures Sq(x) <= Sq(y)
  {
    if x >= 0 { assert x * x <= x * y <= y * y; } else { assert x * x == (-x) * (-x) <= (-x) * y <= y * y; }
  }

  // ---------------------------------------------------------------------------
  // Acceptance.

  /** The minimum size, in pixels, of an accepted cluster. */
  const SizeCutoff: int := 120
  /** The outlier probability below which a cluster is accepted. */
  const OutlierCutoff: real := 0.9

  /**
   * The floating-point parts of the scoring: `width(size, sqLength)` stands for
   * `size / sqrt(sqLength)`, and `outlierProbability` for outlier_probability with
   * the fixed mixture `g = 0.9, N(8, 1), N(30, 5)`.
   */
  datatype Scoring = Scoring(width: (nat, nat) -> real, outlierProbability: real -> real)

  /** np.where on a boolean vector: the positions that hold true, in increasing order. */
  function Where(flags: seq<bool>): (idx: seq<nat>)
    ensures forall a, b :: 0 <= a < b < |idx| ==> idx[a] < idx[b]
    ensures forall k :: 0 <= k < |idx| ==> idx[k] < |flags| && flags[idx[k]]
    ensures forall i :: 0 <= i < |flags| && flags[i] ==> i in idx
  {
    if flags == [] then []
    else
      var n := |flags| - 1;
      assert flags[..n] + [flags[n]] == flags;
      Where(flags[..n]) + (if flags[n] then [n] else [])
  }

  /** The boolean vector `clusters_SE == c`. */
  function LabelIs(labels: seq<nat>, c: int): (flags: seq<bool>)
    ensures |flags| == |labels| && forall i :: 0 <= i < |labels| ==> (flags[i] <==> labels[i] == c)
  {
    seq(|labels|, i requires 0 <= i < |labels| => labels[i] == c)
  }

  /** Picking the positions of a prefix's indices from the whole sequence picks the same elements. */
  lemma SelectPrefix<T>(xs: seq<T>, n: nat, idx: seq<nat>)
    requires n <= |xs| && forall k :: 0 <= k < |idx| ==> idx[k] < n
    ensures Select(xs[..n], idx) == Select(xs, idx)
  {
  }

  lemma SelectAppend<T>(xs: seq<T>, a: seq<nat>, b: seq<nat>)
    requires forall k :: 0 <= k < |a| ==> a[k] < |xs|
    requires forall k :: 0 <= k < |b| ==> b[k] < |xs|
    ensures Select(xs, a + b) == Select(xs, a) + Select(xs, b)
  {
  }

  /**
   * `SE_points[np.where(clusters_SE == c)]`, computed with NumPy's two steps, is
   * exactly the member list of cluster `c`: the points with that id, in point order.
   */
  lemma {:induction false} MembersAreSelectedPoints(points: seq<Point>, labels: seq<nat>, c: int)
    requires |labels| == |points|
    ensures Members(points, labels, c) == Select(points, Where(LabelIs(labels, c)))
  {
    if labels != [] {
      var n := |labels| - 1;
      var flags := LabelIs(labels, c);
      assert LabelIs(labels[..n], c) == flags[..n];
      assert flags[..n] + [flags[n]] == flags;
      MembersAreSelectedPoints(points[..n], labels[..n], c);
      var w := Where(flags[..n]);
      SelectPrefix(points, n, w);
      var tail: seq<nat> := if flags[n] then [n] else [];
      assert Where(flags) == w + tail;
      SelectAppend(points, w, tail);
      assert Select(points, tail) == if labels[n] == c then [points[n]] else [];
      assert Members(points, labels, c) ==
             Members(points[..n], labels[..n], c) + (if labels[n] == c then [points[n]] else []);
    }
  }

  /** NumPy fancy indexing `xs[idx]`. */
  function Select<T>(xs: seq<T>, idx: seq<nat>): (ys: seq<T>)
    requires forall k :: 0 <= k < |idx| ==> idx[k] < |xs|
    ensures |ys| == |idx| && forall k :: 0 <= k < |idx| ==> ys[k] == xs[idx[k]]
  {
    seq(|idx|, k requires 0 <= k < |idx| => xs[idx[k]])
  }

  // ---------------------------------------------------------------------------
  // find_clusters.

  /** What the clustering call is assumed to deliver on these points. */
  ghost predicate ClusteringContract(agglomerate: seq<Point> -> seq<nat>, points: seq<Point>)
  {
    |points| >= 2 ==> IsComponentLabelling(points, agglomerate(points))
  }

  /**
   * `clusters_SE`: sklearn's labels for two or more points. With fewer points
   * sklearn raises and the fallback `np.ones(len(SE_points))` is used; for a
   * single point that fallback makes the cluster count the float `2.0`, which
   * `range` then rejects, so a single point is excluded.
   */
  function AssignClusters(points: seq<Point>, agglomerate: seq<Point> -> seq<nat>): (labels: seq<nat>)
    requires |points| != 1
    requires ClusteringContract(agglomerate, points)
    ensures |labels| == |points| && Contiguous(labels)
    ensures |points| >= 2 ==> IsComponentLabelling(points, labels)
    ensures |points| == 0 ==> labels == []
  {
    if |points| < 2 then seq(|points|, _ => 1) else agglomerate(points)
  }

  /** `SE_clust_dim`: lengths and widths of the accepted clusters only, sizes of all clusters. */
  datatype Dimensions = Dimensions(lengths: seq<nat>, widths: seq<real>, sizes: seq<nat>)

  datatype ClusterResult = ClusterResult(assign: seq<nat>, dims: Dimensions, good: seq<nat>)

  /** The squared lengths of all clusters. */
  function ClusterSqLengths(points: seq<Point>, labels: seq<nat>): (lengths: seq<nat>)
    requires |labels| == |points| && Contiguous(labels)
    ensures |lengths| == NumClusters(labels)
    ensures forall c :: 0 <= c < |lengths| ==>
              Members(points, labels, c) != [] && lengths[c] == SqExtent(Members(points, labels, c))
  {
    seq(NumClusters(labels), c requires 0 <= c < NumClusters(labels) => SqExtent(Members(points, labels, c)))
  }

  /** Whether a cluster of this size and squared length is kept: large enough and not likely an outlier. */
  predicate IsAccepted(sc: Scoring, size: nat, sqLength: nat)
  {
    size > SizeCutoff && sc.outlierProbability(sc.width(size, sqLength)) < OutlierCutoff
  }

  /** The widths of all clusters: `SE_sizes[c] / SE_lengths[c]`. */
  function ClusterWidths(sc: Scoring, sizes: seq<nat>, lengths: seq<nat>): (widths: seq<real>)
    requires |sizes| == |lengths|
    ensures |widths| == |sizes| && forall c :: 0 <= c < |sizes| ==> widths[c] == sc.width(sizes[c], lengths[c])
  {
    seq(|sizes|, c requires 0 <= c < |sizes| => sc.width(sizes[c], lengths[c]))
  }

  /** `SE_good_clust`: the ids of the clusters that pass the filter, in increasing order. */
  function AcceptedIds(points: seq<Point>, labels: seq<nat>, sc: Scoring): (good: seq<nat>)
    requires |labels| == |points| && Contiguous(labels)
    ensures forall a, b :: 0 <= a < b < |good| ==> good[a] < good[b]
    ensures forall k :: 0 <= k < |good| ==> good[k] < NumClusters(labels)
    ensures forall c :: 0 <= c < NumClusters(labels) ==>
              (c in good <==> IsAccepted(sc, CountLabel(labels, c), SqExtent(Members(points, labels, c))))
  {
    var sizes := ClusterSizes(labels);
    var widths := ClusterWidths(sc, sizes, ClusterSqLengths(points, labels));
    Where(seq(|sizes|, c requires 0 <= c < |sizes| =>
                sizes[c] > SizeCutoff && sc.outlierProbability(widths[c]) < OutlierCutoff))
  }

  /**
   * The bookkeeping of find_clusters for a given contiguous assignment: sizes,
   * lengths and widths per cluster id, and the ids of the accepted clusters.
   */
  function FindClusters(points: seq<Point>, labels: seq<nat>, sc: Scoring): (res: ClusterResult)
    requires |labels| == |points| && Contiguous(labels)
    ensures res.assign == labels
    // Sizes are reported for every cluster id; none is empty, and none is reported when there are no points.
    ensures |res.dims.sizes| == NumClusters(labels)
    ensures points == [] ==> res.dims.sizes == [] && res.good == []
    ensures forall c :: 0 <= c < |res.dims.sizes| ==>
              res.dims.sizes[c] == CountLabel(labels, c) && res.dims.sizes[c] > 0
    // Lengths and widths are reported for the accepted ids only, in increasing id order.
    ensures |res.dims.lengths| == |res.dims.widths| == |res.good|
    ensures forall a, b :: 0 <= a < b < |res.good| ==> res.good[a] < res.good[b]
    ensures forall k :: 0 <= k < |res.good| ==> res.good[k] < NumClusters(labels)
    // A cluster id is reported as accepted exactly when the cluster passes the filter.
    ensures forall c :: 0 <= c < NumClusters(labels) ==>
              (c in res.good <==> IsAccepted(sc, CountLabel(labels, c), SqExtent(Members(points, labels, c))))
  {
    var sizes := ClusterSizes(labels);
    var lengths := ClusterSqLengths(points, labels);
    var widths := ClusterWidths(sc, sizes, lengths);
    var good := AcceptedIds(points, labels, sc);
    ClusterResult(labels, Dimensions(Select(lengths, good), Select(widths, good), sizes), good)
  }

  /** Each reported length and width belongs to an accepted cluster and passes the filter. */
  lemma AcceptedDimensions(points: seq<Point>, labels: seq<nat>, sc: Scoring, k: int)
    requires |labels| == |points| && Contiguous(labels)
    requires 0 <= k < |FindClusters(points, labels, sc).good|
    ensures var res := FindClusters(points, labels, sc);
            var c := res.good[k];
            && Members(points, labels, c) != []
            && res.dims.lengths[k] == SqExtent(Members(points, labels, c))
            && res.dims.widths[k] == sc.width(res.dims.sizes[c], res.dims.lengths[k])
            && res.dims.sizes[c] > SizeCutoff
            && sc.outlierProbability(res.dims.widths[k]) < OutlierCutoff
  {
    var res := FindClusters(points, labels, sc);
    var c := res.good[k];
    assert c in res.good;
    var lengths := ClusterSqLengths(points, labels);
    assert res.dims.lengths[k] == lengths[c];
  }
}
