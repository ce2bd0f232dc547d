/**
 * `select_rsu_positions` of FCD_heatmap.py: walk the cells of a vehicle
 * density heatmap from the hottest down, and keep the centre of every
 * non-empty cell that is not closer than `min_dist` to a centre already
 * kept, until `k` are kept.
 */
module RsuPlacement {
  import opened Geometry
  import opened Arith

  /**
   * The output of `np.histogram2d`, held as `heatmap.ravel()`: `rows` x-bins
   * by `width` y-bins in row-major order, so that `heatmap[i, j]` is
   * `counts[i * width + j]`, with `rows + 1` x-edges and `width + 1` y-edges.
   */
  datatype Heatmap = Heatmap(counts: seq<real>, rows: nat, width: nat, xEdges: seq<real>, yEdges: seq<real>)

  ghost predicate WellShaped(h: Heatmap)
  {
    && |h.counts| == h.rows * h.width
    && |h.xEdges| == h.rows + 1
    && |h.yEdges| == h.width + 1
  }

  /** `flat_idx // W` and `flat_idx % W` name a cell of the grid, and row-major order maps that cell back to `flat_idx`. */
  lemma DecodeInBounds(h: Heatmap, idx: int)
    requires WellShaped(h) && 0 <= idx < |h.counts|
    ensures h.width > 0
    ensures 0 <= idx / h.width < h.rows && 0 <= idx % h.width < h.width
    ensures idx == (idx / h.width) * h.width + idx % h.width
  {
    var i := idx / h.width;
    if i >= h.rows {
      MulMonotone(h.rows, i, h.width);
    }
  }

  /** Division by `w` has one answer: the quotient and remainder of `q * w + r` are `q` and `r`. */
  lemma DivUnique(n: int, w: nat, q: nat, r: nat)
    requires w > 0 && r < w && n == q * w + r
    ensures n / w == q && n % w == r
  {
    var q', r' := n / w, n % w;
    if q' > q {
      MulMonotone(q + 1, q', w);
    } else if q' < q {
      MulMonotone(q' + 1, q, w);
    }
  }

  /** Cell `(i, j)` sits at flat index `i * W + j`, which decodes back to `(i, j)`. */
  lemma RavelRoundTrip(h: Heatmap, i: nat, j: nat)
    requires WellShaped(h) && i < h.rows && j < h.width
    ensures 0 <= i * h.width + j < |h.counts|
    ensures (i * h.width + j) / h.width == i && (i * h.width + j) % h.width == j
  {
    MulMonotone(i + 1, h.rows, h.width);
    DivUnique(i * h.width + j, h.width, i, j);
  }

  /** The midpoint of cell `idx`: `(0.5 * (x_edges[i] + x_edges[i + 1]), 0.5 * (y_edges[j] + y_edges[j + 1]))`. */
  function Center(h: Heatmap, idx: int): Point
    requires WellShaped(h) && 0 <= idx < |h.counts|
  {
    DecodeInBounds(h, idx);
    var i, j := idx / h.width, idx % h.width;
    Point(0.5 * (h.xEdges[i] + h.xEdges[i + 1]), 0.5 * (h.yEdges[j] + h.yEdges[j + 1]))
  }

  /** The centre of every cell, indexed by flat index. */
  function CellCenters(h: Heatmap): (cs: seq<Point>)
    requires WellShaped(h)
    ensures |cs| == |h.counts|
  {
    seq(|h.counts|, idx requires 0 <= idx < |h.counts| => Center(h, idx))
  }

  ghost predicate IndicesBelow(cells: seq<int>, size: nat)
  {
    forall m :: 0 <= m < |cells| ==> 0 <= cells[m] < size
  }

  /**
   * `np.argsort(heatmap.ravel())[::-1]`: every flat index once, counts
   * non-increasing; the order among equal counts is left open.
   */
  ghost predicate IsDescendingOrder(counts: seq<real>, order: seq<int>)
  {
    && |order| == |counts|
    && IndicesBelow(order, |counts|)
    && (forall a, b :: 0 <= a < b < |order| ==> order[a] != order[b])
    && (forall a, b :: 0 <= a < b < |order| ==> counts[order[a]] >= counts[order[b]])
  }

  /** The positions of the kept cells, in the order they were kept. */
  function Placed(centers: seq<Point>, cells: seq<int>): (ps: seq<Point>)
    requires IndicesBelow(cells, |centers|)
    ensures |ps| == |cells|
  {
    seq(|cells|, m requires 0 <= m < |cells| => centers[cells[m]])
  }

  /** `too_close`: some position already kept is at distance less than `min_dist` from `c`. */
  predicate TooClose(dist: Metric, kept: seq<Point>, c: Point, minDist: real)
  {
    exists m :: 0 <= m < |kept| && dist(c, kept[m]) < minDist
  }

  /** `too_close` stated on the kept cells rather than their positions. */
  predicate TooCloseToCells(dist: Metric, centers: seq<Point>, cells: seq<int>, c: Point, minDist: real)
    requires IndicesBelow(cells, |centers|)
  {
    exists m :: 0 <= m < |cells| && dist(c, centers[cells[m]]) < minDist
  }

  /**
   * The flat indices kept after the first `n` indices of `order`: a cell is
   * taken unless `k` are already kept, it is empty, or it is too close.
   */
  function Chosen(counts: seq<real>, centers: seq<Point>, k: int, minDist: real, dist: Metric, order: seq<int>, n: nat): (cells: seq<int>)
    requires |centers| == |counts| && IndicesBelow(order, |counts|) && n <= |order|
    ensures IndicesBelow(cells, |counts|)
  {
    if n == 0 then []
    else
      var prev := Chosen(counts, centers, k, minDist, dist, order, n - 1);
      var idx := order[n - 1];
      if |prev| >= k || counts[idx] <= 0.0 || TooCloseToCells(dist, centers, prev, centers[idx], minDist) then prev
      else prev + [idx]
  }

  /** At most `k` positions, none when `k <= 0`. */
  lemma {:induction false} ChosenBounded(counts: seq<real>, centers: seq<Point>, k: int, minDist: real, dist: Metric, order: seq<int>, n: nat)
    requires |centers| == |counts| && IndicesBelow(order, |counts|) && n <= |order|
    ensures |Chosen(counts, centers, k, minDist, dist, order, n)| <= (if k < 0 then 0 else k)
  {
    if n > 0 {
      ChosenBounded(counts, centers, k, minDist, dist, order, n - 1);
    }
  }

  /** Every kept cell is non-empty and is one of the first `n` indices of `order`. */
  lemma {:induction false} ChosenFromOrder(counts: seq<real>, centers: seq<Point>, k: int, minDist: real, dist: Metric, order: seq<int>, n: nat, m: nat)
    requires |centers| == |counts| && IndicesBelow(order, |counts|) && n <= |order|
    requires m < |Chosen(counts, centers, k, minDist, dist, order, n)|
    ensures counts[Chosen(counts, centers, k, minDist, dist, order, n)[m]] > 0.0
    ensures exists a :: 0 <= a < n && order[a] == Chosen(counts, centers, k, minDist, dist, order, n)[m]
  {
    var prev := Chosen(counts, centers, k, minDist, dist, order, n - 1);
    if m < |prev| {
      ChosenFromOrder(counts, centers, k, minDist, dist, order, n - 1, m);
      var a :| 0 <= a < n - 1 && order[a] == prev[m];
    } else {
      assert order[n - 1] == Chosen(counts, centers, k, minDist, dist, order, n)[m];
    }
  }

  /** Counts never increase along `cells`. */
  ghost predicate NonIncreasing(counts: seq<real>, cells: seq<int>)
    requires IndicesBelow(cells, |counts|)
  {
    forall m, m' :: 0 <= m < m' < |cells| ==> counts[cells[m]] >= counts[cells[m']]
  }

  /** Every position is at least `min_dist` away from every position before it. */
  ghost predicate SpacedApart(dist: Metric, ps: seq<Point>, minDist: real)
  {
    forall m, m' :: 0 <= m < m' < |ps| ==> dist(ps[m'], ps[m]) >= minDist
  }

  /** The kept cells are visited hottest first: their counts never increase. */
  lemma {:induction false} ChosenDescending(counts: seq<real>, centers: seq<Point>, k: int, minDist: real, dist: Metric, order: seq<int>, n: nat)
    requires |centers| == |counts| && IsDescendingOrder(counts, order) && n <= |order|
    ensures NonIncreasing(counts, Chosen(counts, centers, k, minDist, dist, order, n))
  {
    if n > 0 {
      ChosenDescending(counts, centers, k, minDist, dist, order, n - 1);
      var prev := Chosen(counts, centers, k, minDist, dist, order, n - 1);
      var cells := Chosen(counts, centers, k, minDist, dist, order, n);
      if cells != prev {
        assert cells == prev + [order[n - 1]];
        forall m, m' | 0 <= m < m' < |cells| ensures counts[cells[m]] >= counts[cells[m']] {
          assert cells[m] == prev[m];
          if m' < |prev| {
            assert cells[m'] == prev[m'];
          } else {
            assert cells[m'] == order[n - 1];
            ChosenFromOrder(counts, centers, k, minDist, dist, order, n - 1, m);
            var a :| 0 <= a < n - 1 && order[a] == prev[m];
            assert counts[order[a]] >= counts[order[n - 1]];
          }
        }
      }
    }
  }

  /** A kept position is at least `min_dist` away from every position kept before it. */
  lemma {:induction false} ChosenSpaced(counts: seq<real>, centers: seq<Point>, k: int, minDist: real, dist: Metric, order: seq<int>, n: nat)
    requires |centers| == |counts| && IndicesBelow(order, |counts|) && n <= |order|
    ensures SpacedApart(dist, Placed(centers, Chosen(counts, centers, k, minDist, dist, order, n)), minDist)
  {
    if n > 0 {
      ChosenSpaced(counts, centers, k, minDist, dist, order, n - 1);
      var prev := Chosen(counts, centers, k, minDist, dist, order, n - 1);
      var cells := Chosen(counts, centers, k, minDist, dist, order, n);
      if cells != prev {
        assert cells == prev + [order[n - 1]];
        var ps, ps' := Placed(centers, prev), Placed(centers, cells);
        forall m, m' | 0 <= m < m' < |ps'| ensures dist(ps'[m'], ps'[m]) >= minDist {
          assert ps'[m] == ps[m];
          if m' < |ps| {
            assert ps'[m'] == ps[m'];
          } else {
            assert cells[m'] == order[n - 1];
            assert ps'[m'] == centers[order[n - 1]] && ps[m] == centers[prev[m]];
            assert !TooCloseToCells(dist, centers, prev, centers[order[n - 1]], minDist);
          }
        }
      }
    }
  }

  /** With a Euclidean distance, any two kept positions are at least `min_dist` apart. */
  lemma ChosenPairwiseSpaced(counts: seq<real>, centers: seq<Point>, k: int, minDist: real, dist: Metric, order: seq<int>, m: nat, m': nat)
    requires |centers| == |counts| && IndicesBelow(order, |counts|) && IsEuclidean(dist)
    requires var ps := Placed(centers, Chosen(counts, centers, k, minDist, dist, order, |order|)); m < |ps| && m' < |ps| && m != m'
    ensures var ps := Placed(centers, Chosen(counts, centers, k, minDist, dist, order, |order|)); dist(ps[m], ps[m']) >= minDist
  {
    var ps := Placed(centers, Chosen(counts, centers, k, minDist, dist, order, |order|));
    ChosenSpaced(counts, centers, k, minDist, dist, order, |order|);
    EuclideanSymmetric(dist, ps[m], ps[m']);
  }

  /** The non-empty cells among the first `n` indices of `order`, in that order. */
  function Hot(counts: seq<real>, order: seq<int>, n: nat): seq<int>
    requires IndicesBelow(order, |counts|) && n <= |order|
  {
    if n == 0 then []
    else Hot(counts, order, n - 1) + (if counts[order[n - 1]] > 0.0 then [order[n - 1]] else [])
  }

  /** The first `k` elements of `s`, all of them when there are fewer, none when `k <= 0`. */
  function Take(s: seq<int>, k: int): seq<int>
  {
    if k <= 0 then [] else if |s| <= k then s else s[..k]
  }

  /**
   * With `min_dist = 0` and a distance that is never negative no candidate is
   * too close: the result is the first `min(k, #non-empty cells)` non-empty cells.
   */
  lemma {:induction false} NoSpacingTakesHottest(counts: seq<real>, centers: seq<Point>, k: int, dist: Metric, order: seq<int>, n: nat)
    requires |centers| == |counts| && IndicesBelow(order, |counts|) && n <= |order|
    requires forall p, q :: dist(p, q) >= 0.0
    ensures Chosen(counts, centers, k, 0.0, dist, order, n) == Take(Hot(counts, order, n), k)
  {
    if n > 0 {
      NoSpacingTakesHottest(counts, centers, k, dist, order, n - 1);
      var hot := Hot(counts, order, n - 1);
      var idx := order[n - 1];
      assert !TooCloseToCells(dist, centers, Chosen(counts, centers, k, 0.0, dist, order, n - 1), centers[idx], 0.0);
      if k > 0 && |hot| >= k && counts[idx] > 0.0 {
        assert (hot + [idx])[..k] == hot[..k];
      }
    }
  }

  /** Once `k` cells are kept nothing more is taken: the `break` changes nothing. */
  lemma {:induction false} SaturatedStays(counts: seq<real>, centers: seq<Point>, k: int, minDist: real, dist: Metric, order: seq<int>, n: nat, n': nat)
    requires |centers| == |counts| && IndicesBelow(order, |counts|) && n <= n' <= |order|
    requires |Chosen(counts, centers, k, minDist, dist, order, n)| >= k
    ensures Chosen(counts, centers, k, minDist, dist, order, n') == Chosen(counts, centers, k, minDist, dist, order, n)
    decreases n' - n
  {
    if n' > n {
      SaturatedStays(counts, centers, k, minDist, dist, order, n, n' - 1);
    }
  }

  /** The inner loop: compare `c` with every position kept so far, stopping at the first that is too close. */
  method CheckSpacing(kept: seq<Point>, c: Point, minDist: real, dist: Metric) returns (tooClose: bool)
    ensures tooClose <==> TooClose(dist, kept, c, minDist)
  {
    tooClose := false;
    var m := 0;
    while m < |kept|
      invariant 0 <= m <= |kept| && !tooClose
      invariant forall m' :: 0 <= m' < m ==> dist(c, kept[m']) >= minDist
    {
      if dist(c, kept[m]) < minDist {
        tooClose := true;
        break;
      }
      m := m + 1;
    }
  }

  /** Testing the kept positions is testing the kept cells' centres. */
  lemma PlacedTooClose(dist: Metric, centers: seq<Point>, cells: seq<int>, c: Point, minDist: real)
    requires IndicesBelow(cells, |centers|)
    ensures TooClose(dist, Placed(centers, cells), c, minDist) <==> TooCloseToCells(dist, centers, cells, c, minDist)
  {
    var ps := Placed(centers, cells);
    if TooClose(dist, ps, c, minDist) {
      var m :| 0 <= m < |ps| && dist(c, ps[m]) < minDist;
      assert dist(c, centers[cells[m]]) < minDist;
    }
    if TooCloseToCells(dist, centers, cells, c, minDist) {
      var m :| 0 <= m < |cells| && dist(c, centers[cells[m]]) < minDist;
      assert dist(c, ps[m]) < minDist;
    }
  }

  /**
   * One pass of the outer loop body for flat index `idx`: decode it into
   * `(i, j)`, skip an empty cell, compute the centre, and skip it when too
   * close to a kept position.
   */
  method Consider(h: Heatmap, idx: int, positions: seq<Point>, minDist: real, dist: Metric) returns (take: bool, c: Point)
    requires WellShaped(h) && 0 <= idx < |h.counts|
    ensures take <==> h.counts[idx] > 0.0 && !TooClose(dist, positions, CellCenters(h)[idx], minDist)
    ensures take ==> c == CellCenters(h)[idx]
  {
    DecodeInBounds(h, idx);
    var i, j := idx / h.width, idx % h.width;
    if h.counts[i * h.width + j] <= 0.0 {
      return false, Point(0.0, 0.0);
    }
    c := Point(0.5 * (h.xEdges[i] + h.xEdges[i + 1]), 0.5 * (h.yEdges[j] + h.yEdges[j + 1]));
    var tooClose := CheckSpacing(positions, c, minDist, dist);
    if tooClose {
      return false, c;
    }
    take := true;
  }

  /** `select_rsu_positions` with `order` the result of `argsort` reversed and `dist` the function `np.hypot` computes. */
  method SelectRsuPositions(h: Heatmap, k: int, minDist: real, dist: Metric, order: seq<int>) returns (positions: seq<Point>)
    requires WellShaped(h) && IsDescendingOrder(h.counts, order)
    ensures positions == Placed(CellCenters(h), Chosen(h.counts, CellCenters(h), k, minDist, dist, order, |order|))
  {
    ghost var centers := CellCenters(h);
    positions := [];
    ghost var cells: seq<int> := [];
    var n := 0;
    while n < |order|
      invariant 0 <= n <= |order|
      invariant cells == Chosen(h.counts, centers, k, minDist, dist, order, n) && positions == Placed(centers, cells)
    {
      if |positions| >= k {
        SaturatedStays(h.counts, centers, k, minDist, dist, order, n, |order|);
        break;
      }
      var take, c := Consider(h, order[n], positions, minDist, dist);
      PlacedTooClose(dist, centers, cells, centers[order[n]], minDist);
      if take {
        positions := positions + [c];
        cells := cells + [order[n]];
      }
      n := n + 1;
    }
  }
}
