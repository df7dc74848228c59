/**
 * Brush footprints (src/logic/autotrixel/geometry.js): the triangular cluster a brush of a
 * given size covers from an anchor cell, and the search for the anchor whose cluster is
 * centred best under the cursor.
 *
 * Each imperative routine of the source is a method whose loops are proved against a
 * specification function (`Cluster`, `BestCenter`); what the source promises is proved about
 * those functions as lemmas.
 */
module Brush {
  import opened Wrappers
  import opened Geometry

  // ---------------------------------------------------------------------------------------
  // Cluster
  // ---------------------------------------------------------------------------------------

  /** The row of layer i: below the anchor when it points up, above it when it points down. */
  function LayerRow(r: int, up: bool, i: int): int
  {
    if up then r + i else r - i
  }

  /** The layer a cell would belong to, read off its row. */
  function LayerIndex(r: int, up: bool, x: Cell): int
  {
    if up then x.r - r else r - x.r
  }

  /** The in-bounds cells (row, lo), ..., (row, hi - 1), in ascending column order. */
  function RowCells(cfg: Config, row: int, lo: int, hi: int): seq<Cell>
    decreases hi - lo
  {
    if hi <= lo then []
    else RowCells(cfg, row, lo, hi - 1) + (if InBounds(cfg, row, hi - 1) then [Cell(row, hi - 1)] else [])
  }

  /** Layers 0 .. n-1 of the cluster anchored at (r, c); layer i spans columns c-i .. c+i. */
  function Layers(cfg: Config, r: int, c: int, up: bool, n: int): seq<Cell>
    decreases n
  {
    if n <= 0 then []
    else Layers(cfg, r, c, up, n - 1) + RowCells(cfg, LayerRow(r, up, n - 1), c - (n - 1), c + n)
  }

  /** `getTriangleCluster(r, c, size, config)`: a size of 1 or less is the anchor itself, with
      no bounds check; larger sizes keep only the in-bounds cells of `size` layers. */
  function Cluster(cfg: Config, r: int, c: int, size: int): seq<Cell>
  {
    if size <= 1 then [Cell(r, c)] else Layers(cfg, r, c, IsUp(r, c), size)
  }

  /** The cluster, built by the source's two nested loops. */
  method GetTriangleCluster(cfg: Config, r: int, c: int, size: int) returns (coords: seq<Cell>)
    ensures coords == Cluster(cfg, r, c, size)
  {
    if size <= 1 {
      return [Cell(r, c)];
    }
    coords := [];
    var up := IsUp(r, c);
    for i := 0 to size
      invariant coords == Layers(cfg, r, c, up, i)
    {
      var currentRow := if up then r + i else r - i;
      for col := c - i to c + i + 1
        invariant coords == Layers(cfg, r, c, up, i) + RowCells(cfg, currentRow, c - i, col)
      {
        if currentRow >= 0 && currentRow < cfg.heightTriangles && col >= 0 && col < cfg.widthTriangles {
          coords := coords + [Cell(currentRow, col)];
        }
      }
    }
  }

  /** The geometric shape of n layers: layer i = LayerIndex lies on row LayerRow(r, up, i) and
      covers columns c-i .. c+i. */
  predicate InShape(r: int, c: int, up: bool, n: int, x: Cell)
  {
    var i := LayerIndex(r, up, x);
    0 <= i < n && c - i <= x.c <= c + i
  }

  lemma {:induction false} RowCellsMembers(cfg: Config, row: int, lo: int, hi: int, x: Cell)
    ensures x in RowCells(cfg, row, lo, hi) <==> x.r == row && lo <= x.c < hi && InBounds(cfg, x.r, x.c)
    decreases hi - lo
  {
    if hi > lo {
      RowCellsMembers(cfg, row, lo, hi - 1, x);
    }
  }

  lemma {:induction false} LayersMembers(cfg: Config, r: int, c: int, up: bool, n: int, x: Cell)
    ensures x in Layers(cfg, r, c, up, n) <==> InBounds(cfg, x.r, x.c) && InShape(r, c, up, n, x)
    decreases n
  {
    if n > 0 {
      LayersMembers(cfg, r, c, up, n - 1, x);
      RowCellsMembers(cfg, LayerRow(r, up, n - 1), c - (n - 1), c + n, x);
    }
  }

  /** Membership: for size > 1 a cell is in the cluster exactly when it is in bounds and lies
      in the triangular shape; in particular the cluster never leaves the grid. */
  lemma ClusterMembers(cfg: Config, r: int, c: int, size: int, x: Cell)
    requires size > 1
    ensures x in Cluster(cfg, r, c, size) <==> InBounds(cfg, x.r, x.c) && InShape(r, c, IsUp(r, c), size, x)
  {
    LayersMembers(cfg, r, c, IsUp(r, c), size, x);
  }

  /** Size 1 or less: exactly the anchor, even out of bounds. Larger: only in-bounds cells. */
  lemma ClusterBounds(cfg: Config, r: int, c: int, size: int)
    ensures size <= 1 ==> Cluster(cfg, r, c, size) == [Cell(r, c)]
    ensures size > 1 ==> forall x :: x in Cluster(cfg, r, c, size) ==> InBounds(cfg, x.r, x.c)
  {
    if size > 1 {
      forall x | x in Cluster(cfg, r, c, size)
        ensures InBounds(cfg, x.r, x.c)
      {
        ClusterMembers(cfg, r, c, size, x);
      }
    }
  }

  /** Scan order of the cluster: by layer, then by ascending column. */
  predicate Precedes(r: int, up: bool, a: Cell, b: Cell)
  {
    var ia, ib := LayerIndex(r, up, a), LayerIndex(r, up, b);
    ia < ib || (ia == ib && a.c < b.c)
  }

  lemma {:induction false} RowCellsAscending(cfg: Config, row: int, lo: int, hi: int)
    ensures forall x :: x in RowCells(cfg, row, lo, hi) ==> x.r == row && lo <= x.c < hi
    ensures forall i, j :: 0 <= i < j < |RowCells(cfg, row, lo, hi)| ==>
              RowCells(cfg, row, lo, hi)[i].c < RowCells(cfg, row, lo, hi)[j].c
    decreases hi - lo
  {
    if hi > lo {
      RowCellsAscending(cfg, row, lo, hi - 1);
    }
  }

  lemma {:induction false} LayersOrdered(cfg: Config, r: int, c: int, up: bool, n: int)
    ensures forall x :: x in Layers(cfg, r, c, up, n) ==> 0 <= LayerIndex(r, up, x) < n
    ensures forall i, j :: 0 <= i < j < |Layers(cfg, r, c, up, n)| ==>
              Precedes(r, up, Layers(cfg, r, c, up, n)[i], Layers(cfg, r, c, up, n)[j])
    decreases n
  {
    if n > 0 {
      LayersOrdered(cfg, r, c, up, n - 1);
      var prev := Layers(cfg, r, c, up, n - 1);
      var row := RowCells(cfg, LayerRow(r, up, n - 1), c - (n - 1), c + n);
      RowCellsAscending(cfg, LayerRow(r, up, n - 1), c - (n - 1), c + n);
      var all := Layers(cfg, r, c, up, n);
      assert all == prev + row;
      forall i, j | 0 <= i < j < |all|
        ensures Precedes(r, up, all[i], all[j])
      {
        if j < |prev| {
          assert all[i] == prev[i] && all[j] == prev[j];
        } else if i < |prev| {
          assert all[i] == prev[i] && all[j] == row[j - |prev|];
          assert all[i] in prev;
          assert all[j] in row;
        } else {
          assert all[i] == row[i - |prev|] && all[j] == row[j - |prev|];
        }
      }
    }
  }

  /** The cluster comes out layer by layer, columns ascending within a layer, and therefore
      holds no cell twice. */
  lemma ClusterOrderedAndDistinct(cfg: Config, r: int, c: int, size: int)
    requires size > 1
    ensures forall i, j :: 0 <= i < j < |Cluster(cfg, r, c, size)| ==>
              Precedes(r, IsUp(r, c), Cluster(cfg, r, c, size)[i], Cluster(cfg, r, c, size)[j])
    ensures forall i, j :: 0 <= i < j < |Cluster(cfg, r, c, size)| ==>
              Cluster(cfg, r, c, size)[i] != Cluster(cfg, r, c, size)[j]
  {
    LayersOrdered(cfg, r, c, IsUp(r, c), size);
  }

  /** Every cell of the n-layer shape is inside the grid: the anchor's row and the last
      layer's row are in range and the widest layer's columns are too. */
  predicate Fits(cfg: Config, r: int, c: int, up: bool, n: int)
  {
    n <= 0 ||
    (0 <= r < cfg.heightTriangles && 0 <= LayerRow(r, up, n - 1) < cfg.heightTriangles &&
     0 <= c - (n - 1) && c + (n - 1) < cfg.widthTriangles)
  }

  lemma {:induction false} RowCellsCount(cfg: Config, row: int, lo: int, hi: int)
    requires lo <= hi
    ensures |RowCells(cfg, row, lo, hi)| <= hi - lo
    ensures |RowCells(cfg, row, lo, hi)| == hi - lo <==>
              hi == lo || (0 <= row < cfg.heightTriangles && 0 <= lo && hi <= cfg.widthTriangles)
    decreases hi - lo
  {
    if hi > lo {
      RowCellsCount(cfg, row, lo, hi - 1);
    }
  }

  lemma {:induction false} LayersCount(cfg: Config, r: int, c: int, up: bool, n: int)
    requires n >= 0
    ensures |Layers(cfg, r, c, up, n)| <= n * n
    ensures |Layers(cfg, r, c, up, n)| == n * n <==> Fits(cfg, r, c, up, n)
    decreases n
  {
    if n > 0 {
      LayersCount(cfg, r, c, up, n - 1);
      RowCellsCount(cfg, LayerRow(r, up, n - 1), c - (n - 1), c + n);
      assert (n - 1) * (n - 1) + (2 * n - 1) == n * n;
    }
  }

  /** A brush of size s covers at most s² cells, and exactly s² when its whole shape is
      inside the grid (and fewer as soon as any part of it is clipped). */
  lemma ClusterCount(cfg: Config, r: int, c: int, size: int)
    requires size > 1
    ensures |Cluster(cfg, r, c, size)| <= size * size
    ensures |Cluster(cfg, r, c, size)| == size * size <==> Fits(cfg, r, c, IsUp(r, c), size)
  {
    LayersCount(cfg, r, c, IsUp(r, c), size);
  }

  // ---------------------------------------------------------------------------------------
  // Best anchor
  // ---------------------------------------------------------------------------------------

  /** `Math.ceil(size / 2) + 1`, the row reach of the search. */
  function SearchRange(size: int): (range: int)
    requires size > 1
    ensures 2 * (range - 1) - 1 <= size <= 2 * (range - 1)
  {
    (size + 1) / 2 + 1
  }

  /** The candidates are scanned with dr ascending from -range to range and, for each, dc
      ascending from -1 to 1: three per row offset. */
  function NumCandidates(size: int): nat
    requires size > 1
  {
    3 * (2 * SearchRange(size) + 1)
  }

  /** The k-th candidate of the scan. */
  function CandidateAt(tr: int, tc: int, size: int, k: int): Cell
    requires size > 1
  {
    Cell(tr + k / 3 - SearchRange(size), tc + k % 3 - 1)
  }

  /** The position of an anchor (in the search window) in the scan. */
  function ScanIndex(tr: int, tc: int, size: int, a: Cell): int
    requires size > 1
  {
    (a.r - tr + SearchRange(size)) * 3 + (a.c - tc + 1)
  }

  /** The candidate window: |dr| <= range and |dc| <= 1. */
  predicate InWindow(tr: int, tc: int, size: int, a: Cell)
    requires size > 1
  {
    Abs(a.r - tr) <= SearchRange(size) && Abs(a.c - tc) <= 1
  }

  lemma CandidateIndex(tr: int, tc: int, size: int, dr: int, dc: int)
    requires size > 1
    requires -SearchRange(size) <= dr <= SearchRange(size) && -1 <= dc <= 1
    ensures var k := (dr + SearchRange(size)) * 3 + (dc + 1);
            0 <= k < NumCandidates(size) && CandidateAt(tr, tc, size, k) == Cell(tr + dr, tc + dc)
  {
    var k := (dr + SearchRange(size)) * 3 + (dc + 1);
    assert k / 3 == dr + SearchRange(size) && k % 3 == dc + 1;
  }

  lemma CandidateInWindow(tr: int, tc: int, size: int, k: int)
    requires size > 1 && 0 <= k < NumCandidates(size)
    ensures InWindow(tr, tc, size, CandidateAt(tr, tc, size, k))
    ensures ScanIndex(tr, tc, size, CandidateAt(tr, tc, size, k)) == k
  {
  }

  /** The window test of `findBestCenter`: candidates far outside the grid are skipped. */
  predicate NearGrid(cfg: Config, size: int, a: Cell)
  {
    !(a.r < -size || a.r > cfg.heightTriangles + size || a.c < -size || a.c > cfg.widthTriangles + size)
  }

  /** A candidate the search actually scores: near the grid, with a non-empty cluster. */
  predicate Scored(cfg: Config, size: int, a: Cell)
  {
    NearGrid(cfg, size, a) && |Cluster(cfg, a.r, a.c, size)| > 0
  }

  function SumRows(s: seq<Cell>): int
  {
    if s == [] then 0 else SumRows(s[..|s| - 1]) + s[|s| - 1].r
  }

  function SumCols(s: seq<Cell>): int
  {
    if s == [] then 0 else SumCols(s[..|s| - 1]) + s[|s| - 1].c
  }

  /** Squared distance from the mean (avgR, avgC) of a non-empty cluster to the target,
      computed exactly (the source uses floating point). */
  function CentroidDist(s: seq<Cell>, tr: int, tc: int): real
    requires |s| > 0
  {
    var avgR := SumRows(s) as real / |s| as real;
    var avgC := SumCols(s) as real / |s| as real;
    (avgR - tr as real) * (avgR - tr as real) + (avgC - tc as real) * (avgC - tc as real)
  }

  function Dist(cfg: Config, tr: int, tc: int, size: int, a: Cell): real
    requires Scored(cfg, size, a)
  {
    CentroidDist(Cluster(cfg, a.r, a.c, size), tr, tc)
  }

  /** The score of the k-th candidate: its squared centroid distance when the search scores
      it, None when it skips it. */
  function Score(cfg: Config, tr: int, tc: int, size: int, k: int): Option<real>
    requires size > 1
  {
    var a := CandidateAt(tr, tc, size, k);
    if Scored(cfg, size, a) then Some(Dist(cfg, tr, tc, size, a)) else None
  }

  /** The scores of the whole scan, in scan order. */
  function Scores(cfg: Config, tr: int, tc: int, size: int): (s: seq<Option<real>>)
    requires size > 1
    ensures |s| == NumCandidates(size)
  {
    seq(NumCandidates(size), k requires 0 <= k < NumCandidates(size) => Score(cfg, tr, tc, size, k))
  }

  /** The running minimum of a list of scores, as (index, score); None while nothing has been
      scored. A later score replaces the best only when strictly smaller (`dist < minDist`). */
  function FirstMin(s: seq<Option<real>>): Option<(nat, real)>
  {
    if s == [] then None
    else
      var prev := FirstMin(s[..|s| - 1]);
      var last := s[|s| - 1];
      if last.Some? && (prev.None? || last.value < prev.value.1) then Some((|s| - 1, last.value))
      else prev
  }

  /** One step of the running minimum, over the prefix the search has scanned. */
  lemma FirstMinStep(s: seq<Option<real>>, k: int)
    requires 0 <= k < |s|
    ensures var prev := FirstMin(s[..k]);
            FirstMin(s[..k + 1]) ==
              if s[k].Some? && (prev.None? || s[k].value < prev.value.1) then Some((k, s[k].value))
              else prev
  {
    assert s[..k + 1][..k] == s[..k];
  }

  /** The running minimum is the first least score: nothing is chosen iff nothing is scored;
      otherwise the choice is a scored entry, no scored entry is smaller, and every scored
      entry before it is strictly larger. */
  lemma {:induction false} FirstMinSpec(s: seq<Option<real>>)
    ensures FirstMin(s).None? <==> forall j :: 0 <= j < |s| ==> s[j].None?
    ensures FirstMin(s).Some? ==>
              FirstMin(s).value.0 < |s| && s[FirstMin(s).value.0] == Some(FirstMin(s).value.1)
    ensures FirstMin(s).Some? ==>
              forall j :: 0 <= j < |s| && s[j].Some? ==>
                FirstMin(s).value.1 <= s[j].value &&
                (j < FirstMin(s).value.0 ==> FirstMin(s).value.1 < s[j].value)
  {
    if s != [] {
      var init := s[..|s| - 1];
      FirstMinSpec(init);
      assert forall j :: 0 <= j < |init| ==> init[j] == s[j];
    }
  }

  /** `bestAnchor` for a scan state: the target until some candidate has been scored. */
  function AnchorOf(tr: int, tc: int, size: int, best: Option<(nat, real)>): Cell
    requires size > 1
  {
    if best.None? then Cell(tr, tc) else CandidateAt(tr, tc, size, best.value.0)
  }

  /** `minDist` for a scan state, None standing for Infinity. */
  function MinDistOf(best: Option<(nat, real)>): Option<real>
  {
    if best.None? then None else Some(best.value.1)
  }

  /** `findBestCenter(targetR, targetC, size, config)`. */
  function BestCenter(cfg: Config, tr: int, tc: int, size: int): Cell
  {
    if size <= 1 then Cell(tr, tc)
    else AnchorOf(tr, tc, size, FirstMin(Scores(cfg, tr, tc, size)))
  }

  /** The k-th score, unfolded: present exactly for a scored candidate, and then its
      distance. */
  lemma ScoreAt(cfg: Config, tr: int, tc: int, size: int, k: int)
    requires size > 1 && 0 <= k < NumCandidates(size)
    ensures Scores(cfg, tr, tc, size)[k].Some? <==> Scored(cfg, size, CandidateAt(tr, tc, size, k))
    ensures Scores(cfg, tr, tc, size)[k].Some? ==>
              Scores(cfg, tr, tc, size)[k].value == Dist(cfg, tr, tc, size, CandidateAt(tr, tc, size, k))
  {
  }

  /** What findBestCenter promises about where the anchor is. Size 1 or less: the target
      itself. Otherwise the anchor is the target or a candidate of the window
      (|dr| <= ceil(size/2)+1, |dc| <= 1), and it is the target, unscored, exactly when no
      candidate is scored. */
  lemma BestCenterChoice(cfg: Config, tr: int, tc: int, size: int)
    ensures size <= 1 ==> BestCenter(cfg, tr, tc, size) == Cell(tr, tc)
    ensures size > 1 ==> InWindow(tr, tc, size, BestCenter(cfg, tr, tc, size))
    ensures size > 1 ==>
              (!Scored(cfg, size, BestCenter(cfg, tr, tc, size)) <==>
               forall k :: 0 <= k < NumCandidates(size) ==> !Scored(cfg, size, CandidateAt(tr, tc, size, k)))
    ensures size > 1 && !Scored(cfg, size, BestCenter(cfg, tr, tc, size)) ==> BestCenter(cfg, tr, tc, size) == Cell(tr, tc)
  {
    if size > 1 {
      if FirstMin(Scores(cfg, tr, tc, size)).None? {
        NoCandidateScored(cfg, tr, tc, size);
      } else {
        CandidateChosen(cfg, tr, tc, size);
      }
    }
  }

  /** When no score is present, no candidate is scored and the anchor stays the target. */
  lemma NoCandidateScored(cfg: Config, tr: int, tc: int, size: int)
    requires size > 1 && FirstMin(Scores(cfg, tr, tc, size)).None?
    ensures forall k :: 0 <= k < NumCandidates(size) ==> !Scored(cfg, size, CandidateAt(tr, tc, size, k))
    ensures BestCenter(cfg, tr, tc, size) == Cell(tr, tc) && InWindow(tr, tc, size, Cell(tr, tc))
    ensures !Scored(cfg, size, Cell(tr, tc))
  {
    var scores := Scores(cfg, tr, tc, size);
    FirstMinSpec(scores);
    forall k | 0 <= k < NumCandidates(size) ensures !Scored(cfg, size, CandidateAt(tr, tc, size, k)) {
      ScoreAt(cfg, tr, tc, size, k);
    }
    CandidateIndex(tr, tc, size, 0, 0);
  }

  /** When some score is present, the anchor is the chosen candidate, which is scored and in
      the window. */
  lemma CandidateChosen(cfg: Config, tr: int, tc: int, size: int)
    requires size > 1 && FirstMin(Scores(cfg, tr, tc, size)).Some?
    ensures var k := FirstMin(Scores(cfg, tr, tc, size)).value.0;
            k < NumCandidates(size) && BestCenter(cfg, tr, tc, size) == CandidateAt(tr, tc, size, k) &&
            Scored(cfg, size, CandidateAt(tr, tc, size, k))
    ensures InWindow(tr, tc, size, BestCenter(cfg, tr, tc, size))
  {
    var scores := Scores(cfg, tr, tc, size);
    var k := FirstMin(scores).value.0;
    FirstMinSpec(scores);
    CandidateInWindow(tr, tc, size, k);
    ScoreAt(cfg, tr, tc, size, k);
  }

  /** What findBestCenter promises about the chosen distance: no scored candidate is closer,
      and every scored candidate scanned before the anchor is strictly farther (ties keep the
      first in scan order). */
  lemma BestCenterClosest(cfg: Config, tr: int, tc: int, size: int)
    requires size > 1 && Scored(cfg, size, BestCenter(cfg, tr, tc, size))
    ensures var a := BestCenter(cfg, tr, tc, size);
            forall k :: 0 <= k < NumCandidates(size) && Scored(cfg, size, CandidateAt(tr, tc, size, k)) ==>
              Dist(cfg, tr, tc, size, a) <= Dist(cfg, tr, tc, size, CandidateAt(tr, tc, size, k)) &&
              (k < ScanIndex(tr, tc, size, a) ==>
                 Dist(cfg, tr, tc, size, a) < Dist(cfg, tr, tc, size, CandidateAt(tr, tc, size, k)))
  {
    var scores := Scores(cfg, tr, tc, size);
    var b := FirstMin(scores);
    FirstMinSpec(scores);
    BestCenterChoice(cfg, tr, tc, size);
    var k0 :| 0 <= k0 < NumCandidates(size) && Scored(cfg, size, CandidateAt(tr, tc, size, k0));
    ScoreAt(cfg, tr, tc, size, k0);
    var i := b.value.0;
    var a := CandidateAt(tr, tc, size, i);
    assert BestCenter(cfg, tr, tc, size) == a;
    CandidateInWindow(tr, tc, size, i);
    ScoreAt(cfg, tr, tc, size, i);
    forall k | 0 <= k < NumCandidates(size) && Scored(cfg, size, CandidateAt(tr, tc, size, k))
      ensures Dist(cfg, tr, tc, size, a) <= Dist(cfg, tr, tc, size, CandidateAt(tr, tc, size, k))
      ensures k < i ==> Dist(cfg, tr, tc, size, a) < Dist(cfg, tr, tc, size, CandidateAt(tr, tc, size, k))
    {
      ScoreAt(cfg, tr, tc, size, k);
    }
  }

  /** The inner part of the search: sum the rows and columns of a non-empty cluster, average
      them and square the distance to the target. */
  method CentroidDistance(cluster: seq<Cell>, tr: int, tc: int) returns (dist: real)
    requires |cluster| > 0
    ensures dist == CentroidDist(cluster, tr, tc)
  {
    var sumR := 0;
    var sumC := 0;
    for i := 0 to |cluster|
      invariant sumR == SumRows(cluster[..i]) && sumC == SumCols(cluster[..i])
    {
      assert cluster[..i + 1][..i] == cluster[..i];
      sumR := sumR + cluster[i].r;
      sumC := sumC + cluster[i].c;
    }
    assert cluster[..|cluster|] == cluster;
    var avgR := sumR as real / |cluster| as real;
    var avgC := sumC as real / |cluster| as real;
    dist := (avgR - tr as real) * (avgR - tr as real) + (avgC - tc as real) * (avgC - tc as real);
  }

  /** One step of the search: skip a candidate outside the widened window or with an empty
      cluster, otherwise compute its squared centroid distance. */
  method ScoreCandidate(cfg: Config, tr: int, tc: int, size: int, r: int, c: int)
    returns (scored: bool, dist: real)
    ensures scored == Scored(cfg, size, Cell(r, c))
    ensures scored ==> dist == Dist(cfg, tr, tc, size, Cell(r, c))
  {
    if r < -size || r > cfg.heightTriangles + size || c < -size || c > cfg.widthTriangles + size {
      return false, 0.0;
    }
    var cluster := GetTriangleCluster(cfg, r, c, size);
    if |cluster| == 0 {
      return false, 0.0;
    }
    scored := true;
    dist := CentroidDistance(cluster, tr, tc);
  }

  /** The source's search, with its nested loops and running minimum. */
  method FindBestCenter(cfg: Config, tr: int, tc: int, size: int) returns (bestAnchor: Cell)
    ensures bestAnchor == BestCenter(cfg, tr, tc, size)
  {
    if size <= 1 {
      return Cell(tr, tc);
    }
    bestAnchor := Cell(tr, tc);
    var minDist: Option<real> := None;
    var range := (size + 1) / 2 + 1;
    assert range == SearchRange(size);
    ghost var scores := Scores(cfg, tr, tc, size);
    ghost var k: nat := 0;
    for dr := -range to range + 1
      invariant k == (dr + range) * 3
      invariant bestAnchor == AnchorOf(tr, tc, size, FirstMin(scores[..k]))
      invariant minDist == MinDistOf(FirstMin(scores[..k]))
    {
      for dc := -1 to 2
        invariant k == (dr + range) * 3 + (dc + 1)
        invariant bestAnchor == AnchorOf(tr, tc, size, FirstMin(scores[..k]))
        invariant minDist == MinDistOf(FirstMin(scores[..k]))
      {
        CandidateIndex(tr, tc, size, dr, dc);
        FirstMinStep(scores, k);
        var scored, dist := ScoreCandidate(cfg, tr, tc, size, tr + dr, tc + dc);
        assert scores[k] == if scored then Some(dist) else None;
        if scored && (minDist.None? || dist < minDist.value) {
          minDist := Some(dist);
          bestAnchor := Cell(tr + dr, tc + dc);
        }
        k := k + 1;
      }
    }
    assert scores[..k] == scores;
  }
}
