/** Photo-plan computation: spacing between images, the largest capture speed
    a motion-blur budget allows, and the lawn-mower (boustrophedon) grid of
    waypoints that covers the scan rectangle. */
module PlanComputation {
  import opened DataModel
  import opened CameraUtils
  import opened RealArith

  // ---------------------------------------------------------------------------
  // Spacing and speed
  // ---------------------------------------------------------------------------

  /** The motion-blur budget used when the caller gives none: one pixel. */
  const DefaultAllowedMovementPx: real := 1.0

  /** Centre-to-centre spacing of images: the footprint at flight height
      reduced by the overlap along a row and by the sidelap across rows, so
      that neighbouring images share exactly the requested fraction of their
      footprint. */
  function DistanceBetweenImages(camera: Camera, spec: DatasetSpec): (spacing: (real, real))
    requires HasFootprint(camera)
    ensures var footprint := ImageFootprintOnSurface(camera, spec.height);
            && footprint.0 - spacing.0 == spec.overlap * footprint.0
            && footprint.1 - spacing.1 == spec.sidelap * footprint.1
  {
    var footprint := ImageFootprintOnSurface(camera, spec.height);
    (footprint.0 * (1.0 - spec.overlap), footprint.1 * (1.0 - spec.sidelap))
  }

  /** For valid inputs the spacing is positive and no larger than the
      footprint: neighbouring images overlap but never leave a gap. */
  lemma SpacingWithinFootprint(camera: Camera, spec: DatasetSpec)
    requires camera.Valid() && spec.Valid()
    ensures HasFootprint(camera)
    ensures var footprint := ImageFootprintOnSurface(camera, spec.height);
            var spacing := DistanceBetweenImages(camera, spec);
            && 0.0 < spacing.0 <= footprint.0
            && 0.0 < spacing.1 <= footprint.1
  {
    FootprintIsPositive(camera, spec.height);
    var footprint := ImageFootprintOnSurface(camera, spec.height);
    var spacing := DistanceBetweenImages(camera, spec);
    ShrinkByRatio(footprint.0, spec.overlap, spacing.0);
    ShrinkByRatio(footprint.1, spec.sidelap, spacing.1);
  }

  /** Removing a fraction in [0, 1) of a positive length leaves a positive
      length no longer than the original. */
  lemma ShrinkByRatio(length: real, ratio: real, shrunk: real)
    requires length > 0.0 && 0.0 <= ratio < 1.0
    requires shrunk == length * (1.0 - ratio)
    ensures 0.0 < shrunk <= length
  {
  }

  /** The largest speed at which the drone moves no more than
      `allowedMovementPx` pixels of ground during one exposure: distance
      covered in the exposure time equals the blur budget in metres. */
  function SpeedDuringPhotoCapture(camera: Camera, spec: DatasetSpec, allowedMovementPx: real): (speed: real)
    requires Min(camera.fx, camera.fy) != 0.0 && spec.exposureTimeMs != 0
    ensures speed * (spec.exposureTimeMs as real / 1000.0)
         == GroundSamplingDistance(camera, spec.height) * allowedMovementPx
    ensures camera.Valid() && spec.Valid() && allowedMovementPx > 0.0 ==> speed > 0.0
  {
    var gsd := GroundSamplingDistance(camera, spec.height);
    var maxDistanceMeters := gsd * allowedMovementPx;
    var exposureTimeS := spec.exposureTimeMs as real / 1000.0;
    maxDistanceMeters / exposureTimeS
  }

  /** The capture speed with the default one-pixel blur budget: during one
      exposure the drone moves exactly one ground sampling distance. */
  function CaptureSpeed(camera: Camera, spec: DatasetSpec): (speed: real)
    requires Min(camera.fx, camera.fy) != 0.0 && spec.exposureTimeMs != 0
    ensures speed * (spec.exposureTimeMs as real / 1000.0) == GroundSamplingDistance(camera, spec.height)
    ensures camera.Valid() && spec.Valid() ==> speed > 0.0
  {
    SpeedDuringPhotoCapture(camera, spec, DefaultAllowedMovementPx)
  }

  /** The speed is inversely proportional to the exposure time: halving the
      exposure doubles it. */
  lemma HalvingExposureDoublesSpeed(camera: Camera, spec: DatasetSpec, allowedMovementPx: real)
    requires Min(camera.fx, camera.fy) != 0.0 && spec.exposureTimeMs != 0
    requires spec.exposureTimeMs % 2 == 0
    ensures SpeedDuringPhotoCapture(camera, spec.(exposureTimeMs := spec.exposureTimeMs / 2), allowedMovementPx)
         == 2.0 * SpeedDuringPhotoCapture(camera, spec, allowedMovementPx)
  {
    var half := spec.(exposureTimeMs := spec.exposureTimeMs / 2);
    var e := spec.exposureTimeMs as real / 1000.0;
    assert half.exposureTimeMs as real / 1000.0 == e / 2.0;
    var budget := GroundSamplingDistance(camera, spec.height) * allowedMovementPx;
    var fast := SpeedDuringPhotoCapture(camera, half, allowedMovementPx);
    var slow := SpeedDuringPhotoCapture(camera, spec, allowedMovementPx);
    assert fast * (e / 2.0) == budget;
    assert slow * e == budget;
    assert fast * e == 2.0 * slow * e;
  }

  /** The speed is proportional to the blur budget. */
  lemma SpeedIsLinearInBlurBudget(camera: Camera, spec: DatasetSpec, allowedMovementPx: real, k: real)
    requires Min(camera.fx, camera.fy) != 0.0 && spec.exposureTimeMs != 0
    ensures SpeedDuringPhotoCapture(camera, spec, k * allowedMovementPx)
         == k * SpeedDuringPhotoCapture(camera, spec, allowedMovementPx)
  {
  }

  // ---------------------------------------------------------------------------
  // Grid line counts and spacing
  // ---------------------------------------------------------------------------

  /** The least integer not below `q`. */
  function Ceil(q: real): (c: int)
    ensures q <= c as real < q + 1.0
  {
    -((-q).Floor)
  }

  /** The line count the grid generator first assigns and then overwrites
      before it is ever read. */
  function DiscardedLineCount(scanDim: int, ideal: real): int
    requires scanDim != 0 ==> ideal != 0.0
  {
    if scanDim == 0 then 1 else Ceil(scanDim as real / ideal) + 1
  }

  /** The number of intervals between grid lines on one axis: none for a zero
      scan dimension, otherwise the fewest intervals no longer than the ideal
      spacing that cover the dimension. */
  function NumIntervals(scanDim: int, ideal: real): (n: int)
    requires scanDim != 0 ==> ideal != 0.0
    ensures scanDim == 0 ==> n == 0
    ensures scanDim > 0 && ideal > 0.0 ==>
              && n >= 1
              && scanDim as real <= n as real * ideal
              && (n - 1) as real * ideal < scanDim as real
  {
    if scanDim == 0 then 0
    else
      CeilCovers(scanDim as real, ideal);
      Ceil(scanDim as real / ideal)
  }

  /** `Ceil(length / step)` steps of size `step` reach `length`, and one step
      fewer falls short. */
  lemma CeilCovers(length: real, step: real)
    requires step != 0.0
    ensures length > 0.0 && step > 0.0 ==>
              && Ceil(length / step) >= 1
              && length <= Ceil(length / step) as real * step
              && (Ceil(length / step) - 1) as real * step < length
  {
    if length > 0.0 && step > 0.0 {
      var q := length / step;
      var c := Ceil(q);
      assert q * step == length;
      MulMonotone(step, q, c as real);
      MulStrictMonotone(step, (c - 1) as real, q);
      assert (c - 1) as real * step < q * step;
      assert (c - 1) as real * step < length;
    }
  }

  /** The overwritten first derivation of the line count agrees with the
      final one. */
  lemma DiscardedLineCountAgrees(scanDim: int, ideal: real)
    requires scanDim != 0 ==> ideal != 0.0
    ensures DiscardedLineCount(scanDim, ideal) == NumIntervals(scanDim, ideal) + 1
  {
  }

  /** The spacing actually flown on one axis: the scan dimension shared out
      over the intervals between `numLines` lines, so the last line lands on
      the far edge; zero when there is a single line. */
  function ActualDistance(scanDim: int, numLines: int): (d: real)
    ensures numLines > 1 ==> (numLines - 1) as real * d == scanDim as real
    ensures numLines <= 1 ==> d == 0.0
  {
    if numLines > 1 then scanDim as real / (numLines - 1) as real else 0.0
  }

  /** Rounding the interval count up only densifies the grid: the actual
      spacing never exceeds the ideal one, and it is no denser than needed,
      since with one line fewer the spacing would exceed the ideal. */
  lemma ActualDistanceNeverExceedsIdeal(scanDim: int, ideal: real)
    requires scanDim >= 0 && ideal > 0.0
    ensures var numLines := NumIntervals(scanDim, ideal) + 1;
            && 0.0 <= ActualDistance(scanDim, numLines) <= ideal
            && (scanDim > 0 ==> ActualDistance(scanDim, numLines) > 0.0)
            && (numLines > 2 ==> ActualDistance(scanDim, numLines - 1) > ideal)
  {
    var n := NumIntervals(scanDim, ideal);
    if scanDim > 0 {
      assert (n + 1 - 1) as real == n as real;
      QuotientBounds(scanDim as real, n as real, ideal);
      if n > 1 {
        assert (n - 1) as real > 0.0;
        QuotientBounds(scanDim as real, (n - 1) as real, ideal);
      }
    }
  }

  /** A worked example: a 100 m scan with 30 m ideal spacing is flown as
      five lines 25 m apart. */
  lemma HundredMetreScanExample()
    ensures NumIntervals(100, 30.0) + 1 == 5
    ensures ActualDistance(100, 5) == 25.0
  {
  }

  // ---------------------------------------------------------------------------
  // The waypoint grid
  // ---------------------------------------------------------------------------

  /** The derived layout of a grid plan: line counts, actual spacing, scan
      rectangle, and the height and speed shared by every waypoint. */
  datatype Grid = Grid(
    numRows: nat,
    numCols: nat,
    dx: real,
    dy: real,
    scanX: int,
    scanY: int,
    height: real,
    speed: real)

  /** The number of iterations of a loop over `range(n)`. */
  function RangeLength(n: int): nat {
    if n < 0 then 0 else n
  }

  /** Every division the plan performs has a non-zero divisor: the footprint,
      the exposure, and the ideal spacing on each axis with a non-zero scan
      dimension. */
  predicate HasPlan(camera: Camera, spec: DatasetSpec) {
    && HasFootprint(camera)
    && spec.exposureTimeMs != 0
    && (spec.scanDimensionX != 0 ==> DistanceBetweenImages(camera, spec).0 != 0.0)
    && (spec.scanDimensionY != 0 ==> DistanceBetweenImages(camera, spec).1 != 0.0)
  }

  lemma ValidInputsHavePlan(camera: Camera, spec: DatasetSpec)
    requires camera.Valid() && spec.Valid()
    ensures HasPlan(camera, spec)
  {
    SpacingWithinFootprint(camera, spec);
  }

  function PlanGrid(camera: Camera, spec: DatasetSpec): Grid
    requires HasPlan(camera, spec)
  {
    var ideal := DistanceBetweenImages(camera, spec);
    var numCols := NumIntervals(spec.scanDimensionX, ideal.0) + 1;
    var numRows := NumIntervals(spec.scanDimensionY, ideal.1) + 1;
    Grid(RangeLength(numRows), RangeLength(numCols),
         ActualDistance(spec.scanDimensionX, numCols),
         ActualDistance(spec.scanDimensionY, numRows),
         spec.scanDimensionX, spec.scanDimensionY,
         spec.height, CaptureSpeed(camera, spec))
  }

  /** The x-coordinate of the `c`-th waypoint of row `r`: even rows run left
      to right from 0, odd rows right to left from the far edge. */
  function ColumnX(g: Grid, r: nat, c: nat): real {
    if r % 2 == 0 then c as real * g.dx else g.scanX as real - c as real * g.dx
  }

  function GridWaypoint(g: Grid, r: nat, c: nat): Waypoint {
    Waypoint(ColumnX(g, r, c), r as real * g.dy, g.height, g.speed)
  }

  /** The waypoints of row `r`, in flight order. */
  function Row(g: Grid, r: nat): seq<Waypoint> {
    seq(g.numCols, c requires 0 <= c < g.numCols => GridWaypoint(g, r, c))
  }

  /** Rows 0 to `k - 1`, one after the other. */
  function Rows(g: Grid, k: nat): (plan: seq<Waypoint>)
    ensures |plan| == k * g.numCols
  {
    if k == 0 then [] else Rows(g, k - 1) + Row(g, k - 1)
  }

  /** The photo plan: every row of the grid, in flight order, one waypoint
      per grid node. */
  function PhotoPlan(camera: Camera, spec: DatasetSpec): (plan: seq<Waypoint>)
    requires HasPlan(camera, spec)
    ensures |plan| == PlanGrid(camera, spec).numRows * PlanGrid(camera, spec).numCols
  {
    var g := PlanGrid(camera, spec);
    Rows(g, g.numRows)
  }

  /** A grid whose last column and last row lie exactly on the far edges of
      the scan rectangle, with non-negative spacing. */
  predicate LandsOnBoundary(g: Grid) {
    && g.numCols >= 1 && g.numRows >= 1
    && g.dx >= 0.0 && g.dy >= 0.0
    && (g.numCols - 1) as real * g.dx == g.scanX as real
    && (g.numRows - 1) as real * g.dy == g.scanY as real
  }

  /** On one axis: at least one line, non-negative spacing, and the last line
      exactly at the scan dimension. */
  lemma AxisLandsOnBoundary(scanDim: int, ideal: real)
    requires scanDim >= 0 && ideal > 0.0
    ensures var numLines := NumIntervals(scanDim, ideal) + 1;
            && RangeLength(numLines) == numLines >= 1
            && ActualDistance(scanDim, numLines) >= 0.0
            && (RangeLength(numLines) - 1) as real * ActualDistance(scanDim, numLines) == scanDim as real
  {
    ActualDistanceNeverExceedsIdeal(scanDim, ideal);
  }

  /** For valid inputs the grid lands exactly on the scan boundary and carries
      the flight height and a positive capture speed. */
  lemma ValidGridLandsOnBoundary(camera: Camera, spec: DatasetSpec)
    requires camera.Valid() && spec.Valid()
    ensures HasPlan(camera, spec)
    ensures var g := PlanGrid(camera, spec);
            && LandsOnBoundary(g)
            && g.height == spec.height
            && g.speed == CaptureSpeed(camera, spec) > 0.0
  {
    ValidInputsHavePlan(camera, spec);
    SpacingWithinFootprint(camera, spec);
    var ideal := DistanceBetweenImages(camera, spec);
    AxisLandsOnBoundary(spec.scanDimensionX, ideal.0);
    AxisLandsOnBoundary(spec.scanDimensionY, ideal.1);
    var g := PlanGrid(camera, spec);
    assert g.numCols == RangeLength(NumIntervals(spec.scanDimensionX, ideal.0) + 1);
    assert g.numRows == RangeLength(NumIntervals(spec.scanDimensionY, ideal.1) + 1);
  }

  /** Every grid point of a boundary-landing grid lies in the scan rectangle. */
  lemma GridPointInScanArea(g: Grid, r: nat, c: nat)
    requires LandsOnBoundary(g) && r < g.numRows && c < g.numCols
    ensures 0.0 <= ColumnX(g, r, c) <= g.scanX as real
    ensures 0.0 <= r as real * g.dy <= g.scanY as real
  {
    assert 0.0 <= (g.numCols - 1 - c) as real * g.dx;
    assert c as real * g.dx <= (g.numCols - 1) as real * g.dx;
    assert 0.0 <= (g.numRows - 1 - r) as real * g.dy;
    assert r as real * g.dy <= (g.numRows - 1) as real * g.dy;
  }

  /** Every waypoint of row `r` of a boundary-landing grid lies in the scan
      rectangle. */
  lemma RowStaysInScanArea(g: Grid, r: nat)
    requires LandsOnBoundary(g) && r < g.numRows
    ensures forall c :: 0 <= c < |Row(g, r)| ==>
              && 0.0 <= Row(g, r)[c].x <= g.scanX as real
              && 0.0 <= Row(g, r)[c].y <= g.scanY as real
  {
    forall c | 0 <= c < |Row(g, r)|
      ensures 0.0 <= Row(g, r)[c].x <= g.scanX as real
      ensures 0.0 <= Row(g, r)[c].y <= g.scanY as real
    {
      GridPointInScanArea(g, r, c);
    }
  }

  /** Every waypoint of the first `k` rows flies at the grid's height and
      speed. */
  lemma {:induction false} RowsAreUniform(g: Grid, k: nat)
    ensures forall i :: 0 <= i < |Rows(g, k)| ==>
              Rows(g, k)[i].z == g.height && Rows(g, k)[i].speed == g.speed
  {
    if k > 0 {
      RowsAreUniform(g, k - 1);
      var plan, prefix, row := Rows(g, k), Rows(g, k - 1), Row(g, k - 1);
      assert plan == prefix + row;
      forall i | 0 <= i < |plan|
        ensures plan[i].z == g.height && plan[i].speed == g.speed
      {
        if i >= |prefix| {
          assert plan[i] == row[i - |prefix|];
        } else {
          assert plan[i] == prefix[i];
        }
      }
    }
  }

  /** Every waypoint of the first `k` rows of a boundary-landing grid lies in
      the scan rectangle. */
  lemma {:induction false} RowsStayInScanArea(g: Grid, k: nat)
    requires LandsOnBoundary(g) && k <= g.numRows
    ensures forall i :: 0 <= i < |Rows(g, k)| ==>
              && 0.0 <= Rows(g, k)[i].x <= g.scanX as real
              && 0.0 <= Rows(g, k)[i].y <= g.scanY as real
  {
    if k > 0 {
      RowsStayInScanArea(g, k - 1);
      RowStaysInScanArea(g, k - 1);
      var plan, prefix, row := Rows(g, k), Rows(g, k - 1), Row(g, k - 1);
      assert plan == prefix + row;
      forall i | 0 <= i < |plan|
        ensures 0.0 <= plan[i].x <= g.scanX as real
        ensures 0.0 <= plan[i].y <= g.scanY as real
      {
        if i >= |prefix| {
          assert plan[i] == row[i - |prefix|];
        } else {
          assert plan[i] == prefix[i];
        }
      }
    }
  }

  /** The first `k` rows are a prefix of the first `m` rows. */
  lemma {:induction false} RowsPrefix(g: Grid, k: nat, m: nat)
    requires k <= m
    ensures |Rows(g, k)| <= |Rows(g, m)|
    ensures Rows(g, m)[..|Rows(g, k)|] == Rows(g, k)
  {
    if k < m {
      RowsPrefix(g, k, m - 1);
      var shorter := Rows(g, m - 1);
      assert Rows(g, m) == shorter + Row(g, m - 1);
      assert Rows(g, m)[..|shorter|] == shorter;
    }
  }

  /** Row `r` occupies positions `r * numCols` up to `(r + 1) * numCols` of
      the first `k` rows. */
  lemma RowSlice(g: Grid, r: nat, k: nat)
    requires r < k
    ensures r * g.numCols + g.numCols <= |Rows(g, k)|
    ensures Rows(g, k)[r * g.numCols .. r * g.numCols + g.numCols] == Row(g, r)
  {
    RowsPrefix(g, r + 1, k);
    assert Rows(g, r + 1) == Rows(g, r) + Row(g, r);
  }

  /** Even rows sweep left to right: from 0 to exactly the far edge, with
      non-decreasing x. */
  lemma EvenRowSweepsLeftToRight(g: Grid, r: nat)
    requires LandsOnBoundary(g) && r % 2 == 0
    ensures Row(g, r)[0].x == 0.0
    ensures Row(g, r)[g.numCols - 1].x == g.scanX as real
    ensures forall c :: 0 <= c < g.numCols - 1 ==> Row(g, r)[c].x <= Row(g, r)[c + 1].x
  {
    forall c | 0 <= c < g.numCols - 1
      ensures Row(g, r)[c].x <= Row(g, r)[c + 1].x
    {
      assert Row(g, r)[c + 1].x == Row(g, r)[c].x + g.dx;
    }
  }

  /** Consecutive rows are mirror images in x: the `c`-th waypoint of row
      `r + 1` has the x of the `c`-th last waypoint of row `r`. So odd rows
      visit the x-values of even rows in reverse order. */
  lemma ConsecutiveRowsMirror(g: Grid, r: nat)
    requires LandsOnBoundary(g)
    ensures var row, next := Row(g, r), Row(g, r + 1);
            forall c :: 0 <= c < g.numCols ==> next[c].x == row[g.numCols - 1 - c].x
  {
    var row, next := Row(g, r), Row(g, r + 1);
    forall c | 0 <= c < g.numCols
      ensures next[c].x == row[g.numCols - 1 - c].x
    {
      var m := g.numCols - 1 - c;
      assert c as real * g.dx + m as real * g.dx == g.scanX as real;
    }
  }

  /** Row `r` flies at `y = r * dy`: rows ascend in y from 0, and the last row
      lies exactly on the far edge. */
  lemma RowsAscendInY(g: Grid, r: nat, c: nat)
    requires LandsOnBoundary(g) && c < g.numCols
    ensures Row(g, r)[c].y == r as real * g.dy
    ensures Row(g, r)[c].y <= Row(g, r + 1)[c].y
    ensures Row(g, 0)[c].y == 0.0
    ensures Row(g, g.numRows - 1)[c].y == g.scanY as real
  {
  }

  // ---------------------------------------------------------------------------
  // Properties of the photo plan
  // ---------------------------------------------------------------------------

  /** For valid inputs the plan holds one waypoint per grid node: columns
      times rows, with one line more than intervals on each axis. */
  lemma PlanLength(camera: Camera, spec: DatasetSpec)
    requires camera.Valid() && spec.Valid()
    ensures HasPlan(camera, spec)
    ensures var ideal := DistanceBetweenImages(camera, spec);
            var numCols := NumIntervals(spec.scanDimensionX, ideal.0) + 1;
            var numRows := NumIntervals(spec.scanDimensionY, ideal.1) + 1;
            && numCols >= 1 && numRows >= 1
            && |PhotoPlan(camera, spec)| == numRows * numCols
  {
    ValidGridLandsOnBoundary(camera, spec);
  }

  /** Every waypoint of a plan flies at the specified height and at the
      capture speed for a one-pixel blur budget. */
  lemma PlanHasConstantHeightAndSpeed(camera: Camera, spec: DatasetSpec)
    requires HasPlan(camera, spec)
    ensures forall i :: 0 <= i < |PhotoPlan(camera, spec)| ==>
              && PhotoPlan(camera, spec)[i].z == spec.height
              && PhotoPlan(camera, spec)[i].speed == CaptureSpeed(camera, spec)
  {
    var g := PlanGrid(camera, spec);
    RowsAreUniform(g, g.numRows);
  }

  /** For valid inputs every waypoint lies in the scan rectangle and is a
      valid waypoint. */
  lemma PlanStaysInScanArea(camera: Camera, spec: DatasetSpec)
    requires camera.Valid() && spec.Valid()
    ensures HasPlan(camera, spec)
    ensures forall i :: 0 <= i < |PhotoPlan(camera, spec)| ==>
              && 0.0 <= PhotoPlan(camera, spec)[i].x <= spec.scanDimensionX as real
              && 0.0 <= PhotoPlan(camera, spec)[i].y <= spec.scanDimensionY as real
              && PhotoPlan(camera, spec)[i].Valid()
  {
    ValidGridLandsOnBoundary(camera, spec);
    var g := PlanGrid(camera, spec);
    RowsStayInScanArea(g, g.numRows);
    RowsAreUniform(g, g.numRows);
  }

  /** The lawn-mower property: the last waypoint of a row and the first
      waypoint of the next row have the same x, so the path never jumps back
      across the scan between rows. */
  lemma ConsecutiveRowsShareX(camera: Camera, spec: DatasetSpec, r: nat)
    requires camera.Valid() && spec.Valid()
    requires HasPlan(camera, spec)
    requires r + 1 < PlanGrid(camera, spec).numRows
    ensures var n := PlanGrid(camera, spec).numCols;
            && n >= 1
            && (r + 2) * n <= |PhotoPlan(camera, spec)|
            && PhotoPlan(camera, spec)[(r + 1) * n - 1].x == PhotoPlan(camera, spec)[(r + 1) * n].x
  {
    ValidGridLandsOnBoundary(camera, spec);
    var g := PlanGrid(camera, spec);
    var n := g.numCols;
    var plan := PhotoPlan(camera, spec);
    RowSlice(g, r, g.numRows);
    RowSlice(g, r + 1, g.numRows);
    assert (r + 1) * n == r * n + n;
    assert (r + 2) * n == (r + 1) * n + n;
    assert plan[(r + 1) * n - 1] == Row(g, r)[n - 1];
    assert plan[(r + 1) * n] == Row(g, r + 1)[0];
    ConsecutiveRowsMirror(g, r);
  }

  /** The waypoint at column `c` of row `r` sits at position
      `r * numCols + c` of the plan: the plan visits the grid row by row, each
      row in its own direction. */
  lemma PlanWaypointAt(camera: Camera, spec: DatasetSpec, r: nat, c: nat)
    requires HasPlan(camera, spec)
    requires r < PlanGrid(camera, spec).numRows && c < PlanGrid(camera, spec).numCols
    ensures var g := PlanGrid(camera, spec);
            && r * g.numCols + c < |PhotoPlan(camera, spec)|
            && PhotoPlan(camera, spec)[r * g.numCols + c] == GridWaypoint(g, r, c)
  {
    var g := PlanGrid(camera, spec);
    RowSlice(g, r, g.numRows);
  }

  /** A scan rectangle of zero size is photographed from a single waypoint
      at the origin. */
  lemma ZeroScanIsSingleWaypoint(camera: Camera, spec: DatasetSpec)
    requires camera.Valid() && spec.Valid()
    requires spec.scanDimensionX == 0 && spec.scanDimensionY == 0
    ensures HasPlan(camera, spec)
    ensures PhotoPlan(camera, spec) == [Waypoint(0.0, 0.0, spec.height, CaptureSpeed(camera, spec))]
  {
    var g := PlanGrid(camera, spec);
    assert g.numRows == 1 && g.numCols == 1;
    assert Rows(g, 1) == Row(g, 0);
  }

  /** The grid generator as the source writes it: line counts and actual
      spacing first, then one pass over the rows, each appending its
      waypoints in the row's direction. */
  method GeneratePhotoPlanOnGrid(camera: Camera, spec: DatasetSpec) returns (photoPlan: seq<Waypoint>)
    requires HasPlan(camera, spec)
    ensures photoPlan == PhotoPlan(camera, spec)
  {
    photoPlan := [];
    var scanDimX := spec.scanDimensionX;
    var scanDimY := spec.scanDimensionY;
    var height := spec.height;

    var ideal := DistanceBetweenImages(camera, spec);
    var captureSpeed := CaptureSpeed(camera, spec);

    var numIntervalsX := if scanDimX == 0 then 0 else Ceil(scanDimX as real / ideal.0);
    var numCols := numIntervalsX + 1;
    var numIntervalsY := if scanDimY == 0 then 0 else Ceil(scanDimY as real / ideal.1);
    var numRows := numIntervalsY + 1;

    var actualDistanceX := 0.0;
    if numCols > 1 {
      actualDistanceX := scanDimX as real / (numCols - 1) as real;
    }
    var actualDistanceY := 0.0;
    if numRows > 1 {
      actualDistanceY := scanDimY as real / (numRows - 1) as real;
    }

    assert PlanGrid(camera, spec) == Grid(RangeLength(numRows), RangeLength(numCols), actualDistanceX,
                                          actualDistanceY, scanDimX, scanDimY, height, captureSpeed);
    photoPlan := SweepRows(numRows, numCols, scanDimX, scanDimY, actualDistanceX, actualDistanceY, height, captureSpeed);
  }

  /** The waypoint loops of the grid generator: for each row, its x-values in
      the row's direction, each made into a waypoint at the row's y. */
  method SweepRows(numRows: int, numCols: int, scanDimX: int, scanDimY: int,
                   actualDistanceX: real, actualDistanceY: real, height: real, captureSpeed: real)
    returns (photoPlan: seq<Waypoint>)
    ensures var g := Grid(RangeLength(numRows), RangeLength(numCols), actualDistanceX, actualDistanceY,
                          scanDimX, scanDimY, height, captureSpeed);
            photoPlan == Rows(g, g.numRows)
  {
    ghost var g := Grid(RangeLength(numRows), RangeLength(numCols), actualDistanceX, actualDistanceY,
                        scanDimX, scanDimY, height, captureSpeed);
    photoPlan := [];
    var r := 0;
    while r < numRows
      invariant 0 <= r <= g.numRows
      invariant photoPlan == Rows(g, r)
    {
      var yCoord := r as real * actualDistanceY;
      var xCoords: seq<real>;
      if r % 2 == 0 {
        xCoords := seq(RangeLength(numCols), c => c as real * actualDistanceX);
      } else {
        xCoords := seq(RangeLength(numCols), c => scanDimX as real - c as real * actualDistanceX);
      }
      assert forall c :: 0 <= c < |xCoords| ==> Row(g, r)[c] == Waypoint(xCoords[c], yCoord, height, captureSpeed);
      var i := 0;
      while i < |xCoords|
        invariant 0 <= i <= |xCoords| == g.numCols
        invariant photoPlan == Rows(g, r) + Row(g, r)[..i]
      {
        assert Row(g, r)[..i + 1] == Row(g, r)[..i] + [Row(g, r)[i]];
        photoPlan := photoPlan + [Waypoint(xCoords[i], yCoord, height, captureSpeed)];
        i := i + 1;
      }
      assert Row(g, r)[..i] == Row(g, r);
      r := r + 1;
    }
  }
}
