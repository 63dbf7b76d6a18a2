# Nadir photo planner — a Dafny model

This project models the planning core of a drone survey tool. The tool flies a
camera pointing straight down over a rectangle. Its core computes three things:

- the pinhole geometry of the camera: focal length in millimetres, forward
  projection, the ground footprint of one image and the ground sampling
  distance (GSD);
- the spacing between images that meets the requested overlap and sidelap, and
  the largest speed that keeps motion blur within a pixel budget;
- a lawn-mower (boustrophedon) grid of waypoints that covers the rectangle.

The model has four modules:

- `DataModel` (`data_model.dfy`): the camera (src/data_model.py:23-30), the
  dataset specification (src/data_model.py:46-51, its field documentation at
  src/data_model.py:38-43) and the waypoint (src/data_model.py:70-73), each a
  datatype with a `Valid()` predicate.
- `CameraUtils` (`camera_utils.dfy`): the camera geometry.
- `PlanComputation` (`plan_computation.dfy`): spacing, speed and the grid.
- `RealArith` (`real_arith.dfy`): a few monotonicity and cancellation facts
  about real multiplication and division that the proofs share.

Floating-point values are modelled as `real`, so every identity holds exactly.
The fields the source types as integers (pixel counts, scan dimensions,
exposure in milliseconds) are `int`.

Each operation requires only what the source itself needs in order not to
fail: the divisors it divides by must be non-zero. The `Valid()` predicates
describe sensible inputs (positive focal lengths, ratios in [0, 1), and so
on), and the lemmas state what holds under them.

The grid generator is modelled twice:

- as the pure reference `PlanComputation.PhotoPlan`, built from `Row` and
  `Rows` over the layout `PlanComputation.PlanGrid` (line counts, actual
  spacing, height and capture speed of src/plan_computation.py:68-91);
- as the method `PlanComputation.GeneratePhotoPlanOnGrid`, which follows the
  source's loops. Its loop invariants prove that it returns exactly
  `PhotoPlan`.

The properties of the plan are proved about the reference.

## Model

| member | source | states |
|---|---|---|
| CameraUtils.FocalLengthInMm | src/camera_utils.py:18-21 | The focal length in millimetres, times the pixel count, equals the focal length in pixels times the sensor size. It is positive for a valid camera, and non-zero whenever the focal length and sensor size are. |
| CameraUtils.ProjectWorldPointToImage | src/camera_utils.py:33-48 | The pixel's offset from the principal point, times the depth Z, equals the focal length times X (and Y): the pinhole ray through (u, v) meets the point. Only Z = 0 is excluded, the one input the source divides by. |
| CameraUtils.ProjectionIsUnique | src/camera_utils.py:42-45 | The projection is the only pixel that satisfies the pinhole ray equations for the point. |
| CameraUtils.OnAxisPointProjectsToPrincipalPoint | src/camera_utils.py:42-45 | A point on the optical axis (X = Y = 0) projects to the principal point (cx, cy). |
| CameraUtils.ProjectionIsScaleInvariant | src/camera_utils.py:42-45 | Scaling a point by any non-zero factor leaves its image unchanged. Projection depends only on the ray. |
| CameraUtils.ProjectAfterBackProject | src/camera_utils.py:42-45 | Back-projecting a pixel to a depth and then projecting gives the pixel back. |
| CameraUtils.BackProjectAfterProject | src/camera_utils.py:42-45 | Projecting a point and back-projecting the pixel at the point's depth gives the point back. |
| CameraUtils.ImageFootprintOnSurface | src/camera_utils.py:63-77 | The similar-triangle computation in millimetres, converted to metres, is exactly the distance times the pixel count over the focal length in pixels, on each axis. |
| CameraUtils.FootprintBySimilarTriangles | src/camera_utils.py:65-74 | Footprint side times focal length in millimetres equals sensor side times distance: the ratio the source's comment states. |
| CameraUtils.FootprintIsPositive | src/camera_utils.py:63-77 | For a valid camera above the ground, both footprint sides are positive. |
| CameraUtils.FootprintIsLinear | src/camera_utils.py:63-77 | Scaling the distance by k scales both footprint sides by k. |
| CameraUtils.FootprintIsIncreasing | src/camera_utils.py:63-77 | For a valid camera, flying strictly higher gives a strictly larger footprint on both axes. |
| CameraUtils.FootprintIgnoresSensorSize | src/camera_utils.py:69-77 | Two cameras that differ only in sensor size have the same footprint: the sensor size cancels against the millimetre focal length. |
| CameraUtils.GroundSamplingDistance | src/camera_utils.py:90-91 | The GSD times the smaller focal length is the distance. For positive focal lengths and a non-negative distance it equals the larger (coarser) of the two per-axis values. |
| CameraUtils.GsdIsLinear | src/camera_utils.py:90-91 | The GSD scales linearly with the distance. |
| PlanComputation.DistanceBetweenImages | src/plan_computation.py:21-30 | Footprint minus spacing is exactly the overlap fraction of the footprint along a row, and the sidelap fraction across rows. |
| PlanComputation.SpacingWithinFootprint | src/plan_computation.py:21-30 | For valid inputs the spacing is positive and at most the footprint on both axes, so neighbouring images overlap and leave no gap. |
| PlanComputation.SpeedDuringPhotoCapture | src/plan_computation.py:44-52 | Speed times exposure (in seconds) equals the blur budget in metres (GSD times allowed pixels). The speed is positive for valid inputs and a positive budget. |
| PlanComputation.HalvingExposureDoublesSpeed | src/plan_computation.py:44-52 | For an even exposure in milliseconds, halving the exposure time doubles the allowed speed. |
| PlanComputation.SpeedIsLinearInBlurBudget | src/plan_computation.py:33-52 | The speed is proportional to the allowed pixel movement. |
| PlanComputation.CaptureSpeed | src/plan_computation.py:71 | The speed the grid generator uses, with the default budget of one pixel (src/plan_computation.py:33): speed times exposure (in seconds) is exactly one GSD. It is positive for valid inputs. |
| PlanComputation.Ceil | src/plan_computation.py:79-83 | `math.ceil`: the least integer not below its argument. |
| PlanComputation.NumIntervals | src/plan_computation.py:79-83 | A zero scan dimension gives no intervals. For a positive scan and a positive ideal spacing, the count is the fewest intervals of at most the ideal spacing that cover the dimension: n intervals reach it and n - 1 fall short. |
| PlanComputation.DiscardedLineCountAgrees | src/plan_computation.py:75-83 | The first, overwritten line count agrees with the final one (intervals plus one). |
| PlanComputation.ActualDistance | src/plan_computation.py:85-91 | With more than one line, the lines are spaced so that the last one lies exactly on the scan dimension. With one line or fewer the spacing is zero. |
| PlanComputation.ActualDistanceNeverExceedsIdeal | src/plan_computation.py:79-91 | The spacing flown is never larger than the ideal one, and positive for a positive scan. With one line fewer it would exceed the ideal one, so the grid is no denser than needed. |
| PlanComputation.HundredMetreScanExample | src/plan_computation.py:78-91 | A 100 m scan with a 30 m ideal spacing is flown as 5 lines, 25 m apart. |
| PlanComputation.ValidGridLandsOnBoundary | src/plan_computation.py:68-91 | For valid inputs the plan is defined. The grid has at least one line per axis and non-negative spacing, and its last column and row lie exactly on the far edges. Height and capture speed come from the specification. |
| PlanComputation.PhotoPlan | src/plan_computation.py:54-111 | The reference plan holds one waypoint per grid node: rows times columns of the layout. |
| PlanComputation.PlanWaypointAt | src/plan_computation.py:94-109 | The waypoint at position `r * numCols + c` of the plan is the grid node of row r, column c: y = r times the row spacing, x in the row's direction, the plan's height and speed. |
| PlanComputation.GeneratePhotoPlanOnGrid | src/plan_computation.py:54-111 | The source's generator: same counts, spacing and loops. It returns exactly the reference plan `PhotoPlan`. |
| PlanComputation.SweepRows | src/plan_computation.py:94-109 | The nested row and column loops return the concatenation of every row, in order. |
| PlanComputation.PlanLength | src/plan_computation.py:79-83 | For valid inputs the plan has rows times columns waypoints, with one more line than intervals on each axis. |
| PlanComputation.PlanHasConstantHeightAndSpeed | src/plan_computation.py:106-109 | Every waypoint flies at the specified height and at the one-pixel capture speed. |
| PlanComputation.PlanStaysInScanArea | src/plan_computation.py:94-109 | For valid inputs every waypoint lies inside the scan rectangle and is a valid waypoint (positive height and speed). |
| PlanComputation.EvenRowSweepsLeftToRight | src/plan_computation.py:98-100 | An even row starts at x = 0, ends exactly at the far edge and never moves back in x. |
| PlanComputation.ConsecutiveRowsMirror | src/plan_computation.py:98-103 | The c-th waypoint of row r + 1 has the x of the c-th last waypoint of row r, so rows alternate direction. |
| PlanComputation.ConsecutiveRowsShareX | src/plan_computation.py:94-109 | The lawn-mower turn: the last waypoint of a row and the first of the next row have the same x. |
| PlanComputation.RowsAscendInY | src/plan_computation.py:94-95 | Row r flies at y = r times the row spacing. Rows ascend from y = 0, and the last row lies on the far edge. |
| PlanComputation.ZeroScanIsSingleWaypoint | src/plan_computation.py:74-83 | A scan rectangle of size zero is photographed from the single waypoint at the origin, at the specified height and speed. |

## Left out

- Floating point: every value is an exact `real`. Rounding in the unit
  conversions (which cancel exactly here), in `math.ceil` of an inexact
  quotient, and in the repeated `c * actual_distance` is not modelled.
- Python's `ZeroDivisionError` and numpy's `inf`/`nan` on a zero divisor are
  not modelled. Each operation instead requires its divisors to be non-zero:
  Z for the projection, pixel counts and focal lengths for the footprint, the
  smaller focal length for the GSD, and the exposure and the ideal spacing
  for the plan.
- The source enforces none of the `Valid()` predicates. They state what the
  field documentation describes, and the properties that need them take them
  as preconditions.
- `Waypoint.Valid` (positive height and speed) is the model's own predicate.
- Negative scan dimensions are accepted, as in the source. A non-positive
  line count gives an empty `range`, which `RangeLength` models.
- numpy arrays are modelled as pairs and triples of reals.
- The `__str__` method of the dataset specification (src/data_model.py:52-53)
  is text formatting only.
- The plotting module (`src/visualization.py`) is I/O and is not part of this
  model.
- The GSD docstring (src/camera_utils.py:87) calls the result the "smaller"
  GSD of the two axes. The code divides by the smaller focal
  length, which gives the larger (coarser) value. The model follows the code
  and proves that it is the maximum.
