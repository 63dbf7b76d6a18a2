/** Value types of the nadir photo planner: the pinhole camera, the user's
    dataset specification and the waypoints of a photo plan.

    Quantities the planner keeps as floating point are `real` here, so every
    identity below holds exactly; the pixel counts, the scan dimensions and the
    exposure time, which the planner types as integers, are `int`. */
module DataModel {

  /** A pinhole camera: focal lengths and principal point in pixels, sensor
      size in millimetres, image size in pixels. */
  datatype Camera = Camera(
    fx: real,
    fy: real,
    cx: real,
    cy: real,
    sensorSizeXMm: real,
    sensorSizeYMm: real,
    imageSizeX: int,
    imageSizeY: int)
  {
    /** A calibration the geometry can work with: every focal length, sensor
        size and pixel count it divides by is strictly positive. The principal
        point is unconstrained. */
    predicate Valid() {
      && fx > 0.0 && fy > 0.0
      && sensorSizeXMm > 0.0 && sensorSizeYMm > 0.0
      && imageSizeX > 0 && imageSizeY > 0
    }
  }

  /** What the user asks of a dataset: overlap between consecutive images of
      a row and sidelap between adjacent rows (ratios), flight height above
      the ground (metres), size of the rectangle to scan (whole metres) and
      exposure time of one image (whole milliseconds). */
  datatype DatasetSpec = DatasetSpec(
    overlap: real,
    sidelap: real,
    height: real,
    scanDimensionX: int,
    scanDimensionY: int,
    exposureTimeMs: int)
  {
    /** The ratios lie in [0, 1), so neighbouring images are spaced a positive
        distance apart; the height and the exposure are positive and the scan
        rectangle has non-negative sides. */
    predicate Valid() {
      && 0.0 <= overlap < 1.0
      && 0.0 <= sidelap < 1.0
      && height > 0.0
      && scanDimensionX >= 0 && scanDimensionY >= 0
      && exposureTimeMs > 0
    }
  }

  /** A capture position in the world frame (metres) and the largest speed
      (metres per second) at which the drone may move while capturing there. */
  datatype Waypoint = Waypoint(x: real, y: real, z: real, speed: real)
  {
    /** A capture above the ground with a positive speed budget. */
    predicate Valid() {
      z > 0.0 && speed > 0.0
    }
  }
}
