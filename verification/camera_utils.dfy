/** Pinhole-camera geometry: focal length in millimetres, forward projection,
    ground footprint of one image and ground sampling distance. */
module CameraUtils {
  import opened DataModel
  import opened RealArith

  /** A world point (X, Y, Z) in the camera frame. */
  type Point3 = (real, real, real)

  /** Image coordinates (u, v) in pixels. */
  type Pixel = (real, real)

  function Min(a: real, b: real): real {
    if a <= b then a else b
  }

  function Max(a: real, b: real): real {
    if a <= b then b else a
  }

  /** Every denominator of the footprint computation is non-zero: the pixel
      counts, and the focal length in millimetres on each axis. */
  predicate HasFootprint(camera: Camera) {
    && camera.imageSizeX != 0 && camera.imageSizeY != 0
    && camera.fx != 0.0 && camera.fy != 0.0
    && camera.sensorSizeXMm != 0.0 && camera.sensorSizeYMm != 0.0
  }

  /** The focal length rescaled from pixels to millimetres by the pixel pitch
      (sensor size over pixel count) of each axis: it is the one length that,
      spread over the image's pixels, equals focal pixels times sensor size. */
  function FocalLengthInMm(camera: Camera): (f: (real, real))
    requires camera.imageSizeX != 0 && camera.imageSizeY != 0
    ensures f.0 * camera.imageSizeX as real == camera.fx * camera.sensorSizeXMm
    ensures f.1 * camera.imageSizeY as real == camera.fy * camera.sensorSizeYMm
    ensures camera.Valid() ==> f.0 > 0.0 && f.1 > 0.0
    ensures camera.fx != 0.0 && camera.sensorSizeXMm != 0.0 ==> f.0 != 0.0
    ensures camera.fy != 0.0 && camera.sensorSizeYMm != 0.0 ==> f.1 != 0.0
  {
    var pixelToMmX := camera.sensorSizeXMm / camera.imageSizeX as real;
    var pixelToMmY := camera.sensorSizeYMm / camera.imageSizeY as real;
    (camera.fx * pixelToMmX, camera.fy * pixelToMmY)
  }

  /** Pinhole projection. The result is the one pixel whose offset from the
      principal point, scaled by the depth, is the focal length times the
      lateral coordinate: the ray through (u, v) meets the point. */
  function ProjectWorldPointToImage(camera: Camera, point: Point3): (uv: Pixel)
    requires point.2 != 0.0
    ensures (uv.0 - camera.cx) * point.2 == camera.fx * point.0
    ensures (uv.1 - camera.cy) * point.2 == camera.fy * point.1
  {
    var x := camera.fx * (point.0 / point.2);
    var y := camera.fy * (point.1 / point.2);
    (x + camera.cx, y + camera.cy)
  }

  /** The inverse of the projection for a known depth: the point at depth
      `depth` that lies on the ray through pixel `uv`. */
  function BackProject(camera: Camera, uv: Pixel, depth: real): Point3
    requires camera.fx != 0.0 && camera.fy != 0.0
  {
    ((uv.0 - camera.cx) * depth / camera.fx, (uv.1 - camera.cy) * depth / camera.fy, depth)
  }

  /** A point on the optical axis lands on the principal point. */
  lemma OnAxisPointProjectsToPrincipalPoint(camera: Camera, depth: real)
    requires depth != 0.0
    ensures ProjectWorldPointToImage(camera, (0.0, 0.0, depth)) == (camera.cx, camera.cy)
  {
  }

  /** Every point on a ray through the camera centre projects to the same
      pixel: scaling a point by any non-zero factor leaves its image fixed. */
  lemma ProjectionIsScaleInvariant(camera: Camera, point: Point3, k: real)
    requires point.2 != 0.0 && k != 0.0
    ensures ProjectWorldPointToImage(camera, (k * point.0, k * point.1, k * point.2))
         == ProjectWorldPointToImage(camera, point)
  {
    var a := ProjectWorldPointToImage(camera, (k * point.0, k * point.1, k * point.2));
    CancelFactor(k, (a.0 - camera.cx) * point.2, camera.fx * point.0);
    CancelFactor(k, (a.1 - camera.cy) * point.2, camera.fy * point.1);
    ProjectionIsUnique(camera, point, a);
  }

  /** The two ray equations determine the projected pixel. */
  lemma ProjectionIsUnique(camera: Camera, point: Point3, uv: Pixel)
    requires point.2 != 0.0
    requires (uv.0 - camera.cx) * point.2 == camera.fx * point.0
    requires (uv.1 - camera.cy) * point.2 == camera.fy * point.1
    ensures uv == ProjectWorldPointToImage(camera, point)
  {
    var b := ProjectWorldPointToImage(camera, point);
    CancelFactor(point.2, uv.0 - camera.cx, b.0 - camera.cx);
    CancelFactor(point.2, uv.1 - camera.cy, b.1 - camera.cy);
  }

  /** Projecting the back-projection of a pixel gives the pixel back. */
  lemma ProjectAfterBackProject(camera: Camera, uv: Pixel, depth: real)
    requires camera.fx != 0.0 && camera.fy != 0.0 && depth != 0.0
    ensures ProjectWorldPointToImage(camera, BackProject(camera, uv, depth)) == uv
  {
    var p := BackProject(camera, uv, depth);
    var r := ProjectWorldPointToImage(camera, p);
    assert (r.0 - camera.cx) * depth == (uv.0 - camera.cx) * depth;
    assert (r.1 - camera.cy) * depth == (uv.1 - camera.cy) * depth;
  }

  /** Back-projecting the image of a point at the point's own depth gives the
      point back. */
  lemma BackProjectAfterProject(camera: Camera, point: Point3)
    requires camera.fx != 0.0 && camera.fy != 0.0 && point.2 != 0.0
    ensures BackProject(camera, ProjectWorldPointToImage(camera, point), point.2) == point
  {
    var uv := ProjectWorldPointToImage(camera, point);
    var p := BackProject(camera, uv, point.2);
    assert p.0 * camera.fx == point.0 * camera.fx;
    assert p.1 * camera.fy == point.1 * camera.fy;
  }

  /** The ground footprint of one image at `distance` metres, by similar
      triangles between sensor and ground, computed in millimetres and
      converted back to metres. The unit conversions cancel and the sensor
      size drops out: a side is the distance times the pixel count over the
      focal length in pixels. */
  function ImageFootprintOnSurface(camera: Camera, distance: real): (footprint: (real, real))
    requires HasFootprint(camera)
    ensures footprint.0 == distance * camera.imageSizeX as real / camera.fx
    ensures footprint.1 == distance * camera.imageSizeY as real / camera.fy
  {
    var focal := FocalLengthInMm(camera);
    SimilarTriangleSide(camera.sensorSizeXMm, camera.fx, camera.imageSizeX as real, distance, focal.0);
    SimilarTriangleSide(camera.sensorSizeYMm, camera.fy, camera.imageSizeY as real, distance, focal.1);
    (FootprintSide(camera.sensorSizeXMm, focal.0, distance), FootprintSide(camera.sensorSizeYMm, focal.1, distance))
  }

  /** One side of the footprint as the planner computes it: the distance in
      millimetres times the sensor side over the focal length in millimetres,
      converted back to metres. */
  function FootprintSide(sensorMm: real, focalMm: real, distance: real): real
    requires focalMm != 0.0
  {
    var distanceMm := distance * 1000.0;
    var sideMm := (sensorMm * distanceMm) / focalMm;
    sideMm / 1000.0
  }

  /** Over positive ground the footprint is positive on both axes. */
  lemma FootprintIsPositive(camera: Camera, distance: real)
    requires camera.Valid() && distance > 0.0
    ensures HasFootprint(camera)
    ensures ImageFootprintOnSurface(camera, distance).0 > 0.0
    ensures ImageFootprintOnSurface(camera, distance).1 > 0.0
  {
    var footprint := ImageFootprintOnSurface(camera, distance);
    QuotientBounds(distance * camera.imageSizeX as real, camera.fx, 0.0);
    QuotientBounds(distance * camera.imageSizeY as real, camera.fy, 0.0);
  }

  /** The similar-triangles relation the footprint is computed from: ground
      side over distance equals sensor side over focal length (millimetres). */
  lemma FootprintBySimilarTriangles(camera: Camera, distance: real)
    requires HasFootprint(camera)
    ensures ImageFootprintOnSurface(camera, distance).0 * FocalLengthInMm(camera).0 == camera.sensorSizeXMm * distance
    ensures ImageFootprintOnSurface(camera, distance).1 * FocalLengthInMm(camera).1 == camera.sensorSizeYMm * distance
  {
    var focal := FocalLengthInMm(camera);
    SimilarTriangleSide(camera.sensorSizeXMm, camera.fx, camera.imageSizeX as real, distance, focal.0);
    SimilarTriangleSide(camera.sensorSizeYMm, camera.fy, camera.imageSizeY as real, distance, focal.1);
  }

  /** One side of the footprint: with focal length `focalMm` equal to
      `focalPx * sensorMm / pixels`, the side computed in millimetres and
      converted to metres is `distance * pixels / focalPx`. */
  lemma SimilarTriangleSide(sensorMm: real, focalPx: real, pixels: real, distance: real, focalMm: real)
    requires sensorMm != 0.0 && focalPx != 0.0 && pixels != 0.0 && focalMm != 0.0
    requires focalMm * pixels == focalPx * sensorMm
    ensures FootprintSide(sensorMm, focalMm, distance) == distance * pixels / focalPx
    ensures FootprintSide(sensorMm, focalMm, distance) * focalMm == sensorMm * distance
  {
    var side := FootprintSide(sensorMm, focalMm, distance);
    assert side * focalMm == sensorMm * distance;
    assert side * focalMm * pixels == sensorMm * distance * pixels;
    assert side * focalPx * sensorMm == sensorMm * distance * pixels;
    CancelFactor(sensorMm, side * focalPx, distance * pixels);
  }

  /** The footprint is linear in the distance. */
  lemma FootprintIsLinear(camera: Camera, distance: real, k: real)
    requires HasFootprint(camera)
    ensures ImageFootprintOnSurface(camera, k * distance).0 == k * ImageFootprintOnSurface(camera, distance).0
    ensures ImageFootprintOnSurface(camera, k * distance).1 == k * ImageFootprintOnSurface(camera, distance).1
  {
    var focal := FocalLengthInMm(camera);
    FootprintSideIsLinear(camera.sensorSizeXMm, focal.0, distance, k);
    FootprintSideIsLinear(camera.sensorSizeYMm, focal.1, distance, k);
  }

  /** One footprint side scales with the distance. */
  lemma FootprintSideIsLinear(sensorMm: real, focalMm: real, distance: real, k: real)
    requires focalMm != 0.0
    ensures FootprintSide(sensorMm, focalMm, k * distance) == k * FootprintSide(sensorMm, focalMm, distance)
  {
  }

  /** Flying higher shows strictly more ground on both axes. */
  lemma FootprintIsIncreasing(camera: Camera, near: real, far: real)
    requires camera.Valid() && near < far
    ensures ImageFootprintOnSurface(camera, near).0 < ImageFootprintOnSurface(camera, far).0
    ensures ImageFootprintOnSurface(camera, near).1 < ImageFootprintOnSurface(camera, far).1
  {
    var n := camera.imageSizeX as real;
    var m := camera.imageSizeY as real;
    assert near * n < far * n;
    assert near * m < far * m;
  }

  /** Two cameras that differ only in sensor size see the same footprint. */
  lemma FootprintIgnoresSensorSize(camera: Camera, sensorX: real, sensorY: real, distance: real)
    requires HasFootprint(camera) && sensorX != 0.0 && sensorY != 0.0
    ensures ImageFootprintOnSurface(camera.(sensorSizeXMm := sensorX, sensorSizeYMm := sensorY), distance)
         == ImageFootprintOnSurface(camera, distance)
  {
    var other := camera.(sensorSizeXMm := sensorX, sensorSizeYMm := sensorY);
    var a := ImageFootprintOnSurface(other, distance);
    var b := ImageFootprintOnSurface(camera, distance);
    assert a.0 == b.0 && a.1 == b.1;
  }

  /** Ground sampling distance: metres of ground per pixel, taken with the
      smaller focal length, so the result is the coarser of the two per-axis
      values. */
  function GroundSamplingDistance(camera: Camera, distance: real): (gsd: real)
    requires Min(camera.fx, camera.fy) != 0.0
    ensures gsd * Min(camera.fx, camera.fy) == distance
    ensures camera.fx > 0.0 && camera.fy > 0.0 && distance >= 0.0 ==>
              gsd == Max(distance / camera.fx, distance / camera.fy)
  {
    var smallestGsd := distance / Min(camera.fx, camera.fy);
    CoarserAxisGsd(camera.fx, camera.fy, distance);
    smallestGsd
  }

  /** Dividing a non-negative distance by the smaller of two positive focal
      lengths gives the larger of the two quotients. */
  lemma CoarserAxisGsd(fx: real, fy: real, distance: real)
    requires Min(fx, fy) != 0.0
    ensures fx > 0.0 && fy > 0.0 && distance >= 0.0 ==>
              distance / Min(fx, fy) == Max(distance / fx, distance / fy)
  {
    if fx > 0.0 && fy > 0.0 && distance >= 0.0 {
      if fx <= fy {
        QuotientAntitone(distance, fx, fy);
      } else {
        QuotientAntitone(distance, fy, fx);
      }
    }
  }

  /** The ground sampling distance is linear in the distance. */
  lemma GsdIsLinear(camera: Camera, distance: real, k: real)
    requires Min(camera.fx, camera.fy) != 0.0
    ensures GroundSamplingDistance(camera, k * distance) == k * GroundSamplingDistance(camera, distance)
  {
  }
}
