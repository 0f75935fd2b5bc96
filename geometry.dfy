/** What OpenCV reports about one traced contour. The raster primitives
    (threshold, findContours, approxPolyDP, isContourConvex, contourArea,
    arcLength, minAreaRect, boundingRect, PCACompute2, moments) are not
    modelled; their results are fields of `Contour`. */
module Geometry {
  import opened Numeric

  datatype Point = Point(x: int, y: int)

  datatype Contour = Contour(
    points: seq<Point>,              // findContours, CHAIN_APPROX_SIMPLE
    area: real,                      // contourArea(cnt)
    perimeter: real,                 // arcLength(cnt, true)
    approx: seq<Point>,              // approxPolyDP(cnt, 0.02 * perimeter, true)
    convex: bool,                    // isContourConvex(approx)
    rectWidth: real,                 // minAreaRect(cnt).size.width
    rectHeight: real,                // minAreaRect(cnt).size.height
    boxWidth: int,                   // boundingRect(cnt) width
    boxHeight: int,                  // boundingRect(cnt) height
    pcaWidth: int,                   // boundingRect of the PCA-rotated points, width
    pcaHeight: int,                  // boundingRect of the PCA-rotated points, height
    m00: real, m10: real, m01: real  // moments(cnt): area and first moments
  )

  /** Facts OpenCV guarantees for a contour it traced: contourArea (not
      oriented) is non-negative, moments() reports the same polygon area as
      m00, a blob with positive area has a positive perimeter and at least
      one point, and rectangle sizes are non-negative. */
  predicate Traced(c: Contour) {
    && 0.0 <= c.area
    && c.m00 == c.area
    && (0.0 < c.area ==> 0.0 < c.perimeter && |c.points| > 0)
    && 0.0 <= c.rectWidth && 0.0 <= c.rectHeight
    && 0 <= c.boxWidth && 0 <= c.boxHeight
    && 0 <= c.pcaWidth && 0 <= c.pcaHeight
  }

  /** contourArea as a sort key. */
  function AreaKey(c: Contour): real {
    c.area
  }

  /** The interleaved [x0, y0, x1, y1, ...] snapshot read from `data32S`. */
  function Flatten(pts: seq<Point>): (r: seq<int>)
    ensures |r| == 2 * |pts|
    ensures forall i :: 0 <= i < |pts| ==> r[2 * i] == pts[i].x && r[2 * i + 1] == pts[i].y
  {
    if |pts| == 0 then [] else [pts[0].x, pts[0].y] + Flatten(pts[1..])
  }

  /** `cv.matFromArray(flat.length / 2, 1, CV_32SC2, flat)`: consecutive pairs
      become points. */
  function Unflatten(flat: seq<int>): (r: seq<Point>)
    ensures |r| == |flat| / 2
    ensures forall i :: 0 <= i < |r| ==> r[i] == Point(flat[2 * i], flat[2 * i + 1])
  {
    seq(|flat| / 2, i requires 0 <= i < |flat| / 2 => Point(flat[2 * i], flat[2 * i + 1]))
  }

  /** Redrawing from a stored snapshot reproduces the traced points. */
  lemma UnflattenFlatten(pts: seq<Point>)
    ensures Unflatten(Flatten(pts)) == pts
  {
    var r := Unflatten(Flatten(pts));
    assert |r| == |pts|;
    forall i | 0 <= i < |pts|
      ensures r[i] == pts[i]
    {
    }
  }

  /** `Math.round(m / (M.m00 || 1))`: a centroid coordinate, with a zero
      area replaced by 1. */
  function CentroidCoord(m: real, m00: real): int {
    RoundHalfUp(m / (if m00 == 0.0 then 1.0 else m00))
  }
}
