/**
 * Values shared by the plate-localisation model: the oriented rectangle and
 * the corner points that the vision library computes for a contour, the
 * image shape, the configured ranges, and the integer conversion `np.int0`.
 *
 * Floating-point quantities (rectangle sides, ratios, densities) are modelled
 * as exact `real`s.
 */
module PlateTypes {

  datatype Option<+T> = None | Some(value: T)

  /** A corner point with real coordinates, as the library returns it. */
  datatype RealPoint = RealPoint(x: real, y: real)

  /** A corner point after the conversion to integers. */
  datatype Point = Point(x: int, y: int)

  /** The four corners of an oriented rectangle, in the library's order. */
  datatype Corners<P> = Corners(c0: P, c1: P, c2: P, c3: P)
  {
    function AsSeq(): seq<P>
    {
      [c0, c1, c2, c3]
    }
  }

  /** The minimum-area rectangle of a contour: centre, (width, height), angle. */
  datatype Rect = Rect(cx: real, cy: real, width: real, height: real, angle: real)

  /** The shape of an image: `img.shape[0]` rows and `img.shape[1]` columns. */
  datatype ImageShape = ImageShape(rows: nat, cols: nat)
  {
    function Width(): nat { cols }
  }

  /** A pair of bounds (lower, upper); how each bound is compared is up to the user. */
  datatype Range = Range(lo: real, hi: real)

  /** The aspect-ratio range that the candidate loop passes to the validator. */
  const DefaultAspectRange: Range := Range(2.2, 12.0)

  /** The area range that the candidate loop passes to the validator. */
  const DefaultAreaRange: Range := Range(200.0, 180000000000000.0)

  /** A candidate is kept only when its edge density is strictly above this. */
  const DensityThreshold: real := 0.5

  function Abs(n: int): (r: nat)
    ensures r == n || r == -n
  {
    if n < 0 then -n else n
  }

  function MinReal(a: real, b: real): (r: real)
    ensures r <= a && r <= b && (r == a || r == b)
  {
    if a <= b then a else b
  }

  function MaxReal(a: real, b: real): (r: real)
    ensures r >= a && r >= b && (r == a || r == b)
  {
    if a >= b then a else b
  }

  /**
   * `np.int0` on one coordinate: the cast to a machine integer truncates
   * toward zero, so the result never moves away from zero and loses less
   * than one unit.
   */
  function TruncToInt(r: real): (n: int)
    ensures r >= 0.0 ==> 0 <= n && n as real <= r < n as real + 1.0
    ensures r < 0.0 ==> n <= 0 && n as real - 1.0 < r <= n as real
  {
    if r >= 0.0 then r.Floor else -((-r).Floor)
  }

  function IntPoint(p: RealPoint): Point
  {
    Point(TruncToInt(p.x), TruncToInt(p.y))
  }

  /** `np.int0(cv2.boxPoints(rect))`: every corner converted on its own. */
  function IntCorners(b: Corners<RealPoint>): Corners<Point>
  {
    Corners(IntPoint(b.c0), IntPoint(b.c1), IntPoint(b.c2), IntPoint(b.c3))
  }
}
