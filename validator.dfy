/**
 * `validate_contour`: decides from the minimum-area rectangle of a contour
 * and its four integer corners whether the contour can be a licence plate.
 * The stages are checked in the source's order: side sizes against the image
 * width, aspect ratio (inclusive range), area (exclusive range) and the
 * skew of the line from the first corner to the corner at the second-smallest
 * squared distance.
 */
module ContourValidator {
  import opened PlateTypes

  /** Both sides positive and each strictly below half the image WIDTH. */
  predicate SidesFit(rect: Rect, img: ImageShape)
  {
    && rect.width > 0.0 && rect.height > 0.0
    && rect.width < img.Width() as real / 2.0
    && rect.height < img.Width() as real / 2.0
  }

  /** The longer side divided by the shorter one. */
  function AspectRatio(w: real, h: real): (r: real)
    requires w > 0.0 && h > 0.0
    ensures r >= 1.0
    ensures r * MinReal(w, h) == MaxReal(w, h)
  {
    if w > h then w / h else h / w
  }

  /** The aspect-ratio stage: the ratio lies in the range, both ends included. */
  predicate AspectInRange(w: real, h: real, range: Range)
    requires w > 0.0 && h > 0.0
  {
    range.lo <= AspectRatio(w, h) <= range.hi
  }

  /** The area stage: `height * width` lies in the range, both ends excluded. */
  predicate AreaInRange(w: real, h: real, range: Range)
  {
    range.lo < h * w < range.hi
  }

  function SqDist(p: Point, q: Point): nat
  {
    (p.x - q.x) * (p.x - q.x) + (p.y - q.y) * (p.y - q.y)
  }

  /** The three corners other than the first (`box_copy` once `box[0]` is deleted). */
  function OtherCorners(box: Corners<Point>): (s: seq<Point>)
    ensures |s| == 3
  {
    [box.c1, box.c2, box.c3]
  }

  /** `dists`: squared distance from the first corner to each of the other three. */
  function CornerDists(box: Corners<Point>): (d: seq<int>)
    ensures |d| == 3
  {
    [SqDist(box.c0, box.c1), SqDist(box.c0, box.c2), SqDist(box.c0, box.c3)]
  }

  /** `m` is the middle of `a`, `b`, `c` once sorted: two of them are at most `m` and two at least `m`. */
  predicate IsMiddle(a: int, b: int, c: int, m: int)
  {
    && ((a <= m && b <= m) || (a <= m && c <= m) || (b <= m && c <= m))
    && ((a >= m && b >= m) || (a >= m && c >= m) || (b >= m && c >= m))
  }

  /** `sorted(dists)[1]` for three distances. */
  function SecondSmallest(a: int, b: int, c: int): (m: int)
    ensures m == a || m == b || m == c
    ensures IsMiddle(a, b, c, m)
  {
    if a <= b then
      (if b <= c then b else if a <= c then c else a)
    else
      (if a <= c then a else if b <= c then c else b)
  }

  /** Python's `list.index`: the position of the first occurrence of `v`. */
  function IndexOf(s: seq<int>, v: int): (i: nat)
    requires v in s
    ensures i < |s| && s[i] == v
    ensures forall j :: 0 <= j < i ==> s[j] != v
  {
    if s[0] == v then 0 else 1 + IndexOf(s[1..], v)
  }

  /**
   * The index, among the other three corners, of the `opposite_point`: the
   * first corner whose distance is the second smallest.
   */
  function OppositeIndex(box: Corners<Point>): (i: nat)
    ensures i < 3
    ensures var d := CornerDists(box); IsMiddle(d[0], d[1], d[2], d[i])
    ensures var d := CornerDists(box); forall j :: 0 <= j < i ==> d[j] != d[i]
  {
    var d := CornerDists(box);
    IndexOf(d, SecondSmallest(d[0], d[1], d[2]))
  }

  function OppositeCorner(box: Corners<Point>): Point
  {
    OtherCorners(box)[OppositeIndex(box)]
  }

  /**
   * The line between two corners as the source sees it: with no horizontal
   * offset the angle stays at 90 degrees; otherwise it is `atan` of the
   * tangent |dy| / |dx|.
   */
  datatype Incline = Vertical | Tangent(t: real)

  function InclineBetween(p: Point, q: Point): Incline
  {
    if Abs(p.x - q.x) > 0 then Tangent(Abs(p.y - q.y) as real / Abs(p.x - q.x) as real)
    else Vertical
  }

  /**
   * `tmp_angle <= 45`. A vertical line keeps 90 degrees and fails. For a
   * tangent t >= 0, `atan` is increasing and `atan(1)` is 45 degrees, so the
   * test holds exactly when t <= 1.
   */
  predicate AtMostFortyFive(inc: Incline)
  {
    match inc
    case Vertical => false
    case Tangent(t) => t <= 1.0
  }

  /** The skew stage on the integer corners. */
  predicate SkewOk(box: Corners<Point>)
  {
    AtMostFortyFive(InclineBetween(box.c0, OppositeCorner(box)))
  }

  /**
   * `validate_contour(contour, img, aspect_ratio_range, area_range)`, given
   * `rect = cv2.minAreaRect(contour)` and `corners = cv2.boxPoints(rect)`.
   */
  predicate Validate(rect: Rect, corners: Corners<RealPoint>, img: ImageShape, aspect: Range, area: Range)
  {
    ValidateBox(rect, IntCorners(corners), img, aspect, area)
  }

  /** The validator once the corners have been converted by `np.int0`. */
  predicate ValidateBox(rect: Rect, box: Corners<Point>, img: ImageShape, aspect: Range, area: Range)
  {
    && SidesFit(rect, img)
    && AspectInRange(rect.width, rect.height, aspect)
    && AreaInRange(rect.width, rect.height, area)
    && SkewOk(box)
  }

  // ---------------------------------------------------------------------
  // Properties of the stages
  // ---------------------------------------------------------------------

  /** The ratio test is the cross-multiplied comparison of the sides. */
  lemma AspectInRangeIff(w: real, h: real, range: Range)
    requires w > 0.0 && h > 0.0
    ensures AspectInRange(w, h, range)
        <==> range.lo * MinReal(w, h) <= MaxReal(w, h) <= range.hi * MinReal(w, h)
  {
    var r, mn, mx := AspectRatio(w, h), MinReal(w, h), MaxReal(w, h);
    assert r * mn == mx;
    assert range.lo <= r <==> range.lo * mn <= r * mn by {
      MulMonotone(range.lo, r, mn);
    }
    assert r <= range.hi <==> r * mn <= range.hi * mn by {
      MulMonotone(r, range.hi, mn);
    }
  }

  lemma MulMonotone(a: real, b: real, c: real)
    requires c > 0.0
    ensures a <= b <==> a * c <= b * c
  {
    if a <= b {
      assert (b - a) * c >= 0.0;
    } else {
      assert (a - b) * c > 0.0;
    }
  }

  /** The 45 degree test, stated on integers. */
  lemma {:induction false} InclineTest(p: Point, q: Point)
    ensures AtMostFortyFive(InclineBetween(p, q))
        <==> p.x != q.x && Abs(p.y - q.y) <= Abs(p.x - q.x)
  {
    if p.x != q.x {
      var dy, dx := Abs(p.y - q.y) as real, Abs(p.x - q.x) as real;
      assert InclineBetween(p, q) == Tangent(dy / dx);
      QuotientAtMostOne(dy, dx);
    } else {
      assert InclineBetween(p, q) == Vertical;
    }
  }

  lemma QuotientAtMostOne(a: real, b: real)
    requires b > 0.0
    ensures a / b <= 1.0 <==> a <= b
  {
    var t := a / b;
    assert t * b == a;
    MulMonotone(t, 1.0, b);
  }

  /**
   * The validator accepts exactly when: both sides are positive and below
   * half the image width, the sides' ratio lies in the aspect range (both
   * ends included), the area lies strictly inside the area range, and the
   * opposite corner differs from the first corner in x by at least as much
   * as in y.
   */
  lemma ValidateIff(rect: Rect, box: Corners<Point>, img: ImageShape, aspect: Range, area: Range)
    ensures var p, q, w, h := box.c0, OppositeCorner(box), rect.width, rect.height;
            (ValidateBox(rect, box, img, aspect, area)
             <==> && 0.0 < w < img.cols as real / 2.0
                  && 0.0 < h < img.cols as real / 2.0
                  && aspect.lo * MinReal(w, h) <= MaxReal(w, h) <= aspect.hi * MinReal(w, h)
                  && area.lo < w * h < area.hi
                  && p.x != q.x && Abs(p.y - q.y) <= Abs(p.x - q.x))
  {
    SkewOkIff(box);
    AreaInRangeIff(rect.width, rect.height, area);
    if rect.width > 0.0 && rect.height > 0.0 {
      AspectInRangeIff(rect.width, rect.height, aspect);
    }
  }

  lemma SkewOkIff(box: Corners<Point>)
    ensures var p, q := box.c0, OppositeCorner(box);
            SkewOk(box) <==> p.x != q.x && Abs(p.y - q.y) <= Abs(p.x - q.x)
  {
    InclineTest(box.c0, OppositeCorner(box));
  }

  lemma AreaInRangeIff(w: real, h: real, area: Range)
    ensures AreaInRange(w, h, area) <==> area.lo < w * h < area.hi
  {
    assert h * w == w * h;
  }

  /** A side that is not positive rejects the contour whatever else holds. */
  lemma NonPositiveSideRejected(rect: Rect, corners: Corners<RealPoint>, img: ImageShape, aspect: Range, area: Range)
    requires rect.width <= 0.0 || rect.height <= 0.0
    ensures !Validate(rect, corners, img, aspect, area)
  {
  }

  /** Both sides are bounded by the image width; the image height is never consulted. */
  lemma ValidateIgnoresImageHeight(rect: Rect, corners: Corners<RealPoint>, cols: nat, rows1: nat, rows2: nat, aspect: Range, area: Range)
    ensures Validate(rect, corners, ImageShape(rows1, cols), aspect, area)
        == Validate(rect, corners, ImageShape(rows2, cols), aspect, area)
  {
  }

  /**
   * With the corners given, the `angle` variable (read at line 50 and
   * adjusted at line 54) is never used: changing the rectangle's angle field
   * alone leaves the verdict unchanged. The corners themselves do depend on
   * the angle, through the library call that produces them.
   */
  lemma ValidateIgnoresAngle(rect: Rect, corners: Corners<RealPoint>, img: ImageShape, aspect: Range, area: Range, angle: real)
    ensures Validate(rect, corners, img, aspect, area)
        == Validate(rect.(angle := angle), corners, img, aspect, area)
  {
  }

  /** A side equal to half the image width is rejected: the bound is strict. */
  lemma HalfWidthSideRejected(rect: Rect, corners: Corners<RealPoint>, img: ImageShape, aspect: Range, area: Range)
    requires rect.width == img.cols as real / 2.0 || rect.height == img.cols as real / 2.0
    ensures !Validate(rect, corners, img, aspect, area)
  {
  }

  /** With the default ranges, ratio 2.2 passes the aspect stage, 2.1999 does not, 12 passes. */
  lemma DefaultAspectBoundaries()
    ensures AspectInRange(22.0, 10.0, DefaultAspectRange)
    ensures AspectInRange(10.0, 22.0, DefaultAspectRange)
    ensures !AspectInRange(21.999, 10.0, DefaultAspectRange)
    ensures AspectInRange(120.0, 10.0, DefaultAspectRange)
    ensures AspectInRange(10.0, 120.0, DefaultAspectRange)
    ensures !AspectInRange(120.001, 10.0, DefaultAspectRange)
  {
  }

  /** An area of exactly the lower bound (200 by default) is rejected: the bounds are exclusive. */
  lemma AreaBoundsExclusive(rect: Rect, corners: Corners<RealPoint>, img: ImageShape, aspect: Range, area: Range)
    requires rect.width * rect.height == area.lo || rect.width * rect.height == area.hi
    ensures !Validate(rect, corners, img, aspect, area)
  {
    AreaInRangeIff(rect.width, rect.height, area);
    assert !AreaInRange(rect.width, rect.height, area);
  }

  /**
   * For a genuine rectangle, whose diagonal corner `c2` is strictly the
   * farthest from `c0`, the corner at the second-smallest distance is NOT
   * the diagonal: it is the neighbour of `c0` along the longer side (`c1`
   * on a tie). So the 45 degree test measures the tilt of the long side.
   */
  lemma OppositeIsLongSideNeighbour(box: Corners<Point>)
    requires SqDist(box.c0, box.c2) > SqDist(box.c0, box.c1)
    requires SqDist(box.c0, box.c2) > SqDist(box.c0, box.c3)
    ensures OppositeCorner(box)
         == if SqDist(box.c0, box.c3) > SqDist(box.c0, box.c1) then box.c3 else box.c1
  {
    var d := CornerDists(box);
    assert d[0] == SqDist(box.c0, box.c1);
    assert d[1] == SqDist(box.c0, box.c2);
    assert d[2] == SqDist(box.c0, box.c3);
  }
}
