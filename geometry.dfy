/**
 * The straight-line geometry that `process_image` computes for a validated
 * candidate before deskewing it: the axis-aligned bounds of its integer
 * corners, the patch (centre and size) cut around them, the normalised
 * rotation angle and the (long, short) size of the deskewed crop. Also the
 * choice of the structuring element used to close the gradient image.
 */
module CandidateGeometry {
  import opened PlateTypes
  import opened ContourValidator

  /** The structuring element `se_shape` chosen from the `type` option. */
  function StructuringElement(kind: Option<string>): (se: (nat, nat))
    ensures se.0 > se.1 > 0
    ensures kind == Some("rect") ==> se == (17, 4)
    ensures kind == Some("square") ==> se == (7, 6)
    ensures kind != Some("rect") && kind != Some("square") ==> se == (16, 4)
  {
    if kind == Some("rect") then (17, 4)
    else if kind == Some("square") then (7, 6)
    else (16, 4)
  }

  /** Python's `min` over a non-empty list. */
  function MinOf(s: seq<int>): (m: int)
    requires |s| > 0
    ensures m in s
    ensures forall e :: e in s ==> m <= e
  {
    if |s| == 1 then s[0]
    else
      var rest := MinOf(s[1..]);
      assert forall e :: e in s ==> e == s[0] || e in s[1..];
      if s[0] <= rest then s[0] else rest
  }

  /** Python's `max` over a non-empty list. */
  function MaxOf(s: seq<int>): (m: int)
    requires |s| > 0
    ensures m in s
    ensures forall e :: e in s ==> e <= m
  {
    if |s| == 1 then s[0]
    else
      var rest := MaxOf(s[1..]);
      assert forall e :: e in s ==> e == s[0] || e in s[1..];
      if s[0] >= rest then s[0] else rest
  }

  /** `Xs` and `Ys`: the x and the y coordinates of the four corners. */
  function Xs(box: Corners<Point>): seq<int>
  {
    [box.c0.x, box.c1.x, box.c2.x, box.c3.x]
  }

  function Ys(box: Corners<Point>): seq<int>
  {
    [box.c0.y, box.c1.y, box.c2.y, box.c3.y]
  }

  datatype Bounds = Bounds(x1: int, x2: int, y1: int, y2: int)

  /**
   * `x1, x2, y1, y2`: the tightest axis-aligned bounds of the corners. Every
   * corner lies inside them and each bound is some corner's coordinate.
   */
  function BoxBounds(box: Corners<Point>): (b: Bounds)
    ensures b.x1 <= b.x2 && b.y1 <= b.y2
    ensures forall p :: p in box.AsSeq() ==> b.x1 <= p.x <= b.x2 && b.y1 <= p.y <= b.y2
    ensures b.x1 in Xs(box) && b.x2 in Xs(box) && b.y1 in Ys(box) && b.y2 in Ys(box)
  {
    var xs, ys := Xs(box), Ys(box);
    assert forall p :: p in box.AsSeq() ==> p.x in xs && p.y in ys;
    Bounds(MinOf(xs), MaxOf(xs), MinOf(ys), MaxOf(ys))
  }

  /** The patch `getRectSubPix` cuts: its `center` and its `size`. */
  datatype Patch = Patch(cx: real, cy: real, w: nat, h: nat)

  /**
   * `center = ((x1+x2)/2, (y1+y2)/2)` (true division) and
   * `size = (x2-x1, y2-y1)`: the patch is centred on the bounds, its size is
   * their extent, and so it covers every corner of the box.
   */
  function PatchOf(box: Corners<Point>): (pt: Patch)
    ensures var b := BoxBounds(box);
            && pt.cx - b.x1 as real == b.x2 as real - pt.cx
            && pt.cy - b.y1 as real == b.y2 as real - pt.cy
            && pt.w == b.x2 - b.x1 && pt.h == b.y2 - b.y1
    ensures forall p :: p in box.AsSeq() ==>
              && pt.cx - pt.w as real / 2.0 <= p.x as real <= pt.cx + pt.w as real / 2.0
              && pt.cy - pt.h as real / 2.0 <= p.y as real <= pt.cy + pt.h as real / 2.0
  {
    var b := BoxBounds(box);
    Patch((b.x1 + b.x2) as real / 2.0, (b.y1 + b.y2) as real / 2.0, b.x2 - b.x1, b.y2 - b.y1)
  }

  /**
   * `if angle < -45: angle += 90`. Angles from -45 on are left alone; on the
   * fitter's [-90, 0) output the result lies in [-45, 45).
   */
  function NormalizeAngle(angle: real): (r: real)
    ensures r == angle || r == angle + 90.0
    ensures angle >= -45.0 ==> r == angle
    ensures -90.0 <= angle < 0.0 ==> -45.0 <= r < 45.0
    ensures angle >= -135.0 ==> r >= -45.0
  {
    if angle < -45.0 then angle + 90.0 else angle
  }

  /**
   * Normalising twice is the same as once exactly for angles from -135
   * degrees on, which includes the whole [-90, 0) range the rectangle
   * fitter reports.
   */
  lemma NormalizeAngleIdempotent(angle: real)
    ensures NormalizeAngle(NormalizeAngle(angle)) == NormalizeAngle(angle) <==> angle >= -135.0
  {
    if angle < -135.0 {
      assert NormalizeAngle(angle) == angle + 90.0 < -45.0;
    }
  }

  /** `TmpW` and `TmpH`: the sides of the deskewed crop, longer first. */
  function DeskewedSides(w: real, h: real): (sides: (real, real))
    ensures sides.0 == MaxReal(w, h) && sides.1 == MinReal(w, h)
    ensures sides.0 >= sides.1
    ensures multiset{sides.0, sides.1} == multiset{w, h}
  {
    var tmpW := if h > w then h else w;
    var tmpH := if h < w then h else w;
    (tmpW, tmpH)
  }

  /** The deskewed crop's proportions are the aspect ratio the validator tested. */
  lemma DeskewedRatioIsAspectRatio(w: real, h: real)
    requires w > 0.0 && h > 0.0
    ensures var (long, short) := DeskewedSides(w, h);
            short > 0.0 && long / short == AspectRatio(w, h)
  {
    var (long, short) := DeskewedSides(w, h);
    var r := AspectRatio(w, h);
    assert r * short == long;
    assert long / short == r by {
      assert (long / short) * short == long;
      assert (long / short - r) * short == 0.0;
    }
  }

  /**
   * With the default ranges, a candidate that passes the validator yields a
   * deskewed crop `(int(TmpW), int(TmpH))` of at least 4 by 4 pixels: area
   * above 200 and ratio at most 12 force the short side above 4. So the edge
   * density of such a crop never divides by zero.
   */
  lemma ValidatedCropAtLeastFour(rect: Rect, corners: Corners<RealPoint>, img: ImageShape)
    requires Validate(rect, corners, img, DefaultAspectRange, DefaultAreaRange)
    ensures var (long, short) := DeskewedSides(rect.width, rect.height);
            TruncToInt(long) >= 4 && TruncToInt(short) >= 4
  {
    assert SidesFit(rect, img);
    SidesAtLeastFour(rect.width, rect.height);
  }

  lemma SidesAtLeastFour(w: real, h: real)
    requires w > 0.0 && h > 0.0
    requires AspectInRange(w, h, DefaultAspectRange) && AreaInRange(w, h, DefaultAreaRange)
    ensures var (long, short) := DeskewedSides(w, h);
            TruncToInt(long) >= 4 && TruncToInt(short) >= 4
  {
    var (long, short) := DeskewedSides(w, h);
    AspectInRangeIff(w, h, DefaultAspectRange);
    AreaInRangeIff(w, h, DefaultAreaRange);
    assert w * h == long * short;
    ShortSideAtLeastFour(long, short);
  }

  lemma ShortSideAtLeastFour(long: real, short: real)
    requires short > 0.0 && long <= 12.0 * short && long * short > 200.0
    ensures short >= 4.0
  {
  }
}
