/**
 * The candidate loop of `process_image`: every contour is validated, the
 * edge density of each valid one is measured, and `plate` is overwritten
 * with the crop of every candidate whose density is above one half. The
 * variable `plate` starts out unbound; the first iteration that leaves it
 * unbound binds it to `None` and prints "No plate detected".
 */
module PlateSelection {
  import opened PlateTypes
  import opened ContourValidator
  import opened EdgeDensity

  /**
   * One contour as the loop sees it: the rectangle and corners the library
   * fits to it, the edge density measured on its deskewed crop of the closed
   * gradient image (see `EdgeDensity.MeasureEdgeDensity`), and its deskewed
   * crop of the colour image, which is opaque here.
   */
  datatype Candidate<C> = Candidate(rect: Rect, corners: Corners<RealPoint>, density: real, crop: C)

  /** The state of the local `plate`: not yet assigned, or holding a crop or `None`. */
  datatype Binding<C> = Unbound | Bound(plate: Option<C>)

  /** The candidate passes the validator with the loop's ranges and is dense enough. */
  predicate Accepted<C>(img: ImageShape, c: Candidate<C>)
  {
    Validate(c.rect, c.corners, img, DefaultAspectRange, DefaultAreaRange) && DenseEnough(c.density)
  }

  /** The crop of the last accepted candidate, if any. */
  function LastAccepted<C>(img: ImageShape, cs: seq<Candidate<C>>): Option<C>
  {
    if |cs| == 0 then None
    else if Accepted(img, cs[|cs| - 1]) then Some(cs[|cs| - 1].crop)
    else LastAccepted(img, cs[..|cs| - 1])
  }

  /** How many times the source prints "No plate detected" for these contours. */
  function NoticesAsWritten<C>(img: ImageShape, cs: seq<Candidate<C>>): nat
  {
    if |cs| > 0 && !Accepted(img, cs[0]) then 1 else 0
  }

  /** No plate is found exactly when no candidate is accepted. */
  lemma {:induction false} LastAcceptedNone<C>(img: ImageShape, cs: seq<Candidate<C>>)
    ensures LastAccepted(img, cs).None? <==> forall i :: 0 <= i < |cs| ==> !Accepted(img, cs[i])
  {
    if |cs| > 0 {
      var init := cs[..|cs| - 1];
      LastAcceptedNone(img, init);
      assert forall i :: 0 <= i < |init| ==> init[i] == cs[i];
    }
  }

  /** The plate found is the crop of the accepted candidate after which no candidate is accepted. */
  lemma {:induction false} LastAcceptedPicksLast<C>(img: ImageShape, cs: seq<Candidate<C>>, i: nat)
    requires i < |cs| && Accepted(img, cs[i])
    requires forall j :: i < j < |cs| ==> !Accepted(img, cs[j])
    ensures LastAccepted(img, cs) == Some(cs[i].crop)
  {
    if i < |cs| - 1 {
      var init := cs[..|cs| - 1];
      assert forall j :: 0 <= j < |init| ==> init[j] == cs[j];
      LastAcceptedPicksLast(img, init, i);
    }
  }

  /** Of two accepted candidates the later one wins: the loop keeps the last plate, not the first. */
  lemma LaterPlateOverridesEarlier<C>(img: ImageShape, first: Candidate<C>, second: Candidate<C>)
    requires Accepted(img, first) && Accepted(img, second)
    ensures LastAccepted(img, [first, second]) == Some(second.crop)
  {
  }

  /**
   * "No plate detected" is printed while a plate is still returned when the
   * first contour is rejected and a later one accepted.
   */
  lemma NoticeDespitePlate<C>(img: ImageShape, first: Candidate<C>, second: Candidate<C>)
    requires !Accepted(img, first) && Accepted(img, second)
    ensures NoticesAsWritten(img, [first, second]) == 1
    ensures LastAccepted(img, [first, second]) == Some(second.crop)
  {
  }

  /**
   * The loop over `contours` as written. With no contours `plate` is never
   * bound and `return input_image, plate` raises (the `Unbound` result).
   * Otherwise the result is the crop of the last accepted candidate, or
   * `None`, and the notice is printed once exactly when the first candidate
   * is rejected.
   */
  method SelectPlate<C>(img: ImageShape, contours: seq<Candidate<C>>) returns (result: Binding<C>, notices: nat)
    ensures result.Unbound? <==> |contours| == 0
    ensures result.Bound? ==> result.plate == LastAccepted(img, contours)
    ensures notices == NoticesAsWritten(img, contours) && notices <= 1
  {
    var plate: Binding<C> := Unbound;
    notices := 0;
    for i := 0 to |contours|
      invariant plate.Unbound? <==> i == 0
      invariant plate.Bound? ==> plate.plate == LastAccepted(img, contours[..i])
      invariant notices == NoticesAsWritten(img, contours[..i])
    {
      assert contours[..i + 1][..i] == contours[..i];
      var c := contours[i];
      if Validate(c.rect, c.corners, img, DefaultAspectRange, DefaultAreaRange) {
        if DenseEnough(c.density) {
          plate := Bound(Some(c.crop));
        }
      }
      if plate.Unbound? {
        plate := Bound(None);
        notices := notices + 1;
      }
    }
    assert contours[..|contours|] == contours;
    result := plate;
  }

  /**
   * The loop with `plate` initialised to `None` before it. The
   * `'plate' not in locals()` test at pyAND_2.py:209-210 shows that `None`
   * is the default the source means to return when no plate is kept. Every
   * input, the empty one included, yields the crop of the last accepted
   * candidate or `None`, and the notice is given exactly when no plate was
   * found.
   */
  method SelectPlateFixed<C>(img: ImageShape, contours: seq<Candidate<C>>) returns (plate: Option<C>, notice: bool)
    ensures plate == LastAccepted(img, contours)
    ensures notice <==> forall i :: 0 <= i < |contours| ==> !Accepted(img, contours[i])
  {
    plate := None;
    for i := 0 to |contours|
      invariant plate == LastAccepted(img, contours[..i])
    {
      assert contours[..i + 1][..i] == contours[..i];
      var c := contours[i];
      if Validate(c.rect, c.corners, img, DefaultAspectRange, DefaultAreaRange) && DenseEnough(c.density) {
        plate := Some(c.crop);
      }
    }
    assert contours[..|contours|] == contours;
    LastAcceptedNone(img, contours);
    notice := plate.None?;
  }
}
