# Licence-plate candidate selection, modelled in Dafny

This project models the decision logic of `pyAND_2.py`. That script finds a
licence plate in a still image. It closes a horizontal-gradient image, takes
the outer contours of the blobs, and checks each contour's minimum-area
rectangle with `validate_contour`. Then it deskews each surviving candidate
and measures its edge density. A candidate is accepted when more than half of
its crop is foreground. The vision-library calls are treated as inputs: the
oriented rectangle, its four corner points, the binarised crop and the colour
crop. What is modelled is everything the script decides from those inputs.

Modules:

- `PlateTypes` (`types.dfy`): rectangles, corner points, the image shape, the
  configured ranges and their defaults, and the truncating `np.int0` conversion.
- `ContourValidator` (`validator.dfy`): `validate_contour`, stage by stage.
  The floating-point `atan` test is replaced by an exact comparison of the
  tangent with 1.
- `CandidateGeometry` (`geometry.dfy`): the structuring-element choice, the
  bounds, centre and size of the box, the angle normalisation, and the
  (long, short) size of the deskewed crop.
- `EdgeDensity` (`density.dfy`): the nested counting loop over a 2-D array
  and the density division.
- `PlateSelection` (`selection.dfy`): the loop over the contours that
  overwrites `plate`, and a corrected version of it.

Floating-point values (rectangle sides, ratios, angles, densities) are
modelled as exact `real`s.

Behaviour of the code that the model keeps as written, though a reader of the
script might expect otherwise:

- The loop keeps the **last** accepted candidate, not the first
  (`LaterPlateOverridesEarlier`).
- A side exactly equal to half the image width is rejected. The bound is
  strict (`HalfWidthSideRejected`).
- Both sides are bounded by the image width. The height is never read
  (`ValidateIgnoresImageHeight`).
- The corner picked for the 45-degree test is not the diagonal. On a genuine
  rectangle it is the neighbour of the first corner along the longer side
  (`OppositeIsLongSideNeighbour`). So the test bounds the tilt of the long side.
- After normalisation, angles from [-90, 0) lie in [-45, 45), and not in
  [-45, 0). Normalising again changes nothing for every angle from -135 on.

## Model

| member | source | states |
|---|---|---|
| `PlateTypes.TruncToInt` | pyAND_2.py:46 | `np.int0` truncates toward zero: the integer is 0 or has the real's sign, is no farther from zero, and is less than one unit away |
| `ContourValidator.AspectRatio` | pyAND_2.py:59 | the aspect ratio is at least 1, and multiplying it by the shorter side gives the longer side |
| `ContourValidator.AspectInRangeIff` | pyAND_2.py:59-60 | the inclusive ratio test holds exactly when lo·short ≤ long ≤ hi·short |
| `PlateTypes.IntCorners` | pyAND_2.py:45-46 | `np.int0(box)`: each corner coordinate is truncated on its own (see `TruncToInt` for what truncation promises) |
| `ContourValidator.Validate` | pyAND_2.py:41-78 | `validate_contour` given the fitted rectangle and the library's corners: `ValidateBox` on the truncated corners; its meaning is stated by `ValidateIff` |
| `ContourValidator.ValidateBox` | pyAND_2.py:56-78 | the four stages in the source's order on the integer corners; `ValidateIff` states exactly when it accepts |
| `ContourValidator.SidesFit` | pyAND_2.py:58 | both sides positive and strictly below half the image width; `NonPositiveSideRejected`, `HalfWidthSideRejected` and `ValidateIgnoresImageHeight` state its consequences |
| `ContourValidator.AspectInRange` | pyAND_2.py:59-60 | the ratio stage, both ends included; `AspectInRangeIff` gives its cross-multiplied meaning and `DefaultAspectBoundaries` its boundary cases |
| `ContourValidator.AreaInRange` | pyAND_2.py:62 | the area stage, both ends excluded; `AreaBoundsExclusive` states that an area equal to either bound is rejected |
| `ContourValidator.OppositeCorner` | pyAND_2.py:64-69 | `opposite_point`: the corner at `OppositeIndex`; `OppositeIsLongSideNeighbour` says which corner that is on a genuine rectangle |
| `ContourValidator.InclineBetween` | pyAND_2.py:70-74 | `tmp_angle` as a tangent: 90 degrees (vertical) when dx = 0, otherwise abs(dy)/abs(dx); `InclineTest` states the integer form of the test on it |
| `ContourValidator.AtMostFortyFive` | pyAND_2.py:76-77 | `tmp_angle <= 45`: fails for vertical, holds for tangent t exactly when t ≤ 1, since atan is increasing and atan(1) is 45 degrees; `InclineTest` states it on integers |
| `ContourValidator.SkewOk` | pyAND_2.py:64-77 | the skew stage on the first and the opposite corner; `SkewOkIff` states exactly when it holds |
| `ContourValidator.SecondSmallest` | pyAND_2.py:68 | `sorted(dists)[1]` is one of the three distances, and it is the middle one: two distances are at most it and two at least it |
| `ContourValidator.IndexOf` | pyAND_2.py:69 | `list.index` returns a position holding the value, and no earlier position holds it |
| `ContourValidator.OppositeIndex` | pyAND_2.py:64-69 | the opposite corner is the first of the other three corners whose squared distance from the first corner is the middle distance |
| `ContourValidator.InclineTest` | pyAND_2.py:70-77 | the angle test passes exactly when dx ≠ 0 and abs(dy) ≤ abs(dx); with dx = 0 the angle stays 90 and the test fails |
| `ContourValidator.SkewOkIff` | pyAND_2.py:64-77 | the skew stage holds exactly when the line to the opposite corner has dx ≠ 0 and abs(dy) ≤ abs(dx) |
| `ContourValidator.ValidateIff` | pyAND_2.py:56-78 | the validator accepts exactly when both sides are positive and below half the image width, lo·short ≤ long ≤ hi·short, lo < area < hi, and the slope to the opposite corner is at most 1 |
| `ContourValidator.NonPositiveSideRejected` | pyAND_2.py:58 | a side ≤ 0 rejects the contour whatever the other stages say |
| `ContourValidator.HalfWidthSideRejected` | pyAND_2.py:58 | a side exactly half the image width is rejected |
| `ContourValidator.ValidateIgnoresImageHeight` | pyAND_2.py:43-58 | the verdict is the same for every image height: only the image width is consulted |
| `ContourValidator.ValidateIgnoresAngle` | pyAND_2.py:50-54 | with the corners given, the `angle` variable (lines 50 and 54) is never read: changing only the rectangle's angle field leaves the verdict unchanged (the corners themselves come from a library call that reads the angle) |
| `ContourValidator.DefaultAspectBoundaries` | pyAND_2.py:120 | with the default ratio range, ratios of 2.2 and 12 pass in either orientation, and 2.1999 and 12.0001 fail |
| `ContourValidator.AreaBoundsExclusive` | pyAND_2.py:62 | an area equal to either bound (200 by default) is rejected |
| `ContourValidator.OppositeIsLongSideNeighbour` | pyAND_2.py:64-69 | when the diagonal corner is strictly the farthest, the chosen corner is the neighbour along the longer side (the first neighbour on a tie), never the diagonal |
| `CandidateGeometry.StructuringElement` | pyAND_2.py:92-98 | the closing kernel is always wider than tall: (17, 4) for `type='rect'`, (7, 6) for `'square'`, and (16, 4) for any other value or none |
| `CandidateGeometry.MinOf` | pyAND_2.py:139 | `min(Xs)` is an element of the list that is at most every element |
| `CandidateGeometry.MaxOf` | pyAND_2.py:140 | `max(Xs)` is an element of the list that is at least every element |
| `CandidateGeometry.BoxBounds` | pyAND_2.py:137-142 | x1 ≤ x2 and y1 ≤ y2, every corner lies within the bounds, and each bound is a corner's coordinate |
| `CandidateGeometry.PatchOf` | pyAND_2.py:152-153 | `center` is the midpoint of the bounds, `size` is their extent (non-negative), and the patch covers every corner |
| `CandidateGeometry.NormalizeAngle` | pyAND_2.py:144-146 | the angle moves by 0 or 90; angles from -45 on are left unchanged; inputs from [-90, 0) land in [-45, 45); inputs from -135 on land at -45 or above |
| `CandidateGeometry.NormalizeAngleIdempotent` | pyAND_2.py:144-146 | normalising twice equals normalising once, exactly for angles ≥ -135 |
| `CandidateGeometry.DeskewedSides` | pyAND_2.py:157-158 | `TmpW` is max(W, H), `TmpH` is min(W, H), `TmpW ≥ TmpH`, and {TmpW, TmpH} = {W, H} as a multiset |
| `CandidateGeometry.DeskewedRatioIsAspectRatio` | pyAND_2.py:150-158 | `TmpW / TmpH` equals the aspect ratio the validator tested |
| `CandidateGeometry.SidesAtLeastFour` | pyAND_2.py:157-159 | with the default ranges, sides passing the ratio and area stages give `int(TmpW)` and `int(TmpH)` of at least 4 |
| `CandidateGeometry.ValidatedCropAtLeastFour` | pyAND_2.py:157-169 | a rectangle the validator accepts with the default ranges yields a deskewed crop of at least 4 by 4 cells, so the density division never divides by zero |
| `EdgeDensity.WhiteCells` | pyAND_2.py:164-167 | the number of 255-cells in the first m rows is at most m times the row length |
| `EdgeDensity.AllWhiteCount` | pyAND_2.py:164-167 | in an all-255 crop every cell is counted |
| `EdgeDensity.NoWhiteCount` | pyAND_2.py:164-167 | in a crop without 255-cells the count is 0 |
| `EdgeDensity.CountWhite` | pyAND_2.py:162-167 | the nested loops count exactly the cells equal to 255, and never more than rows·cols |
| `EdgeDensity.MeasureEdgeDensity` | pyAND_2.py:162-169 | an empty crop fails the division; otherwise density·cells = white count, the density lies in [0, 1], it is 1 for an all-255 crop and 0 for a crop without 255-cells |
| `EdgeDensity.DenseEnough` | pyAND_2.py:177 | the density must be strictly above 0.5; with `MeasureEdgeDensity`, an all-255 crop (density 1) passes and a crop without 255-cells (density 0) fails |
| `PlateSelection.Accepted` | pyAND_2.py:133-177 | a candidate passes `Validate` with the loop's default ranges (lines 120-121) and `DenseEnough` |
| `PlateSelection.LastAccepted` | pyAND_2.py:119-191 | the value `plate` ends with after a non-empty run; `LastAcceptedNone` and `LastAcceptedPicksLast` state that it is the crop of the last accepted candidate, or `None` when none is accepted |
| `PlateSelection.NoticesAsWritten` | pyAND_2.py:209-211 | how often "No plate detected" is printed: once when the first contour is rejected, else never; `SelectPlate` proves the loop prints that many and `NoticeDespitePlate` shows it printed beside a returned plate |
| `PlateSelection.LastAcceptedNone` | pyAND_2.py:133-191 | no plate is found exactly when no candidate is both valid and denser than 0.5 |
| `PlateSelection.LastAcceptedPicksLast` | pyAND_2.py:177-191 | the plate found is the crop of an accepted candidate after which no candidate is accepted |
| `PlateSelection.LaterPlateOverridesEarlier` | pyAND_2.py:188-191 | of two accepted candidates the later one's crop is returned |
| `PlateSelection.NoticeDespitePlate` | pyAND_2.py:209-211 | if the first contour is rejected and the second accepted, "No plate detected" is printed once and the second crop is still returned |
| `PlateSelection.SelectPlate` | pyAND_2.py:119-213 | `plate` stays unbound exactly when there are no contours; otherwise the last accepted crop or `None` is returned; the notice is printed at most once, exactly when the first contour is rejected |
| `PlateSelection.SelectPlateFixed` | pyAND_2.py:119-213 | with `plate` set to `None` before the loop, every input, the empty one included, returns the last accepted crop or `None`; the notice is given exactly when no candidate is accepted |

## Left out

- Every vision-library operation is left out: reading the image, grey
  conversion, `enhance` (`filter2D`), Gaussian blur, Sobel, Otsu thresholding,
  morphological closing, `findContours`, `minAreaRect`, `boxPoints`, the
  rotation matrix, `getRectSubPix`, `warpAffine` and `boundingRect`. These are
  foreign calls. Their results (rectangle, corners, binarised crop, colour
  crop) are parameters of the model.
- `plate_recognition` (the Tesseract calls and the PIL conversion) is an
  external text-recognition engine. It is not modelled.
- Windows, key waits, console output other than the "No plate detected"
  count, the timing, `print(area_range)`, and the command-line handling are
  I/O. They are not modelled.
- `deg_to_rad`, `rad_to_deg` and `math.atan` are floating-point
  trigonometry. The 45-degree test is modelled by its exact equivalent:
  atan is increasing and atan(1) is 45 degrees.
- Floating-point rounding is not modelled. Rectangle sides, ratios, areas and
  densities are exact reals. For very large coordinates a rounded `atan` near
  45 degrees could differ from the exact comparison.
- `np.int0` is modelled as truncation toward zero into an unbounded integer.
  The 64-bit range of the cast is not modelled.
- The angle adjusted at line 54, the `aspect_ratio` at line 150, the crop
  taken through `boundingRect` at lines 182-188 (overwritten at line 190), and
  the colour crop at lines 171-175 are all computed and never used. They are
  not modelled. `ValidateIgnoresAngle` states that the first of them does not
  matter.
- The pixel values of the deskewed crops are not modelled. The density
  counting works on any given 2-D array.
- `PlateSelection.SelectPlate`: each candidate's edge density is a given
  real, not the result of running `MeasureEdgeDensity` inside the loop,
  because the crop it is measured on comes from library calls.
  `ValidatedCropAtLeastFour` shows that, with the default ranges, the crop of
  a validated candidate is never empty. This assumes `getRectSubPix`
  returns a patch of the requested size. So the division cannot fail there.
- The `type` option is modelled as an optional string. Any other value falls
  to the default kernel, as in the source.

## Findings

| source | as written | input that shows it | evidently intended | confidence | as-written member | corrected member |
|---|---|---|---|---|---|---|
| pyAND_2.py:209-213 | `plate` is bound only inside the loop body, but it is returned unconditionally | an image whose closed gradient has no contours (`contours == []`): `return input_image, plate` raises UnboundLocalError | return "no plate found" (`None`) | high, not executed | `PlateSelection.SelectPlate` | `PlateSelection.SelectPlateFixed` |
| pyAND_2.py:209-211 | "No plate detected" is printed when `plate` is still unbound after the first iteration | two contours, the first rejected and the second accepted: the notice is printed and a plate is returned | print the notice only when no plate is found | medium, not executed | `PlateSelection.NoticeDespitePlate` | `PlateSelection.SelectPlateFixed` |
