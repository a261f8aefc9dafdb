/**
 * The edge-density measure of `process_image`: the share of cells equal to
 * 255 in the re-binarised, deskewed crop, counted by two nested loops over
 * the rows and the columns of the crop.
 */
module EdgeDensity {
  import opened PlateTypes

  /** The value of a foreground ("edge") cell after Otsu binarisation. */
  const White: int := 255

  /** The number of white cells among the first `n` cells of row `x`. */
  function RowWhite(a: array2<int>, x: nat, n: nat): (c: nat)
    reads a
    requires x < a.Length0 && n <= a.Length1
    ensures c <= n
  {
    if n == 0 then 0 else RowWhite(a, x, n - 1) + (if a[x, n - 1] == White then 1 else 0)
  }

  /** The number of white cells in the first `m` rows. */
  function WhiteCells(a: array2<int>, m: nat): (c: nat)
    reads a
    requires m <= a.Length0
    ensures c <= m * a.Length1
  {
    if m == 0 then 0
    else
      var before := WhiteCells(a, m - 1);
      assert before + RowWhite(a, m - 1, a.Length1) <= (m - 1) * a.Length1 + a.Length1;
      before + RowWhite(a, m - 1, a.Length1)
  }

  ghost predicate AllWhite(a: array2<int>)
    reads a
  {
    forall x, y :: 0 <= x < a.Length0 && 0 <= y < a.Length1 ==> a[x, y] == White
  }

  ghost predicate NoWhite(a: array2<int>)
    reads a
  {
    forall x, y :: 0 <= x < a.Length0 && 0 <= y < a.Length1 ==> a[x, y] != White
  }

  /** In an all-white crop every cell counts. */
  lemma {:induction false} AllWhiteCount(a: array2<int>, m: nat)
    requires m <= a.Length0 && AllWhite(a)
    ensures WhiteCells(a, m) == m * a.Length1
  {
    if m > 0 {
      AllWhiteCount(a, m - 1);
      AllWhiteRow(a, m - 1, a.Length1);
      assert (m - 1) * a.Length1 + a.Length1 == m * a.Length1;
    }
  }

  lemma {:induction false} AllWhiteRow(a: array2<int>, x: nat, n: nat)
    requires x < a.Length0 && n <= a.Length1 && AllWhite(a)
    ensures RowWhite(a, x, n) == n
  {
    if n > 0 {
      AllWhiteRow(a, x, n - 1);
    }
  }

  /** In a crop without white cells nothing counts. */
  lemma {:induction false} NoWhiteCount(a: array2<int>, m: nat)
    requires m <= a.Length0 && NoWhite(a)
    ensures WhiteCells(a, m) == 0
  {
    if m > 0 {
      NoWhiteCount(a, m - 1);
      NoWhiteRow(a, m - 1, a.Length1);
    }
  }

  lemma {:induction false} NoWhiteRow(a: array2<int>, x: nat, n: nat)
    requires x < a.Length0 && n <= a.Length1 && NoWhite(a)
    ensures RowWhite(a, x, n) == 0
  {
    if n > 0 {
      NoWhiteRow(a, x, n - 1);
    }
  }

  /**
   * `white_pixels`: the nested `for x` / `for y` loops over the crop, adding
   * one for each cell equal to 255. The count never exceeds the number of
   * cells.
   */
  method CountWhite(tmp: array2<int>) returns (white: nat)
    ensures white == WhiteCells(tmp, tmp.Length0)
    ensures white <= tmp.Length0 * tmp.Length1
  {
    white := 0;
    for x := 0 to tmp.Length0
      invariant white == WhiteCells(tmp, x)
    {
      for y := 0 to tmp.Length1
        invariant white == WhiteCells(tmp, x) + RowWhite(tmp, x, y)
      {
        if tmp[x, y] == White {
          white := white + 1;
        }
      }
    }
  }

  /**
   * `edge_density = float(white_pixels) / (rows * cols)`. An empty crop makes
   * the division raise, which is the `None` result. Otherwise the density is
   * the white share of the cells: between 0 and 1, exactly 1 for an all-white
   * crop and 0 for a crop without white cells.
   */
  method MeasureEdgeDensity(tmp: array2<int>) returns (density: Option<real>)
    ensures density.None? <==> tmp.Length0 == 0 || tmp.Length1 == 0
    ensures density.Some? ==>
              && density.value * (tmp.Length0 * tmp.Length1) as real == WhiteCells(tmp, tmp.Length0) as real
              && 0.0 <= density.value <= 1.0
    ensures density.Some? && AllWhite(tmp) ==> density.value == 1.0
    ensures density.Some? && NoWhite(tmp) ==> density.value == 0.0
  {
    var white := CountWhite(tmp);
    var cells := tmp.Length0 * tmp.Length1;
    if cells == 0 {
      density := None;
    } else {
      if AllWhite(tmp) {
        AllWhiteCount(tmp, tmp.Length0);
      }
      if NoWhite(tmp) {
        NoWhiteCount(tmp, tmp.Length0);
      }
      ShareBounds(white, cells);
      density := Some(white as real / cells as real);
    }
  }

  lemma ShareBounds(part: nat, whole: nat)
    requires 0 < whole && part <= whole
    ensures var d := part as real / whole as real;
            && d * whole as real == part as real
            && 0.0 <= d <= 1.0
            && (part == whole ==> d == 1.0)
            && (part == 0 ==> d == 0.0)
  {
    var d := part as real / whole as real;
    assert d * whole as real == part as real;
    assert (1.0 - d) * whole as real == (whole - part) as real;
  }

  /** The crop is kept only when its density is strictly above one half. */
  predicate DenseEnough(density: real)
  {
    density > DensityThreshold
  }
}
