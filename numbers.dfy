/** Exact-real stand-ins for the floating-point arithmetic of the source:
    `round(x, 2)` and percentages of a total. */
module Numbers {

  /** `round(x, 2)`, taken as round-half-up on exact reals. */
  function Round2(x: real): real {
    ((x * 100.0 + 0.5).Floor as real) / 100.0
  }

  lemma Round2Bounds(x: real)
    requires 0.0 <= x <= 100.0
    ensures 0.0 <= Round2(x) <= 100.0
  {
    var f := (x * 100.0 + 0.5).Floor;
    assert 0 <= f <= 10000;
  }

  /** Rounding is monotone. */
  lemma Round2Mono(x: real, y: real)
    requires x <= y
    ensures Round2(x) <= Round2(y)
  {
    assert (x * 100.0 + 0.5).Floor <= (y * 100.0 + 0.5).Floor;
  }

  /** The rounded value is within half a unit of the last kept digit. */
  lemma Round2Close(x: real)
    ensures x - 0.005 < Round2(x) <= x + 0.005
  {
    var f := (x * 100.0 + 0.5).Floor;
    assert f as real <= x * 100.0 + 0.5 < f as real + 1.0;
  }

  /** A rounded percentage passes the `>= 0.05` cut exactly when the exact value is at least 0.045. */
  lemma Round2Threshold(x: real)
    ensures Round2(x) >= 0.05 <==> x >= 0.045
  {
    var f := (x * 100.0 + 0.5).Floor;
    assert f as real <= x * 100.0 + 0.5 < f as real + 1.0;
    if x >= 0.045 {
      assert x * 100.0 + 0.5 >= 5.0;
      assert f >= 5;
    }
    if f >= 5 {
      assert x * 100.0 + 0.5 >= 5.0;
    }
  }

  /** `part / whole * 100`. */
  function Percent(part: real, whole: real): real
    requires whole > 0.0
  {
    part / whole * 100.0
  }

  lemma PercentBounds(part: real, whole: real)
    requires whole > 0.0 && 0.0 <= part <= whole
    ensures 0.0 <= Percent(part, whole) <= 100.0
  {
    assert part / whole <= 1.0 by {
      assert part / whole * whole == part;
    }
  }

  lemma PercentMono(a: real, b: real, whole: real)
    requires whole > 0.0 && a <= b
    ensures Percent(a, whole) <= Percent(b, whole)
  {
    assert b / whole - a / whole == (b - a) / whole;
  }

  /** A quotient by a positive divisor keeps the bounds of the dividend divided. */
  lemma DivBetween(lo: real, sum: real, hi: real, n: real)
    requires n > 0.0 && lo * n <= sum <= hi * n
    ensures lo <= sum / n <= hi
  {
    assert (sum / n) * n == sum;
  }

  /** Shares of one whole add up. */
  lemma PercentAdd(a: real, b: real, whole: real)
    requires whole > 0.0
    ensures Percent(a, whole) + Percent(b, whole) == Percent(a + b, whole)
  {
    assert a / whole + b / whole == (a + b) / whole;
  }

  lemma PercentWhole(whole: real)
    requires whole > 0.0
    ensures Percent(whole, whole) == 100.0
  {
  }
}
