/** BigDecimal values as exact rationals, and `setScale(2, HALF_UP)`:
    rounding to the nearest hundredth, halves away from zero. */
module Decimal {

  /** The rounded value in hundredths. */
  function Cents(x: real): (c: int)
  {
    if x >= 0.0 then (x * 100.0 + 0.5).Floor else -((-x * 100.0 + 0.5).Floor)
  }

  /** `setScale(2, RoundingMode.HALF_UP)`: a whole number of hundredths
      within half a hundredth of `x`, an exact half going away from zero. */
  function Round2(x: real): (r: real)
    ensures x >= 0.0 ==> r - 0.005 <= x < r + 0.005
    ensures x < 0.0 ==> r - 0.005 < x <= r + 0.005
    ensures (r * 100.0).Floor as real == r * 100.0
  {
    CentsIsNearest(x);
    Cents(x) as real / 100.0
  }

  /** The result is within half a hundredth of the input, and an exact half
      goes away from zero. */
  lemma CentsIsNearest(x: real)
    ensures x >= 0.0 ==> Cents(x) as real - 0.5 <= x * 100.0 < Cents(x) as real + 0.5
    ensures x < 0.0 ==> Cents(x) as real - 0.5 < x * 100.0 <= Cents(x) as real + 0.5
  {
  }

  /** Rounding is symmetric about zero. */
  lemma CentsOdd(x: real)
    ensures Cents(-x) == -Cents(x)
  {
    if x == 0.0 {
      assert -x == 0.0;
    }
  }

  /** Rounding never reverses an order. */
  lemma CentsMonotone(x: real, y: real)
    requires x <= y
    ensures Cents(x) <= Cents(y)
  {
    if x < 0.0 && y >= 0.0 {
      assert Cents(x) <= 0 && Cents(y) >= 0;
    } else if x < 0.0 {
      assert (-y * 100.0 + 0.5).Floor <= (-x * 100.0 + 0.5).Floor;
    }
  }

  /** A value that already has two decimals is left as it is, so rounding
      twice is rounding once. */
  lemma CentsOfCents(k: int)
    ensures Cents(k as real / 100.0) == k
  {
    var x := k as real / 100.0;
    assert x * 100.0 == k as real;
  }

  lemma Round2Idempotent(x: real)
    ensures Round2(Round2(x)) == Round2(x)
  {
    CentsOfCents(Cents(x));
  }

  lemma Round2Monotone(x: real, y: real)
    requires x <= y
    ensures Round2(x) <= Round2(y)
  {
    CentsMonotone(x, y);
  }
}
