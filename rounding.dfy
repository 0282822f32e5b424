/** `Math.round(x * 100) / 100` and `Math.round(x * 10) / 10` on exact reals:
    `Math.round` rounds to the nearest integer with halves going up, which is
    `Floor(y + 1/2)`. */
module Rounding {

  /** `x` is a whole number of cents. */
  predicate WholeCents(x: real)
  {
    (x * 100.0).Floor as real == x * 100.0
  }

  /** Rounding to cents. */
  function Round2(x: real): (r: real)
    ensures x - 0.005 < r <= x + 0.005
    ensures WholeCents(r)
  {
    var f := (x * 100.0 + 0.5).Floor;
    assert f as real <= x * 100.0 + 0.5 < f as real + 1.0;
    f as real / 100.0
  }

  /** Rounding to one decimal. */
  function Round1(x: real): (r: real)
    ensures x - 0.05 < r <= x + 0.05
    ensures (r * 10.0).Floor as real == r * 10.0
  {
    var f := (x * 10.0 + 0.5).Floor;
    assert f as real <= x * 10.0 + 0.5 < f as real + 1.0;
    f as real / 10.0
  }

  /** Rounding to cents never reverses the order of two values. */
  lemma Round2Monotone(x: real, y: real)
    requires x <= y
    ensures Round2(x) <= Round2(y)
  {
    assert (x * 100.0 + 0.5).Floor <= (y * 100.0 + 0.5).Floor;
  }

  /** An amount already in whole cents is its own rounding. */
  lemma Round2OfWholeCents(x: real)
    requires WholeCents(x)
    ensures Round2(x) == x
  {
    var f := (x * 100.0).Floor;
    assert (x * 100.0 + 0.5).Floor == f;
  }

  /** Two amounts in whole cents add up to whole cents. */
  lemma WholeCentsAdd(a: real, b: real)
    requires WholeCents(a) && WholeCents(b)
    ensures WholeCents(a + b)
  {
    var m := (a * 100.0).Floor + (b * 100.0).Floor;
    assert (a + b) * 100.0 == m as real;
  }

  /** Rounding twice is rounding once. */
  lemma Round2Idempotent(x: real)
    ensures Round2(Round2(x)) == Round2(x)
  {
    Round2OfWholeCents(Round2(x));
  }

  /** Zero rounds to zero, and a non-negative amount to a non-negative one. */
  lemma Round2NonNegative(x: real)
    requires x >= 0.0
    ensures Round2(x) >= 0.0
    ensures x == 0.0 ==> Round2(x) == 0.0
  {
    assert (x * 100.0 + 0.5).Floor >= 0;
  }

  lemma Round1OfZero()
    ensures Round1(0.0) == 0.0
  {
    assert (0.0 * 10.0 + 0.5).Floor == 0;
  }
}
