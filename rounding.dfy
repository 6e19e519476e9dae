/** Python's `round(x, 2)` as applied to the amounts stored in a history
    record: to the nearest multiple of 0.01, halves going to the even
    neighbour. Values are exact reals here, not binary floats. */
module Rounding {

  function Abs(x: real): real
  {
    if x < 0.0 then -x else x
  }

  /** The integer nearest to y; at an exact half, the even one. */
  function RoundHalfEven(y: real): (k: int)
    ensures Abs(k as real - y) <= 0.5
    ensures Abs(k as real - y) == 0.5 ==> k % 2 == 0
  {
    var f := y.Floor;
    var d := y - f as real;
    if d < 0.5 then f
    else if d > 0.5 then f + 1
    else if f % 2 == 0 then f
    else f + 1
  }

  /** `round(x, 2)`. */
  function Round2(x: real): (v: real)
    ensures Abs(v - x) <= 0.005
    ensures (v * 100.0).Floor as real == v * 100.0
    ensures Abs(v - x) == 0.005 ==> (v * 100.0).Floor % 2 == 0
  {
    var k := RoundHalfEven(x * 100.0);
    CentsNearest(k, x);
    k as real / 100.0
  }

  /** k cents as an amount: a whole number of cents, as near to x as k is
      to x * 100, scaled down a hundredfold. */
  lemma CentsNearest(k: int, x: real)
    requires Abs(k as real - x * 100.0) <= 0.5
    requires Abs(k as real - x * 100.0) == 0.5 ==> k % 2 == 0
    ensures (k as real / 100.0 * 100.0).Floor == k
    ensures Abs(k as real / 100.0 - x) * 100.0 == Abs(k as real - x * 100.0)
  {
    assert k as real / 100.0 * 100.0 == k as real;
  }

  /** No integer is nearer to y than RoundHalfEven(y). */
  lemma RoundHalfEvenIsNearest(y: real, j: int)
    ensures Abs(RoundHalfEven(y) as real - y) <= Abs(j as real - y)
  {
    var k := RoundHalfEven(y);
    if j != k {
      // two distinct integers are at least 1 apart, and k is within 1/2 of y
      assert Abs(j as real - k as real) >= 1.0;
    }
  }

  /** An amount that already has at most two decimals is left unchanged. */
  lemma Round2KeepsCents(cents: int)
    ensures Round2(cents as real / 100.0) == cents as real / 100.0
  {
  }

  /** Rounding twice is rounding once. */
  lemma Round2Idempotent(x: real)
    ensures Round2(Round2(x)) == Round2(x)
  {
    var v := Round2(x);
    var cents := (v * 100.0).Floor;
    assert v == cents as real / 100.0;
    Round2KeepsCents(cents);
  }
}
