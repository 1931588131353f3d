/** Python's `round` with round-half-to-even, taken on exact rationals (`real`) instead of
    binary floating point. */
module Rounding {

  /** `round(y)`: the integer nearest to `y`; a tie goes to the even neighbour. */
  function RoundHalfEven(y: real): (n: int)
    ensures -0.5 <= n as real - y <= 0.5
    ensures (n as real - y == 0.5 || y - n as real == 0.5) ==> n % 2 == 0
  {
    var f := y.Floor;
    var d := y - f as real;
    if d < 0.5 then f
    else if d > 0.5 then f + 1
    else if f % 2 == 0 then f else f + 1
  }

  /** The two properties above pin the result down: no other integer has them. */
  lemma RoundHalfEvenUnique(y: real, m: int)
    requires -0.5 <= m as real - y <= 0.5
    requires (m as real - y == 0.5 || y - m as real == 0.5) ==> m % 2 == 0
    ensures m == RoundHalfEven(y)
  {
  }

  /** `round(x, 2)`: `x` rounded to the nearest multiple of 0.01, ties to even hundredths. */
  function Round2(x: real): (r: real)
    ensures -0.005 <= r - x <= 0.005
  {
    RoundHalfEven(100.0 * x) as real / 100.0
  }

  /** Rounding keeps a value of at least 1 at least 1.00. */
  lemma Round2AtLeastOne(x: real)
    requires x >= 1.0
    ensures Round2(x) >= 1.0
  {
    var n := RoundHalfEven(100.0 * x);
    assert n as real >= 99.5;
    assert n >= 100;
  }

  /** A value that already has two decimals is left as it is; in particular 1.0 stays 1.00. */
  lemma Round2Exact(n: int)
    ensures Round2(n as real / 100.0) == n as real / 100.0
  {
    assert 100.0 * (n as real / 100.0) == n as real;
    RoundHalfEvenUnique(n as real, n);
  }

  /** The ratio `round(float(v) / float(least), 2)` the source computes for a card. */
  function Ratio(v: real, least: int): real
    requires least != 0
  {
    Round2(v / least as real)
  }

  /** Every score at least the (positive) minimum has a ratio of at least 1.00. */
  lemma RatioAtLeastOne(score: int, least: int)
    requires 0 < least <= score
    ensures Ratio(score as real, least) >= 1.0
  {
    var q := score as real / least as real;
    assert q * least as real == score as real;
    assert q >= 1.0;
    Round2AtLeastOne(q);
  }

  /** The card holding the minimum gets exactly 1.00. */
  lemma RatioOfMinimum(least: int)
    requires least != 0
    ensures Ratio(least as real, least) == 1.0
  {
    assert least as real / least as real == 100 as real / 100.0;
    Round2Exact(100);
  }
}
