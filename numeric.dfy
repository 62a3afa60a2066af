/** `Math.round`, the one-decimal rounding the report uses, and sums over reals. */
module Numeric {

  /** `Math.round(x)`: the integer nearest to `x`, halves rounded up. */
  function Round(x: real): (r: real)
    ensures r == r.Floor as real
    ensures x - 0.5 < r <= x + 0.5
  {
    (x + 0.5).Floor as real
  }

  /** `Math.round(x * 10) / 10`: `x` to one decimal place. */
  function Round1(x: real): (r: real)
    ensures r * 10.0 == (r * 10.0).Floor as real
    ensures x - 0.05 < r <= x + 0.05
  {
    Round(x * 10.0) / 10.0
  }

  /** Rounding never reverses the order of two values. */
  lemma RoundMonotonic(x: real, y: real)
    requires x <= y
    ensures Round(x) <= Round(y)
  {
    assert (x + 0.5).Floor <= (y + 0.5).Floor;
  }

  /** Rounding keeps the sign: never below 0 for a value at least 0, never above 0 for a negative one. */
  lemma RoundSign(x: real)
    ensures x >= 0.0 ==> Round(x) >= 0.0
    ensures x < 0.0 ==> Round(x) <= 0.0
  {
    assert (0.5).Floor == 0;
    if x >= 0.0 { RoundMonotonic(0.0, x); } else { RoundMonotonic(x, 0.0); }
  }

  /** A value that already has one decimal place is left as it is. */
  lemma Round1OfTenths(k: int)
    ensures Round1(k as real / 10.0) == k as real / 10.0
  {
    assert (k as real / 10.0) * 10.0 == k as real;
    assert (k as real + 0.5).Floor == k;
  }

  /** `x` rounds to `k` tenths when `10 * x` lies within half a unit of `k`, halves up. */
  lemma Round1Is(x: real, k: int)
    requires k as real - 0.5 <= x * 10.0 < k as real + 0.5
    ensures Round1(x) == k as real / 10.0
  {
    assert (x * 10.0 + 0.5).Floor == k;
  }

  /** `arr.reduce((a, b) => a + b, 0)`. */
  function Sum(s: seq<real>): real
    decreases |s|
  {
    if s == [] then 0.0 else Sum(s[..|s| - 1]) + s[|s| - 1]
  }

  /** A sum of values between `lo` and `hi` lies between `|s|` times each. */
  lemma {:induction false} SumBounds(s: seq<real>, lo: real, hi: real)
    requires forall i :: 0 <= i < |s| ==> lo <= s[i] <= hi
    ensures |s| as real * lo <= Sum(s) <= |s| as real * hi
    decreases |s|
  {
    if s != [] {
      SumBounds(s[..|s| - 1], lo, hi);
    }
  }

  /** `arr.reduce((a, b) => a + b, 0) / arr.length` over a non-empty list. */
  function Mean(s: seq<real>): real
    requires |s| > 0
  {
    Sum(s) / |s| as real
  }

  /** An average lies between any lower and upper bound of the values. */
  lemma MeanBounds(s: seq<real>, lo: real, hi: real)
    requires |s| > 0
    requires forall i :: 0 <= i < |s| ==> lo <= s[i] <= hi
    ensures lo <= Mean(s) <= hi
  {
    SumBounds(s, lo, hi);
    var n := |s| as real;
    assert Sum(s) / n * n == Sum(s);
  }
}
