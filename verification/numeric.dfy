/**
 * Exact arithmetic on scores. Scores are reals, not floating point; JavaScript's
 * `Math.round` is `Floor(x + 0.5)`.
 */
module Numeric {

  /** `Math.round(x)`: halves round up. */
  function Round(x: real): (r: int)
    ensures r as real <= x + 0.5 < r as real + 1.0
  {
    (x + 0.5).Floor
  }

  /** A percentage in [0, 100] rounds to an integer in [0, 100]. */
  lemma RoundPercent(x: real)
    requires 0.0 <= x <= 100.0
    ensures 0 <= Round(x) <= 100
  {
  }

  /** `Math.round(correct / total * 100)` lies in [0, 100] whenever correct <= total. */
  lemma RoundRatioPercent(correct: nat, total: nat)
    requires 0 < total && correct <= total
    ensures 0 <= Round(correct as real / total as real * 100.0) <= 100
  {
    var q := correct as real / total as real;
    assert q * total as real == correct as real;
    assert 0.0 <= q <= 1.0;
    RoundPercent(q * 100.0);
  }

  /** `Math.round(correct / total * 100)`: the share correct as a whole percentage. */
  function Percent(correct: nat, total: nat): (r: int)
    requires 0 < total
    ensures correct <= total ==> 0 <= r <= 100
    ensures correct == total ==> r == 100
    ensures correct == 0 ==> r == 0
  {
    if correct <= total then
      RoundRatioPercent(correct, total);
      RatioAtMostOne(correct, total);
      Round(correct as real / total as real * 100.0)
    else Round(correct as real / total as real * 100.0)
  }

  /** A ratio of naturals `a / b` with `a <= b` lies in [0, 1], and is 1 only when `a == b`. */
  lemma RatioAtMostOne(a: nat, b: nat)
    requires 0 < b && a <= b
    ensures 0.0 <= a as real / b as real <= 1.0
    ensures a as real / b as real == 1.0 <==> a == b
  {
    var q := a as real / b as real;
    assert q * b as real == a as real;
  }

  /** Python's `sum` over a list of numbers. */
  function Sum(s: seq<real>): real {
    if s == [] then 0.0 else Sum(s[..|s| - 1]) + s[|s| - 1]
  }

  lemma SumAppend(s: seq<real>, x: real)
    ensures Sum(s + [x]) == Sum(s) + x
  {
    assert (s + [x])[..|s|] == s;
  }

  /** The arithmetic mean, and 0 for no values. */
  function Mean(s: seq<real>): real {
    if s == [] then 0.0 else Sum(s) / |s| as real
  }

  /** Values all within [lo, hi] have their sum within [n*lo, n*hi]. */
  lemma {:induction false} SumBetween(s: seq<real>, lo: real, hi: real)
    requires forall i :: 0 <= i < |s| ==> lo <= s[i] <= hi
    ensures |s| as real * lo <= Sum(s) <= |s| as real * hi
  {
    if s != [] {
      SumBetween(s[..|s| - 1], lo, hi);
    }
  }

  /** The mean of values within [lo, hi] lies within [lo, hi]. */
  lemma MeanBetween(s: seq<real>, lo: real, hi: real)
    requires s != []
    requires forall i :: 0 <= i < |s| ==> lo <= s[i] <= hi
    ensures lo <= Mean(s) <= hi
  {
    SumBetween(s, lo, hi);
    var n := |s| as real;
    assert Mean(s) * n == Sum(s);
  }

  /** `round(x, 3)`, with halves rounded up. */
  function Round3(x: real): (r: real)
    ensures x - 0.0005 < r <= x + 0.0005
  {
    Round(x * 1000.0) as real / 1000.0
  }
}
