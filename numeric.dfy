/** Arithmetic over JavaScript numbers, modelled on `real`: sums, the
    simple-statistics `mean`, `Math.max`/`Math.min` of a list,
    `Math.round(x * 10) / 10`, and the library routines the model keeps
    abstract (square root, median, least-squares line). */
module Numeric {

  function Sum(s: seq<real>): real {
    if s == [] then 0.0 else Sum(s[..|s| - 1]) + s[|s| - 1]
  }

  /** `Math.max(...s)` on a non-empty list. */
  function MaxOf(s: seq<real>): (m: real)
    requires |s| > 0
    ensures m in s
    ensures forall i :: 0 <= i < |s| ==> s[i] <= m
  {
    if |s| == 1 then s[0]
    else
      var rest := MaxOf(s[..|s| - 1]);
      if s[|s| - 1] > rest then s[|s| - 1] else rest
  }

  /** `Math.min(...s)` on a non-empty list. */
  function MinOf(s: seq<real>): (m: real)
    requires |s| > 0
    ensures m in s
    ensures forall i :: 0 <= i < |s| ==> m <= s[i]
  {
    if |s| == 1 then s[0]
    else
      var rest := MinOf(s[..|s| - 1]);
      if s[|s| - 1] < rest then s[|s| - 1] else rest
  }

  /** A sum of values in [lo, hi] lies between |s|·lo and |s|·hi. */
  lemma {:induction false} SumBetween(s: seq<real>, lo: real, hi: real)
    requires forall i :: 0 <= i < |s| ==> lo <= s[i] <= hi
    ensures |s| as real * lo <= Sum(s) <= |s| as real * hi
  {
    if s != [] {
      SumBetween(s[..|s| - 1], lo, hi);
    }
  }

  /** The sum of |s| copies of one value. */
  lemma {:induction false} SumConstant(s: seq<real>, c: real)
    requires forall i :: 0 <= i < |s| ==> s[i] == c
    ensures Sum(s) == |s| as real * c
  {
    if s != [] {
      SumConstant(s[..|s| - 1], c);
    }
  }

  /** simple-statistics `mean`; the library throws on an empty list, so
      callers check for emptiness first. */
  function Mean(s: seq<real>): (m: real)
    requires |s| > 0
    ensures MinOf(s) <= m <= MaxOf(s)
  {
    SumBetween(s, MinOf(s), MaxOf(s));
    QuotientBetween(Sum(s), |s| as real, MinOf(s), MaxOf(s));
    Sum(s) / |s| as real
  }

  lemma QuotientBetween(a: real, n: real, lo: real, hi: real)
    requires n > 0.0 && n * lo <= a <= n * hi
    ensures lo <= a / n <= hi
  {
    var q := a / n;
    assert q * n == a;
  }

  lemma SquareNonNegative(x: real)
    ensures x * x >= 0.0
  {
    if x < 0.0 {
      assert (-x) * (-x) == x * x;
    }
  }

  /** The mean of a constant list is that constant. */
  lemma MeanConstant(s: seq<real>, c: real)
    requires |s| > 0
    requires forall i :: 0 <= i < |s| ==> s[i] == c
    ensures Mean(s) == c
  {
    SumConstant(s, c);
  }

  /** `Math.round(x)`: nearest integer, halves rounded up. */
  function Round(x: real): int {
    (x + 0.5).Floor
  }

  /** `Math.round(x * 10) / 10`: one decimal place. */
  function Round1(x: real): (r: real)
    ensures x - 0.05 < r <= x + 0.05
  {
    Round(x * 10.0) as real / 10.0
  }

  /** `Math.round(x * 100) / 100`: two decimal places. */
  function Round2(x: real): (r: real)
    ensures x - 0.005 < r <= x + 0.005
  {
    Round(x * 100.0) as real / 100.0
  }

  lemma Round1Monotone(x: real, y: real)
    requires x <= y
    ensures Round1(x) <= Round1(y)
  {
    assert Round(x * 10.0) <= Round(y * 10.0);
  }

  /** Rounding an exact tenth changes nothing. */
  lemma Round1OfTenths(k: int)
    ensures Round1(k as real / 10.0) == k as real / 10.0
  {
    var x := k as real / 10.0;
    assert x * 10.0 == k as real;
    assert (k as real + 0.5).Floor == k;
  }

  /** `Math.round((count / total) * 100 * 10) / 10`. */
  function Percentage(count: nat, total: nat): (p: real)
    requires total > 0
    ensures count <= total ==> 0.0 <= p <= 100.0
  {
    var exact := (count as real / total as real) * 100.0;
    assert count <= total ==> exact <= 100.0;
    assert count <= total ==> 0.0 <= Round1(exact) <= 100.0 by {
      Round1OfTenths(0);
      Round1OfTenths(1000);
      if count <= total {
        Round1Monotone(0.0, exact);
        Round1Monotone(exact, 100.0);
      }
    }
    Round1(exact)
  }

  /** Population variance (the mean squared deviation from the mean). */
  function Variance(s: seq<real>): (v: real)
    requires |s| > 0
    ensures v >= 0.0
  {
    var mu := Mean(s);
    var squares := seq(|s|, i requires 0 <= i < |s| => (s[i] - mu) * (s[i] - mu));
    MeanOfSquares(s, mu, squares);
    Mean(squares)
  }

  /** The mean of squared deviations is at least its smallest square, which
      is not negative. */
  lemma MeanOfSquares(s: seq<real>, mu: real, squares: seq<real>)
    requires |s| > 0 && |squares| == |s|
    requires forall i :: 0 <= i < |s| ==> squares[i] == (s[i] - mu) * (s[i] - mu)
    ensures Mean(squares) >= 0.0
  {
    var low := MinOf(squares);
    var k :| 0 <= k < |squares| && squares[k] == low;
    var d := s[k] - mu;
    assert low == d * d;
    SquareNonNegative(d);
    assert Mean(squares) >= low;
  }

  /** A least-squares line y = slope·x + intercept. */
  datatype Line = Line(slope: real, intercept: real) {
    function At(x: real): real {
      slope * x + intercept
    }
  }

  /** The library routines whose floating-point results are not modelled:
      `Math.sqrt`, simple-statistics `median`, and `linearRegression` over
      the points (index, value) of a list. */
  datatype Library = Library(
    sqrt: real -> real,
    median: seq<real> -> real,
    linearRegression: seq<real> -> Line)

  /** The only facts about the library the source relies on: the square
      root of zero is zero, of any other non-negative number non-negative. */
  ghost predicate Lawful(lib: Library) {
    && lib.sqrt(0.0) == 0.0
    && forall x :: x >= 0.0 ==> lib.sqrt(x) >= 0.0
  }

  /** simple-statistics `standardDeviation`: the square root of the
      population variance. */
  function StandardDeviation(lib: Library, s: seq<real>): (sd: real)
    requires |s| > 0
    ensures Lawful(lib) ==> sd >= 0.0
  {
    lib.sqrt(Variance(s))
  }

  /** A constant series has no spread. */
  lemma StandardDeviationOfConstant(lib: Library, s: seq<real>, c: real)
    requires Lawful(lib) && |s| > 0
    requires forall i :: 0 <= i < |s| ==> s[i] == c
    ensures StandardDeviation(lib, s) == 0.0
  {
    MeanConstant(s, c);
    var squares := seq(|s|, i requires 0 <= i < |s| => (s[i] - c) * (s[i] - c));
    MeanConstant(squares, 0.0);
  }
}
