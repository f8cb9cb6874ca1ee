/** `calculateCorrelation`: Pearson's correlation coefficient of two
    series, over as many leading pairs as the shorter one has. */
module Correlation {
  import opened Numeric

  /** The sum of (x[i] - mx)·(y[i] - my) over paired series. */
  function CoSum(x: seq<real>, y: seq<real>, mx: real, my: real): real
    requires |x| == |y|
  {
    if x == [] then 0.0
    else CoSum(x[..|x| - 1], y[..|y| - 1], mx, my) + (x[|x| - 1] - mx) * (y[|y| - 1] - my)
  }

  /** One more pair adds its product of deviations. */
  lemma CoSumStep(x: seq<real>, y: seq<real>, mx: real, my: real, i: nat)
    requires i < |x| && i < |y|
    ensures CoSum(x[..i + 1], y[..i + 1], mx, my) == CoSum(x[..i], y[..i], mx, my) + (x[i] - mx) * (y[i] - my)
  {
    assert x[..i + 1][..i] == x[..i] && y[..i + 1][..i] == y[..i];
  }

  function Min(a: nat, b: nat): (m: nat)
    ensures m <= a && m <= b && (m == a || m == b)
  {
    if a < b then a else b
  }

  /** `numerator / Math.sqrt(denomX * denomY)`, or `0` when that root is
      `0`. */
  function Ratio(lib: Library, numerator: real, denomX: real, denomY: real): real {
    var denom := lib.sqrt(denomX * denomY);
    if denom == 0.0 then 0.0 else numerator / denom
  }

  /** The coefficient over the first n = min(|x|, |y|) pairs, with `0`
      when the denominator is `0` (a series without spread). */
  function CorrelationOf(lib: Library, x: seq<real>, y: seq<real>): real
    requires |x| > 0 && |y| > 0
  {
    var n := Min(|x|, |y|);
    var xs, ys := x[..n], y[..n];
    var mx, my := Mean(xs), Mean(ys);
    Ratio(lib, CoSum(xs, ys, mx, my), CoSum(xs, xs, mx, mx), CoSum(ys, ys, my, my))
  }

  /** The accumulating loop of `calculateCorrelation` over the paired
      series: numerator, and the two sums of squared deviations. */
  method Accumulate(x: seq<real>, y: seq<real>, meanX: real, meanY: real) returns (numerator: real, denomX: real, denomY: real)
    requires |x| == |y|
    ensures numerator == CoSum(x, y, meanX, meanY)
    ensures denomX == CoSum(x, x, meanX, meanX)
    ensures denomY == CoSum(y, y, meanY, meanY)
  {
    numerator, denomX, denomY := 0.0, 0.0, 0.0;
    for i := 0 to |x|
      invariant numerator == CoSum(x[..i], y[..i], meanX, meanY)
      invariant denomX == CoSum(x[..i], x[..i], meanX, meanX)
      invariant denomY == CoSum(y[..i], y[..i], meanY, meanY)
    {
      CoSumStep(x, y, meanX, meanY, i);
      CoSumStep(x, x, meanX, meanX, i);
      CoSumStep(y, y, meanY, meanY, i);
      var diffX := x[i] - meanX;
      var diffY := y[i] - meanY;
      numerator := numerator + diffX * diffY;
      denomX := denomX + diffX * diffX;
      denomY := denomY + diffY * diffY;
    }
    assert x[..|x|] == x && y[..|y|] == y;
  }

  /** `calculateCorrelation(x, y)`. */
  method Correlate(lib: Library, x: seq<real>, y: seq<real>) returns (c: real)
    requires |x| > 0 && |y| > 0
    ensures c == CorrelationOf(lib, x, y)
  {
    var n := Min(|x|, |y|);
    var meanX := Mean(x[..n]);
    var meanY := Mean(y[..n]);
    var numerator, denomX, denomY := Accumulate(x[..n], y[..n], meanX, meanY);
    c := Ratio(lib, numerator, denomX, denomY);
    assert c == Ratio(lib, CoSum(x[..n], y[..n], meanX, meanY), CoSum(x[..n], x[..n], meanX, meanX), CoSum(y[..n], y[..n], meanY, meanY));
  }

  /** A sum of squared deviations is never negative. */
  lemma {:induction false} CoSumSquares(x: seq<real>, m: real)
    ensures CoSum(x, x, m, m) >= 0.0
  {
    if x != [] {
      CoSumSquares(x[..|x| - 1], m);
      SquareNonNegative(x[|x| - 1] - m);
    }
  }

  lemma {:induction false} CoSumSwap(x: seq<real>, y: seq<real>, mx: real, my: real)
    requires |x| == |y|
    ensures CoSum(x, y, mx, my) == CoSum(y, x, my, mx)
  {
    if x != [] {
      CoSumSwap(x[..|x| - 1], y[..|y| - 1], mx, my);
    }
  }

  /** Deviations from a constant series' own value sum to nothing. */
  lemma {:induction false} CoSumCentred(x: seq<real>, y: seq<real>, mx: real, my: real)
    requires |x| == |y|
    requires forall i :: 0 <= i < |x| ==> x[i] == mx
    ensures CoSum(x, y, mx, my) == 0.0
  {
    if x != [] {
      CoSumCentred(x[..|x| - 1], y[..|y| - 1], mx, my);
    }
  }

  /** The coefficient does not depend on which series comes first. */
  lemma CorrelationSymmetric(lib: Library, x: seq<real>, y: seq<real>)
    requires |x| > 0 && |y| > 0
    ensures CorrelationOf(lib, x, y) == CorrelationOf(lib, y, x)
  {
    var n := Min(|x|, |y|);
    var xs, ys := x[..n], y[..n];
    CoSumSwap(xs, ys, Mean(xs), Mean(ys));
    var a, c := CoSum(xs, xs, Mean(xs), Mean(xs)), CoSum(ys, ys, Mean(ys), Mean(ys));
    assert a * c == c * a;
    assert CorrelationOf(lib, x, y) == Ratio(lib, CoSum(xs, ys, Mean(xs), Mean(ys)), a, c);
    assert CorrelationOf(lib, y, x) == Ratio(lib, CoSum(ys, xs, Mean(ys), Mean(xs)), c, a);
  }

  /** A series that never changes correlates with nothing: the coefficient
      is `0`, not a division by zero. */
  lemma CorrelationOfConstant(lib: Library, x: seq<real>, y: seq<real>)
    requires Lawful(lib)
    requires |x| > 0 && |y| > 0
    requires forall i :: 0 <= i < Min(|x|, |y|) ==> x[i] == x[0]
    ensures CorrelationOf(lib, x, y) == 0.0
  {
    var n := Min(|x|, |y|);
    var xs, ys := x[..n], y[..n];
    MeanConstant(xs, x[0]);
    CoSumCentred(xs, xs, x[0], x[0]);
    var c := CoSum(ys, ys, Mean(ys), Mean(ys));
    assert 0.0 * c == 0.0;
  }

  /** Either compared prefix has no spread: all its values equal its mean. */
  predicate NoSpread(x: seq<real>, y: seq<real>)
    requires |x| > 0 && |y| > 0
  {
    var n := Min(|x|, |y|);
    var xs, ys := x[..n], y[..n];
    CoSum(xs, xs, Mean(xs), Mean(xs)) == 0.0 || CoSum(ys, ys, Mean(ys), Mean(ys)) == 0.0
  }

  /** When either sum of squared deviations is zero, so that
      `denomX * denomY` is zero, the coefficient is `0`, never a division
      by zero. */
  lemma CorrelationZeroDenominator(lib: Library, x: seq<real>, y: seq<real>)
    requires Lawful(lib)
    requires |x| > 0 && |y| > 0 && NoSpread(x, y)
    ensures CorrelationOf(lib, x, y) == 0.0
  {
    var n := Min(|x|, |y|);
    var xs, ys := x[..n], y[..n];
    var mx, my := Mean(xs), Mean(ys);
    var a, c := CoSum(xs, xs, mx, mx), CoSum(ys, ys, my, my);
    assert CorrelationOf(lib, x, y) == Ratio(lib, CoSum(xs, ys, mx, my), a, c);
    if a == 0.0 {
      assert a * c == 0.0;
    } else {
      assert a * c == 0.0;
    }
  }
}
