/** Pearson correlation, written twice in the source: over pairs (src/research/ic.rs) and over
    two slices (src/portfolio/correlation.rs). Square root is a parameter. */
module Correlation {
  import opened Reals
  import opened Statistics

  function Firsts(obs: seq<(real, real)>): (r: seq<real>)
    ensures |r| == |obs|
  {
    seq(|obs|, i requires 0 <= i < |obs| => obs[i].0)
  }

  function Seconds(obs: seq<(real, real)>): (r: seq<real>)
    ensures |r| == |obs|
  {
    seq(|obs|, i requires 0 <= i < |obs| => obs[i].1)
  }

  function Shorter(a: seq<real>, b: seq<real>): nat { if |a| < |b| then |a| else |b| }

  /** Pairs up to the end of the shorter sequence. */
  function Zip(a: seq<real>, b: seq<real>): (r: seq<(real, real)>)
    ensures |r| == Shorter(a, b)
  {
    seq(Shorter(a, b), i requires 0 <= i < Shorter(a, b) => (a[i], b[i]))
  }

  /** Both copies end alike: no value without spread, else the quotient clamped to [-1, 1]. */
  function Ratio(cov: real, denom: real): Option<real> {
    if denom <= 0.0 then None else Some(Clamp(cov / denom, -1.0, 1.0))
  }

  /** src/research/ic.rs */
  function Pearson(obs: seq<(real, real)>, sqrt: real -> real): Option<real>
  {
    if |obs| < 3 then None
    else
      var s, r := Firsts(obs), Seconds(obs);
      Ratio(Covariance(s, r), Times(sqrt(Variance(s)), sqrt(Variance(r))))
  }

  /** src/portfolio/correlation.rs */
  function PearsonCorrelation(a: seq<real>, b: seq<real>, sqrt: real -> real): Option<real>
  {
    var n := Shorter(a, b);
    if n < 3 then None
    else
      Ratio(Covariance(a[..n], b[..n]), Times(sqrt(Variance(a[..n])), sqrt(Variance(b[..n]))))
  }

  /** The two implementations agree: on any two slices, the one over slices gives what the one over pairs gives
      for them zipped, the longer slice cut to the shorter. */
  lemma ImplementationsAgree(a: seq<real>, b: seq<real>, sqrt: real -> real)
    ensures PearsonCorrelation(a, b, sqrt) == Pearson(Zip(a, b), sqrt)
  {
    hide Variance, Covariance, Ratio, Times;
    var n := Shorter(a, b);
    assert a[..n] == Firsts(Zip(a, b)) && b[..n] == Seconds(Zip(a, b));
  }

  // ---- Cauchy-Schwarz ----

  /** The squared distance between b*x and c*y. */
  ghost function Residual(x: seq<real>, y: seq<real>, b: real, c: real): real
    requires |x| == |y|
  {
    if |x| == 0 then 0.0
    else
      var d := Times(b, x[|x| - 1]) - Times(c, y[|y| - 1]);
      Residual(x[..|x| - 1], y[..|y| - 1], b, c) + Times(d, d)
  }

  lemma {:induction false} ResidualSign(x: seq<real>, y: seq<real>, b: real, c: real)
    requires |x| == |y|
    ensures Residual(x, y, b, c) >= 0.0
    ensures Residual(x, y, b, c) == 0.0 ==> Proportional(x, y, b, c)
  {
    if |x| > 0 {
      hide Times;
      var k := |x| - 1;
      ResidualSign(x[..k], y[..k], b, c);
      SquareSign(Times(b, x[k]) - Times(c, y[k]));
      forall i | Residual(x, y, b, c) == 0.0 && 0 <= i < |x| ensures Times(b, x[i]) == Times(c, y[i]) {
        if i < k { assert x[..k][i] == x[i] && y[..k][i] == y[i]; }
      }
    }
  }

  lemma Binomial(b: real, c: real, x: real, y: real)
    ensures Times(Times(b, x) - Times(c, y), Times(b, x) - Times(c, y))
         == Times(b * b, Times(x, x)) - Times(2.0 * b * c, Times(x, y)) + Times(c * c, Times(y, y))
  {
    assert (b * x - c * y) * (b * x - c * y) == (b * x) * (b * x) - 2.0 * ((b * x) * (c * y)) + (c * y) * (c * y);
    assert (b * x) * (b * x) == (b * b) * (x * x);
    assert (c * y) * (c * y) == (c * c) * (y * y);
    assert (b * x) * (c * y) == (b * c) * (x * y);
  }

  lemma {:induction false} ResidualExpand(x: seq<real>, y: seq<real>, b: real, c: real)
    requires |x| == |y|
    ensures Residual(x, y, b, c)
         == Times(b * b, Dot(x, x)) - Times(2.0 * b * c, Dot(x, y)) + Times(c * c, Dot(y, y))
  {
    if |x| == 0 {
    } else {
      hide Times;
      var k := |x| - 1;
      ResidualExpand(x[..k], y[..k], b, c);
      Binomial(b, c, x[k], y[k]);
      TimesDistributes(Dot(x[..k], x[..k]), Times(x[k], x[k]), b * b);
      TimesDistributes(Dot(x[..k], y[..k]), Times(x[k], y[k]), 2.0 * b * c);
      TimesDistributes(Dot(y[..k], y[..k]), Times(y[k], y[k]), c * c);
    }
  }

  lemma {:induction false} DotSign(x: seq<real>)
    ensures Dot(x, x) >= 0.0
    ensures Dot(x, x) == 0.0 ==> forall i :: 0 <= i < |x| ==> x[i] == 0.0
  {
    if |x| > 0 {
      hide Times;
      var k := |x| - 1;
      DotSign(x[..k]);
      SquareSign(x[k]);
      forall i | Dot(x, x) == 0.0 && 0 <= i < |x| ensures x[i] == 0.0 {
        if i < k { assert x[..k][i] == x[i]; }
      }
    }
  }

  lemma {:induction false} DotZero(x: seq<real>, y: seq<real>)
    requires |x| == |y| && forall i :: 0 <= i < |x| ==> x[i] == 0.0
    ensures Dot(x, y) == 0.0
  {
    if |x| > 0 { DotZero(x[..|x| - 1], y[..|y| - 1]); }
  }

  lemma Discriminant(a: real, b: real, c: real, residual: real)
    requires a > 0.0 && residual >= 0.0
    requires residual == Times(c * c, a) - Times(2.0 * c * a, c) + Times(a * a, b)
    ensures Times(c, c) <= Times(a, b)
    ensures Times(c, c) == Times(a, b) ==> residual == 0.0
  {
    assert residual == a * (a * b - c * c);
    if c * c > a * b { MulPositive(a, c * c - a * b); }
  }

  /** c*x equals a*y everywhere. */
  ghost predicate Proportional(x: seq<real>, y: seq<real>, c: real, a: real) {
    |x| == |y| && forall i :: 0 <= i < |x| ==> Times(c, x[i]) == Times(a, y[i])
  }

  /** (x.y)^2 <= (x.x)(y.y); with equality and x nonzero, y is a multiple of x. */
  lemma CauchySchwarz(x: seq<real>, y: seq<real>)
    requires |x| == |y|
    ensures Times(Dot(x, y), Dot(x, y)) <= Times(Dot(x, x), Dot(y, y))
    ensures Times(Dot(x, y), Dot(x, y)) == Times(Dot(x, x), Dot(y, y)) ==> Proportional(x, y, Dot(x, y), Dot(x, x))
  {
    hide Times, Residual, Dot, Proportional;
    var a, b, c := Dot(x, x), Dot(y, y), Dot(x, y);
    if a == 0.0 {
      VanishingSide(x, y);
    } else {
      DotSign(x);
      ResidualSign(x, y, c, a);
      ResidualExpand(x, y, c, a);
      Discriminant(a, b, c, Residual(x, y, c, a));
    }
  }

  lemma VanishingSide(x: seq<real>, y: seq<real>)
    requires |x| == |y| && Dot(x, x) == 0.0
    ensures Dot(x, y) == 0.0 && Times(Dot(x, y), Dot(x, y)) == Times(Dot(x, x), Dot(y, y))
    ensures Proportional(x, y, Dot(x, y), Dot(x, x))
  {
    DotSign(x);
    DotZero(x, y);
    hide Dot, Times;
    TimesZero(0.0);
    TimesZero(Dot(y, y));
  }

  // ---- What the coefficient is ----

  lemma CovarianceBound(s: seq<real>, r: seq<real>)
    requires |s| == |r| > 0
    ensures Variance(s) >= 0.0
    ensures Times(Covariance(s, r), Covariance(s, r)) <= Times(Variance(s), Variance(r))
  {
    var x, y, n := Deviations(s), Deviations(r), |s| as real;
    CauchySchwarz(x, y);
    DotSign(x);
    hide Dot, Deviations;
    MeansOrder(Dot(x, y), Dot(x, x), Dot(y, y), n);
  }

  lemma MeansOrder(c: real, a: real, b: real, n: real)
    requires n > 0.0
    ensures Times(n, n) > 0.0
    ensures Times(c / n, c / n) == Times(c, c) / Times(n, n)
    ensures Times(a / n, b / n) == Times(a, b) / Times(n, n)
    ensures Times(c, c) <= Times(a, b) ==> Times(c / n, c / n) <= Times(a / n, b / n)
  {
    TimesSign(n, n);
    QuotientProduct(c, c, n);
    QuotientProduct(a, b, n);
    hide Times;
    if Times(c, c) <= Times(a, b) { DivMonotone(Times(c, c), Times(a, b), Times(n, n)); }
  }

  lemma QuotientProduct(a: real, b: real, n: real)
    requires n > 0.0 && Times(n, n) > 0.0
    ensures Times(a / n, b / n) == Times(a, b) / Times(n, n)
  {
    var u, v, z := a / n, b / n, Times(n, n);
    assert u * n == a && v * n == b;
    assert (u * v) * z == (u * n) * (v * n);
    QuotientOf(Times(u, v), z, Times(a, b));
  }

  lemma QuotientOf(x: real, z: real, y: real)
    requires z > 0.0 && x * z == y
    ensures y / z == x
  {
  }

  lemma RootProduct(p: real, q: real, u: real, v: real)
    requires p >= 0.0 && q >= 0.0 && p * p == u && q * q == v
    ensures Times(p, q) >= 0.0 && Times(Times(p, q), Times(p, q)) == Times(u, v)
    ensures Times(p, q) == 0.0 <==> u == 0.0 || v == 0.0
  {
    assert (p * q) * (p * q) == (p * p) * (q * q);
    if u != 0.0 && v != 0.0 { MulPositive(p, q); }
  }

  lemma QuotientClamp(cov: real, denom: real)
    requires denom > 0.0 && -denom <= cov <= denom
    ensures Clamp(cov / denom, -1.0, 1.0) == cov / denom
    ensures Times(cov / denom, denom) == cov
    ensures cov / denom == 1.0 <==> cov == denom
    ensures cov / denom == -1.0 <==> cov == -denom
  {
    var q := cov / denom;
    assert Times(q, denom) == cov;
    if q > 1.0 { MulPositive(q - 1.0, denom); }
    if q < -1.0 { MulPositive(-1.0 - q, denom); }
  }

  /** The clamp never changes the exact value, and there is no value exactly when a side has no spread. */
  lemma ClampIdle(obs: seq<(real, real)>, sqrt: real -> real)
    requires |obs| >= 3 && IsSqrt(sqrt)
    ensures var s, r := Firsts(obs), Seconds(obs);
      var denom := Times(sqrt(Variance(s)), sqrt(Variance(r)));
      && (Pearson(obs, sqrt) == None <==> Variance(s) == 0.0 || Variance(r) == 0.0)
      && Times(denom, denom) == Times(Variance(s), Variance(r))
      && (Pearson(obs, sqrt) != None ==>
            && denom > 0.0
            && Pearson(obs, sqrt).value == Covariance(s, r) / denom
            && (Pearson(obs, sqrt) == Some(1.0) <==> Covariance(s, r) == denom)
            && (Pearson(obs, sqrt) == Some(-1.0) <==> Covariance(s, r) == -denom))
  {
    var s, r := Firsts(obs), Seconds(obs);
    CovarianceBound(s, r);
    CovarianceBound(r, s);
    hide Covariance, Times;
    var p, q, c := sqrt(Variance(s)), sqrt(Variance(r)), Covariance(s, r);
    hide Variance;
    RootProduct(p, q, Variance(s), Variance(r));
    SquareOrderTimes(c, Times(p, q));
    if Times(p, q) > 0.0 { QuotientClamp(c, Times(p, q)); }
  }

  lemma SquareOrderTimes(a: real, b: real)
    requires b >= 0.0 && Times(a, a) <= Times(b, b)
    ensures -b <= a <= b
  {
    SquareOrder(a, b);
  }

  /** r is an affine function of s, rising for positive `slope` and falling for negative. */
  ghost predicate Affine(s: seq<real>, r: seq<real>, slope: real, intercept: real) {
    |s| == |r| && forall i :: 0 <= i < |s| ==> r[i] == Times(slope, s[i]) + intercept
  }

  lemma {:induction false} SumAffine(s: seq<real>, r: seq<real>, slope: real, intercept: real)
    requires Affine(s, r, slope, intercept)
    ensures Sum(r) == Times(slope, Sum(s)) + Times(intercept, |s| as real)
  {
    hide Times;
    if |s| == 0 {
      TimesZero(slope);
      TimesZero(intercept);
    } else {
      var k := |s| - 1;
      SumAffine(s[..k], r[..k], slope, intercept);
      TimesDistributes(Sum(s[..k]), s[k], slope);
      TimesDistributes(k as real, 1.0, intercept);
      TimesUnit(intercept);
    }
  }

  lemma TimesUnit(a: real)
    ensures Times(a, 1.0) == a && Times(1.0, a) == a
  {
  }

  lemma MeanAffine(s: seq<real>, r: seq<real>, slope: real, intercept: real)
    requires |s| > 0 && Affine(s, r, slope, intercept)
    ensures Scaled(Deviations(s), Deviations(r), slope)
  {
    SumAffine(s, r, slope, intercept);
    var n := |s| as real;
    QuotientSplit(slope, Sum(s), intercept, n);
    assert Mean(r) == Times(slope, Mean(s)) + intercept;
    hide Times, Sum;
    forall i | 0 <= i < |s| ensures Deviations(r)[i] == Times(slope, Deviations(s)[i]) {
      TimesSubtract(slope, s[i], Mean(s));
    }
  }

  lemma QuotientSplit(slope: real, sum: real, intercept: real, n: real)
    requires n > 0.0
    ensures (Times(slope, sum) + Times(intercept, n)) / n == Times(slope, sum / n) + intercept
  {
    var m := sum / n;
    assert m * n == sum;
    assert (slope * m + intercept) * n == slope * sum + intercept * n;
  }

  lemma TimesSubtract(c: real, a: real, b: real)
    ensures Times(c, a - b) == Times(c, a) - Times(c, b)
  {
  }

  lemma {:induction false} DotScaled(x: seq<real>, y: seq<real>, c: real)
    requires Scaled(x, y, c)
    ensures Dot(x, y) == Times(c, Dot(x, x))
    ensures Dot(y, y) == Times(Times(c, c), Dot(x, x))
  {
    hide Times;
    if |x| == 0 {
      TimesZero(c);
      TimesZero(Times(c, c));
    } else {
      var k := |x| - 1;
      DotScaled(x[..k], y[..k], c);
      TimesDistributes(Dot(x[..k], x[..k]), Times(x[k], x[k]), c);
      TimesDistributes(Dot(x[..k], x[..k]), Times(x[k], x[k]), Times(c, c));
      ScaledProducts(c, x[k]);
    }
  }

  lemma ScaledProducts(c: real, x: real)
    ensures Times(x, Times(c, x)) == Times(c, Times(x, x))
    ensures Times(Times(c, x), Times(c, x)) == Times(Times(c, c), Times(x, x))
  {
    assert x * (c * x) == c * (x * x);
    assert (c * x) * (c * x) == (c * c) * (x * x);
  }

  lemma QuotientTimes(c: real, a: real, n: real)
    requires n > 0.0
    ensures Times(c, a) / n == Times(c, a / n)
  {
    assert (a / n) * n == a;
    assert (c * (a / n)) * n == c * a;
  }

  /** With a positive slope the covariance is the positive root of the product of the variances. */
  lemma AffineExact(c: real, v: real, denom: real)
    requires v > 0.0 && denom > 0.0 && Times(denom, denom) == Times(v, Times(Times(c, c), v))
    ensures c > 0.0 ==> Times(c, v) == denom
    ensures c < 0.0 ==> Times(c, v) == -denom
  {
    var w := if c > 0.0 then c * v else -c * v;
    assert w * w == v * ((c * c) * v);
    if c > 0.0 { MulPositive(c, v); SquareOrder(w, denom); SquareOrder(denom, w); }
    if c < 0.0 { MulPositive(-c, v); SquareOrder(w, denom); SquareOrder(denom, w); }
  }

  /** Exact affine dependence gives exactly +1 or -1, by the sign of the slope. */
  lemma AffineIsPerfect(obs: seq<(real, real)>, sqrt: real -> real, slope: real, intercept: real)
    requires |obs| >= 3 && IsSqrt(sqrt) && Variance(Firsts(obs)) > 0.0 && slope != 0.0
    requires Affine(Firsts(obs), Seconds(obs), slope, intercept)
    ensures Pearson(obs, sqrt) == Some(if slope > 0.0 then 1.0 else -1.0)
  {
    var s, r := Firsts(obs), Seconds(obs);
    var x, y, n := Deviations(s), Deviations(r), |s| as real;
    MeanAffine(s, r, slope, intercept);
    DotScaled(x, y, slope);
    QuotientTimes(slope, Dot(x, x), n);
    QuotientTimes(Times(slope, slope), Dot(x, x), n);
    assert Covariance(s, r) == Times(slope, Variance(s));
    assert Variance(r) == Times(Times(slope, slope), Variance(s));
    ClampIdle(obs, sqrt);
    hide Covariance, Pearson, Times, Variance;
    NonZeroVariance(slope, Variance(s));
    var denom := Times(sqrt(Variance(s)), sqrt(Variance(r)));
    AffineExact(slope, Variance(s), denom);
  }

  lemma NonZeroVariance(c: real, v: real)
    requires c != 0.0 && v > 0.0
    ensures Times(Times(c, c), v) != 0.0
  {
    SquareSign(c);
    MulPositive(c * c, v);
  }

  /** Conversely, a coefficient of exactly +1 or -1 means exact affine dependence with that sign of slope. */
  lemma PerfectIsAffine(obs: seq<(real, real)>, sqrt: real -> real)
    returns (slope: real, intercept: real)
    requires |obs| >= 3 && IsSqrt(sqrt)
    requires Pearson(obs, sqrt) == Some(1.0) || Pearson(obs, sqrt) == Some(-1.0)
    ensures Affine(Firsts(obs), Seconds(obs), slope, intercept)
    ensures Pearson(obs, sqrt) == Some(1.0) ==> slope > 0.0
    ensures Pearson(obs, sqrt) == Some(-1.0) ==> slope < 0.0
  {
    var s, r := Firsts(obs), Seconds(obs);
    PerfectEquality(obs, sqrt);
    hide Pearson, Covariance, Variance, Times;
    slope, intercept := EqualityIsAffine(s, r);
  }

  /** The coefficient is exactly +1 (-1) if and only if the pairs lie exactly on a rising (falling) line. */
  lemma PerfectIffAffine(obs: seq<(real, real)>, sqrt: real -> real)
    requires IsSqrt(sqrt) && Pearson(obs, sqrt) != None
    ensures Pearson(obs, sqrt) == Some(1.0) <==>
            exists slope, intercept :: slope > 0.0 && Affine(Firsts(obs), Seconds(obs), slope, intercept)
    ensures Pearson(obs, sqrt) == Some(-1.0) <==>
            exists slope, intercept :: slope < 0.0 && Affine(Firsts(obs), Seconds(obs), slope, intercept)
  {
    ClampIdle(obs, sqrt);
    CovarianceBound(Firsts(obs), Seconds(obs));
    assert |obs| >= 3;
    hide Pearson, Affine, Covariance, Variance, Times;
    if Pearson(obs, sqrt) == Some(1.0) || Pearson(obs, sqrt) == Some(-1.0) {
      var slope, intercept := PerfectIsAffine(obs, sqrt);
    }
    forall slope, intercept | slope != 0.0 && Affine(Firsts(obs), Seconds(obs), slope, intercept)
      ensures Pearson(obs, sqrt) == Some(if slope > 0.0 then 1.0 else -1.0)
    {
      AffineIsPerfect(obs, sqrt, slope, intercept);
    }
  }

  lemma PerfectEquality(obs: seq<(real, real)>, sqrt: real -> real)
    requires |obs| >= 3 && IsSqrt(sqrt)
    requires Pearson(obs, sqrt) == Some(1.0) || Pearson(obs, sqrt) == Some(-1.0)
    ensures var s, r := Firsts(obs), Seconds(obs);
      && Variance(s) > 0.0
      && Times(Covariance(s, r), Covariance(s, r)) == Times(Variance(s), Variance(r))
      && (Pearson(obs, sqrt) == Some(1.0) ==> Covariance(s, r) > 0.0)
      && (Pearson(obs, sqrt) == Some(-1.0) ==> Covariance(s, r) < 0.0)
  {
    hide Pearson, Covariance, Variance, Times;
    var s, r := Firsts(obs), Seconds(obs);
    ClampIdle(obs, sqrt);
    CovarianceBound(s, r);
    SquareOfNegation(Times(sqrt(Variance(s)), sqrt(Variance(r))));
  }

  /** Equality in Cauchy-Schwarz makes the second side an affine function of the first. */
  lemma EqualityIsAffine(s: seq<real>, r: seq<real>) returns (slope: real, intercept: real)
    requires |s| == |r| > 0 && Variance(s) > 0.0
    requires Times(Covariance(s, r), Covariance(s, r)) == Times(Variance(s), Variance(r))
    ensures Affine(s, r, slope, intercept)
    ensures Covariance(s, r) > 0.0 ==> slope > 0.0
    ensures Covariance(s, r) < 0.0 ==> slope < 0.0
  {
    var x, y, n := Deviations(s), Deviations(r), |s| as real;
    var a, b, c := Dot(x, x), Dot(y, y), Dot(x, y);
    assert Covariance(s, r) == c / n && Variance(s) == a / n && Variance(r) == b / n;
    hide Covariance, Variance, Dot, Times;
    CauchySchwarz(x, y);
    DotSign(x);
    MeansOrder(c, a, b, n);
    EqualQuotients(Times(c, c), Times(a, b), Times(n, n));
    hide Proportional, Deviations;
    slope := c / a;
    SlopeSign(a, c, n);
    intercept := Mean(r) - Times(slope, Mean(s));
    ProportionalIsAffine(s, r, a, c);
  }

  lemma ProportionalIsAffine(s: seq<real>, r: seq<real>, a: real, c: real)
    requires |s| == |r| > 0 && a > 0.0 && Proportional(Deviations(s), Deviations(r), c, a)
    ensures Affine(s, r, c / a, Mean(r) - Times(c / a, Mean(s)))
  {
    hide Times;
    var x, y := Deviations(s), Deviations(r);
    forall i | 0 <= i < |s| ensures r[i] == Times(c / a, s[i]) + (Mean(r) - Times(c / a, Mean(s))) {
      assert Times(c, x[i]) == Times(a, y[i]);
      SolveSlope(a, c, x[i], y[i]);
      TimesSubtract(c / a, s[i], Mean(s));
    }
  }

  lemma SquareOfNegation(d: real)
    ensures Times(-d, -d) == Times(d, d)
  {
  }

  lemma EqualQuotients(x: real, y: real, z: real)
    requires z > 0.0 && x / z == y / z
    ensures x == y
  {
    assert (x / z) * z == x && (y / z) * z == y;
  }

  lemma SolveSlope(a: real, c: real, x: real, y: real)
    requires a > 0.0 && Times(c, x) == Times(a, y)
    ensures y == Times(c / a, x)
  {
    assert (c / a) * a == c;
    assert ((c / a) * x - y) * a == 0.0;
  }

  lemma SlopeSign(a: real, c: real, n: real)
    requires a > 0.0 && n > 0.0
    ensures c / n > 0.0 ==> c / a > 0.0
    ensures c / n < 0.0 ==> c / a < 0.0
  {
    assert (c / n) * n == c && (c / a) * a == c;
  }

  // ---- Rolling coefficients ----

  /** The coefficient of every full window of the observations, oldest first. */
  function WindowCoefficients(obs: seq<(real, real)>, window: nat, sqrt: real -> real): seq<real>
  {
    if |obs| == 0 then []
    else
      var older := WindowCoefficients(obs[..|obs| - 1], window, sqrt);
      if |obs| < window then older
      else match Pearson(obs[|obs| - window..], sqrt)
        case None => older
        case Some(ic) => older + [ic]
  }

  /** The observations with numbers end - window to end - 1 have this coefficient. */
  ghost predicate WindowHas(obs: seq<(real, real)>, end: int, window: nat, sqrt: real -> real, ic: real) {
    window <= end <= |obs| && Pearson(obs[end - window..end], sqrt) == Some(ic)
  }

  lemma WindowHasFront(obs: seq<(real, real)>, end: int, window: nat, sqrt: real -> real, ic: real)
    requires |obs| > 0 && end < |obs|
    ensures WindowHas(obs, end, window, sqrt, ic) <==> WindowHas(obs[..|obs| - 1], end, window, sqrt, ic)
  {
    hide Pearson;
    if window <= end { assert obs[..|obs| - 1][end - window..end] == obs[end - window..end]; }
  }

  lemma WindowHasLast(obs: seq<(real, real)>, window: nat, sqrt: real -> real, ic: real)
    ensures WindowHas(obs, |obs|, window, sqrt, ic)
       <==> window <= |obs| && Pearson(obs[|obs| - window..], sqrt) == Some(ic)
  {
    hide Pearson;
    if window <= |obs| { assert obs[|obs| - window..] == obs[|obs| - window..|obs|]; }
  }

  lemma {:induction false} WindowBehind(obs: seq<(real, real)>, window: nat, sqrt: real -> real, ic: real)
    returns (end: nat)
    requires window > 0 && ic in WindowCoefficients(obs, window, sqrt)
    ensures WindowHas(obs, end, window, sqrt, ic)
  {
    hide Pearson, WindowHas;
    var front := obs[..|obs| - 1];
    if ic in WindowCoefficients(front, window, sqrt) {
      end := WindowBehind(front, window, sqrt, ic);
      WindowEnds(front, end, window, sqrt, ic);
      WindowHasFront(obs, end, window, sqrt, ic);
    } else {
      end := |obs|;
      WindowHasLast(obs, window, sqrt, ic);
    }
  }

  lemma WindowEnds(obs: seq<(real, real)>, end: int, window: nat, sqrt: real -> real, ic: real)
    requires WindowHas(obs, end, window, sqrt, ic)
    ensures window <= end <= |obs|
  {
    hide Pearson;
  }

  lemma {:induction false} CoefficientListed(obs: seq<(real, real)>, end: nat, window: nat, sqrt: real -> real,
                                             ic: real)
    requires window > 0 && WindowHas(obs, end, window, sqrt, ic)
    ensures ic in WindowCoefficients(obs, window, sqrt)
    decreases |obs|
  {
    hide Pearson, WindowHas;
    WindowEnds(obs, end, window, sqrt, ic);
    if end < |obs| {
      WindowHasFront(obs, end, window, sqrt, ic);
      CoefficientListed(obs[..|obs| - 1], end, window, sqrt, ic);
    } else {
      WindowHasLast(obs, window, sqrt, ic);
    }
  }

  /** A coefficient is on the list exactly if some stretch of `window` consecutive observations has it. */
  lemma CoefficientsOfWindows(obs: seq<(real, real)>, window: nat, sqrt: real -> real, ic: real)
    requires window > 0
    ensures ic in WindowCoefficients(obs, window, sqrt)
       <==> exists end: nat :: WindowHas(obs, end, window, sqrt, ic)
  {
    hide WindowCoefficients, WindowHas;
    if ic in WindowCoefficients(obs, window, sqrt) {
      var end := WindowBehind(obs, window, sqrt, ic);
    } else if end: nat :| WindowHas(obs, end, window, sqrt, ic) {
      CoefficientListed(obs, end, window, sqrt, ic);
    }
  }

  /** src/research/ic.rs, IcTracker. */
  class IcTracker {
    var observations: seq<(real, real)>
    var windowIcs: seq<real>
    var window: nat
    const sqrt: real -> real

    ghost predicate Valid() reads this {
      window >= 2 && windowIcs == WindowCoefficients(observations, window, sqrt)
    }

    constructor (window: nat, sqrt: real -> real)
      ensures Valid() && observations == [] && this.sqrt == sqrt && this.window == (if window < 2 then 2 else window)
    {
      observations, windowIcs := [], [];
      this.window := if window < 2 then 2 else window;
      this.sqrt := sqrt;
    }

    method Record(signal: real, forwardReturn: real)
      requires Valid()
      modifies this
      ensures Valid() && observations == old(observations) + [(signal, forwardReturn)] && window == old(window)
    {
      hide Pearson;
      assert (observations + [(signal, forwardReturn)])[..|observations|] == observations;
      observations := observations + [(signal, forwardReturn)];
      if |observations| >= window {
        var start := |observations| - window;
        match Pearson(observations[start..], sqrt) {
          case None =>
          case Some(ic) => windowIcs := windowIcs + [ic];
        }
      }
    }
  }
}
