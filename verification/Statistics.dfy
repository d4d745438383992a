/** Mean-centred statistics shared by the indicators and the correlation coefficients. */
module Statistics {
  import opened Reals

  function Shifted(v: seq<real>, m: real): (r: seq<real>)
    ensures |r| == |v|
  {
    seq(|v|, i requires 0 <= i < |v| => v[i] - m)
  }

  /** Distances from the mean. */
  function Deviations(v: seq<real>): (r: seq<real>)
    requires |v| > 0
    ensures |r| == |v|
  {
    Shifted(v, Mean(v))
  }

  function Squares(v: seq<real>): (r: seq<real>)
    ensures |r| == |v|
  {
    seq(|v|, i requires 0 <= i < |v| => Times(v[i], v[i]))
  }

  function Dot(x: seq<real>, y: seq<real>): real
    requires |x| == |y|
  {
    if |x| == 0 then 0.0 else Dot(x[..|x| - 1], y[..|y| - 1]) + Times(x[|x| - 1], y[|y| - 1])
  }

  function Covariance(a: seq<real>, b: seq<real>): real
    requires |a| == |b| > 0
  {
    Dot(Deviations(a), Deviations(b)) / |a| as real
  }

  /** The mean squared deviation from the mean. */
  function Variance(a: seq<real>): real
    requires |a| > 0
  {
    Covariance(a, a)
  }

  lemma SquaresSnoc(v: seq<real>, x: real)
    ensures Squares(v + [x]) == Squares(v) + [Times(x, x)]
    ensures Sum(Squares(v + [x])) == Sum(Squares(v)) + Times(x, x)
  {
    assert Squares(v + [x]) == Squares(v) + [Times(x, x)];
    SumSnoc(Squares(v), Times(x, x));
  }

  lemma {:induction false} DotSelf(v: seq<real>)
    ensures Dot(v, v) == Sum(Squares(v))
  {
    hide Times;
    if |v| > 0 {
      var front, x := v[..|v| - 1], v[|v| - 1];
      DotSelf(front);
      assert v == front + [x];
      SquaresSnoc(front, x);
    }
  }

  lemma DeviationsNonNegative(xs: seq<real>, m: real)
    ensures Sum(Squares(Shifted(xs, m))) >= 0.0
    ensures forall i :: 0 <= i < |xs| ==> 0.0 <= Times(xs[i] - m, xs[i] - m) <= Sum(Squares(Shifted(xs, m)))
  {
    forall i | 0 <= i < |xs| ensures Squares(Shifted(xs, m))[i] >= 0.0 { SquareSign(xs[i] - m); }
    hide Times;
    SumNonNegative(Squares(Shifted(xs, m)));
    assert forall i :: 0 <= i < |xs| ==> Squares(Shifted(xs, m))[i] == Times(xs[i] - m, xs[i] - m);
  }

  lemma VarianceNonNegative(xs: seq<real>)
    requires |xs| > 0
    ensures Variance(xs) >= 0.0
  {
    DotSelf(Deviations(xs));
    DeviationsNonNegative(xs, Mean(xs));
    hide Sum, Dot, Mean;
  }

  ghost predicate Constant(w: seq<real>) { forall i :: 0 <= i < |w| ==> w[i] == w[0] }

  lemma ConstantMean(w: seq<real>)
    requires |w| > 0 && Constant(w)
    ensures Mean(w) == w[0]
  {
    SumAtMost(w, w[0]);
    SumAtLeast(w, w[0]);
    QuotientOfTimes(|w| as real, w[0]);
    hide Times, Sum;
  }

  lemma QuotientOfTimes(n: real, x: real)
    requires n > 0.0
    ensures Times(n, x) / n == x
  {
  }

  /** The variance vanishes exactly on sequences of one repeated value. */
  lemma VarianceZeroIff(w: seq<real>)
    requires |w| > 0
    ensures Variance(w) == 0.0 <==> Constant(w)
  {
    var m, n := Mean(w), |w| as real;
    var total := Sum(Squares(Shifted(w, m)));
    DotSelf(Deviations(w));
    DeviationsNonNegative(w, m);
    ZeroQuotient(total, n);
    hide Times, Sum, Squares, Shifted, Dot, Mean;
    if Constant(w) {
      ConstantMean(w);
      forall i | 0 <= i < |w| ensures Times(w[i] - m, w[i] - m) == 0.0 { SquareSign(w[i] - m); }
      AllZero(w, m);
    }
    if total == 0.0 {
      forall i | 0 <= i < |w| ensures w[i] == m { SquareSign(w[i] - m); }
    }
  }

  lemma {:induction false} AllZero(w: seq<real>, m: real)
    requires forall i :: 0 <= i < |w| ==> Times(w[i] - m, w[i] - m) == 0.0
    ensures Sum(Squares(Shifted(w, m))) == 0.0
  {
    hide Times;
    if |w| > 0 {
      AllZero(w[..|w| - 1], m);
      assert Squares(Shifted(w, m)) == Squares(Shifted(w[..|w| - 1], m)) + [0.0];
      SumSnoc(Squares(Shifted(w[..|w| - 1], m)), 0.0);
    }
  }

  lemma ZeroQuotient(a: real, b: real)
    requires b > 0.0
    ensures a / b == 0.0 <==> a == 0.0
  {
  }
}
