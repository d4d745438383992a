/** Bollinger bands (src/indicators/bollinger.rs): running sums over a bounded window against the
    window's mean and mean squared deviation. The square root is a parameter. */
module Bollinger {
  import opened Reals
  import opened Statistics
  import opened Windows

  datatype BollingerBand = BollingerBand(lower: real, mid: real, upper: real, width: real)

  /** The band the window deserves, recomputed from scratch. */
  function Band(w: seq<real>, k: real, sqrt: real -> real): BollingerBand
    requires |w| > 0
  {
    var reach := Times(k, sqrt(Variance(w)));
    BollingerBand(Mean(w) - reach, Mean(w), Mean(w) + reach, 2.0 * reach)
  }

  class BollingerBands {
    const period: nat
    const k: real
    var buf: seq<real>
    var sum: real
    var sumSq: real
    ghost var seen: seq<real>

    ghost predicate Valid() reads this {
      && period > 1
      && buf == Window(seen, period)
      && sum == Sum(buf) && sumSq == Sum(Squares(buf))
    }

    constructor (period: nat, k: real)
      requires period > 1
      ensures Valid() && seen == [] && this.period == period && this.k == k
    {
      this.period, this.k := period, k;
      buf, sum, sumSq, seen := [], 0.0, 0.0, [];
    }

    method Push(x: real)
      requires Valid()
      modifies this
      ensures Valid() && seen == old(seen) + [x]
    {
      hide Sum, Times, Window;
      Slide(seen, x, period);
      seen := seen + [x];
      SumSnoc(buf, x);
      SquaresSnoc(buf, x);
      buf := buf + [x];
      sum := sum + x;
      sumSq := sumSq + Times(x, x);
      if |buf| > period {
        var oldest := buf[0];
        SumHead(buf);
        SumHead(Squares(buf));
        assert Squares(buf)[1..] == Squares(buf[1..]);
        buf := buf[1..];
        sum := sum - oldest;
        sumSq := sumSq - Times(oldest, oldest);
      }
    }

    /** Nothing until the window is full; then the band recomputed from the window. */
    method Next(x: real, sqrt: real -> real) returns (band: Option<BollingerBand>)
      requires Valid()
      modifies this
      ensures Valid() && seen == old(seen) + [x]
      ensures band == if |seen| < period then None else Some(Band(Window(seen, period), k, sqrt))
    {
      hide Sum, Times, Squares, Variance, Mean;
      Push(x);
      if |buf| < period { return None; }
      var mean, variance := Moments(buf, sum, sumSq);
      var sd := sqrt(Max(variance, 0.0));
      var reach := Times(k, sd);
      var lower, upper := mean - reach, mean + reach;
      band := Some(BollingerBand(lower, mean, upper, upper - lower));
    }
  }

  method Moments(buf: seq<real>, sum: real, sumSq: real) returns (mean: real, variance: real)
    requires |buf| > 0 && sum == Sum(buf) && sumSq == Sum(Squares(buf))
    ensures mean == Mean(buf) && variance == Variance(buf) >= 0.0
  {
    hide Sum, Times, Squares, Variance;
    var n := |buf| as real;
    mean := sum / n;
    variance := sumSq / n - Times(mean, mean);
    RunningVariance(buf);
  }

  lemma SquareExpands(x: real, m: real)
    ensures Times(x - m, x - m) == Times(x, x) - 2.0 * Times(m, x) + Times(m, m)
  {
  }

  lemma {:induction false} DeviationsExpand(xs: seq<real>, m: real)
    ensures Sum(Squares(Shifted(xs, m)))
        == Sum(Squares(xs)) - 2.0 * Times(m, Sum(xs)) + Times(|xs| as real, Times(m, m))
  {
    hide Times;
    if |xs| == 0 {
      TimesZero(m);
      TimesZero(Times(m, m));
    } else {
      var n := |xs| - 1;
      var front, x := xs[..n], xs[n];
      DeviationsExpand(front, m);
      assert xs == front + [x];
      assert Shifted(xs, m) == Shifted(front, m) + [x - m];
      SquaresSnoc(Shifted(front, m), x - m);
      SquaresSnoc(front, x);
      SquareExpands(x, m);
      TimesDistributes(Sum(front), x, m);
      OneMore(n, Times(m, m));
    }
  }

  lemma MeanAlgebra(n: real, total: real, m: real, squares: real)
    requires n > 0.0 && m == total / n
    ensures (squares - 2.0 * Times(m, total) + Times(n, Times(m, m))) / n == squares / n - Times(m, m)
  {
    assert total == m * n;
    assert Times(m, total) == Times(n, Times(m, m));
    var mm := Times(m, m);
    hide Times;
    DivideOut(n, squares, mm);
  }

  lemma DivideOut(n: real, squares: real, mm: real)
    requires n > 0.0
    ensures (squares - Times(n, mm)) / n == squares / n - mm
  {
  }

  /** sum_sq / n - mean^2 is the mean squared deviation, so it is never negative and the max with 0 is idle. */
  lemma RunningVariance(xs: seq<real>)
    requires |xs| > 0
    ensures Sum(Squares(xs)) / |xs| as real - Times(Mean(xs), Mean(xs)) == Variance(xs) >= 0.0
  {
    hide Times, Sum, Squares, Shifted, Dot;
    var m := Mean(xs);
    DotSelf(Deviations(xs));
    DeviationsExpand(xs, m);
    MeanAlgebra(|xs| as real, Sum(xs), m, Sum(Squares(xs)));
    DeviationsNonNegative(xs, m);
    TimesInverse(|xs| as real, Sum(Squares(Shifted(xs, m))));
  }

  /** For k > 0 the bands are ordered around the mean and collapse exactly on a constant window. */
  lemma BandsOrdered(w: seq<real>, k: real, sqrt: real -> real)
    requires |w| > 0 && k > 0.0 && IsSqrt(sqrt)
    ensures var b := Band(w, k, sqrt);
      && b.lower <= b.mid <= b.upper && b.width == b.upper - b.lower
      && (b.width == 0.0 <==> Constant(w))
      && Times(b.upper - b.mid, b.upper - b.mid) == Times(Times(k, k), Variance(w))
  {
    RunningVariance(w);
    VarianceZeroIff(w);
    hide Variance, Mean, Constant;
    var v := Variance(w);
    var sd := sqrt(v);
    assert sd >= 0.0 && sd * sd == v;
    assert Times(sd, sd) == v;
    SquareSign(sd);
    Reach(k, sd);
  }

  lemma Reach(k: real, sd: real)
    requires k > 0.0 && sd >= 0.0
    ensures Times(k, sd) >= 0.0 && (Times(k, sd) == 0.0 <==> sd == 0.0)
    ensures Times(Times(k, sd), Times(k, sd)) == Times(Times(k, k), Times(sd, sd))
  {
    if sd > 0.0 { MulPositive(k, sd); }
  }
}
