/** Trade statistics (src/backtest/metrics.rs): the gross/net split, the Sharpe and Sortino ratios and a second
    copy of the drawdown loop. The square root is a parameter. */
module Metrics {
  import opened Reals
  import opened Statistics
  import MonteCarlo

  datatype PerformanceMetrics = PerformanceMetrics(
    trades: nat,
    wins: nat,
    losses: nat,
    winRate: real,
    grossProfit: real,
    grossLoss: real,
    netPnl: real,
    profitFactor: Option<real>, // None is f64::INFINITY
    avgWin: real,
    avgLoss: real,
    maxDrawdownPct: real,
    sharpe: real,
    sortino: real,
    expectancy: real)

  const DEFAULT := PerformanceMetrics(0, 0, 0, 0.0, 0.0, 0.0, 0.0, Some(0.0), 0.0, 0.0, 0.0, 0.0, 0.0, 0.0)

  function Wins(pnls: seq<real>): seq<real>
  {
    if |pnls| == 0 then []
    else Wins(pnls[..|pnls| - 1]) + (if pnls[|pnls| - 1] > 0.0 then [pnls[|pnls| - 1]] else [])
  }

  /** The sizes of the losing trades. */
  function Losses(pnls: seq<real>): seq<real>
  {
    if |pnls| == 0 then []
    else Losses(pnls[..|pnls| - 1]) + (if pnls[|pnls| - 1] < 0.0 then [0.0 - pnls[|pnls| - 1]] else [])
  }

  function Ratio(a: real, b: real): (r: real)
    requires b > 0.0
    ensures Times(r, b) == a
  {
    a / b
  }

  function Average(xs: seq<real>): real { if |xs| == 0 then 0.0 else Ratio(Sum(xs), |xs| as real) }

  /** Gross profit less gross loss is the plain sum: no trade is lost or counted twice by the split. */
  lemma {:induction false} NetIsSum(pnls: seq<real>)
    ensures Sum(Wins(pnls)) - Sum(Losses(pnls)) == Sum(pnls)
    ensures Sum(Wins(pnls)) >= 0.0 && Sum(Losses(pnls)) >= 0.0
    ensures |Wins(pnls)| + |Losses(pnls)| <= |pnls|
  {
    if |pnls| > 0 {
      var front, x := pnls[..|pnls| - 1], pnls[|pnls| - 1];
      NetIsSum(front);
      SumSnoc(Wins(front), x);
      SumSnoc(Losses(front), 0.0 - x);
      assert Wins(front) + [] == Wins(front) && Losses(front) + [] == Losses(front);
    }
  }

  /** The ratio is the mean over a deviation, annualised; 0 without deviation. */
  predicate IsRatio(ratio: real, mean: real, deviation: real, root: real) {
    if deviation > 0.0 then Times(ratio, deviation) == Times(mean, root) else ratio == 0.0
  }

  /** Root of the losses' squares averaged over all trades. */
  function DownsideDeviation(pnls: seq<real>, sqrt: real -> real): real
    requires |pnls| > 0
  {
    sqrt(Ratio(Sum(Squares(Losses(pnls))), |pnls| as real))
  }

  /** The metrics describe the trades: every field, by what it means for the list. */
  ghost predicate Describes(m: PerformanceMetrics, pnls: seq<real>, periodsPerYear: real, sqrt: real -> real) {
    if |pnls| == 0 then m == DEFAULT
    else
      && m.trades == |pnls| && m.wins == |Wins(pnls)| && m.losses == |Losses(pnls)|
      && m.grossProfit == Sum(Wins(pnls)) && m.grossLoss == Sum(Losses(pnls))
      && m.netPnl == Sum(pnls) && Times(m.expectancy, |pnls| as real) == Sum(pnls)
      && Times(m.winRate, |pnls| as real) == |Wins(pnls)| as real
      && m.avgWin == Average(Wins(pnls)) && m.avgLoss == Average(Losses(pnls))
      && (m.profitFactor == None <==> Losses(pnls) == [])
      && (m.profitFactor != None ==> Times(m.profitFactor.value, m.grossLoss) == m.grossProfit)
      && m.maxDrawdownPct == MonteCarlo.MaxDrawdown(pnls)
      && IsRatio(m.sharpe, Mean(pnls), sqrt(Variance(pnls)), sqrt(periodsPerYear))
      && IsRatio(m.sortino, Mean(pnls), DownsideDeviation(pnls, sqrt), sqrt(periodsPerYear))
  }

  method FromTrades(pnls: seq<real>, periodsPerYear: real, sqrt: real -> real) returns (m: PerformanceMetrics)
    ensures Describes(m, pnls, periodsPerYear, sqrt)
  {
    if |pnls| == 0 { return DEFAULT; }
    hide Times, Ratio, Average, Wins, Losses, Sum, Variance, Squares, Mean, IsRatio, MonteCarlo.MaxDrawdown;
    var wins, losses := Wins(pnls), Losses(pnls);
    var grossProfit, grossLoss := Sum(wins), Sum(losses);
    NetIsSum(pnls);
    NoLosses(pnls);
    var net := grossProfit - grossLoss;
    var n := |pnls| as real;
    var profitFactor := if grossLoss > 0.0 then Some(Ratio(grossProfit, grossLoss)) else None;
    var maxDd := DrawdownLoop(pnls);
    var mean, root := Mean(pnls), sqrt(periodsPerYear);
    var sharpe := Annualised(mean, sqrt(Variance(pnls)), root);
    var sortino := Annualised(mean, DownsideDeviation(pnls, sqrt), root);
    m := PerformanceMetrics(|pnls|, |wins|, |losses|, Ratio(|wins| as real, n), grossProfit, grossLoss, net,
                            profitFactor, Average(wins), Average(losses), maxDd, sharpe, sortino, Ratio(net, n));
  }

  function Annualised(mean: real, deviation: real, root: real): (r: real)
    ensures IsRatio(r, mean, deviation, root)
  {
    if deviation > 0.0 then
      var r := Ratio(mean, deviation);
      assert Times(Times(r, root), deviation) == Times(Times(r, deviation), root);
      Times(r, root)
    else 0.0
  }

  /** The Sharpe ratio is positive exactly for a positive net result that does not come from equal trades, and
      negative exactly for a negative one. */
  lemma SharpeSign(m: PerformanceMetrics, pnls: seq<real>, periodsPerYear: real, sqrt: real -> real)
    requires Describes(m, pnls, periodsPerYear, sqrt) && |pnls| > 0 && periodsPerYear > 0.0 && IsSqrt(sqrt)
    ensures m.sharpe > 0.0 <==> m.netPnl > 0.0 && !Constant(pnls)
    ensures m.sharpe < 0.0 <==> m.netPnl < 0.0 && !Constant(pnls)
  {
    var v, root := Variance(pnls), sqrt(periodsPerYear);
    VarianceNonNegative(pnls);
    VarianceZeroIff(pnls);
    RootSign(v, sqrt);
    RootSign(periodsPerYear, sqrt);
    MeanSign(pnls);
    hide Variance, Mean, Sum, Constant, Times, IsSqrt;
    RatioSign(m.sharpe, Mean(pnls), sqrt(v), root);
  }

  lemma RootSign(x: real, sqrt: real -> real)
    requires x >= 0.0 && IsSqrt(sqrt)
    ensures sqrt(x) >= 0.0 && (sqrt(x) > 0.0 <==> x > 0.0)
  {
    var y := sqrt(x);
    assert y >= 0.0 && Times(y, y) == x;
    SquareSign(y);
  }

  lemma MeanSign(xs: seq<real>)
    requires |xs| > 0
    ensures (Mean(xs) > 0.0 <==> Sum(xs) > 0.0) && (Mean(xs) < 0.0 <==> Sum(xs) < 0.0)
  {
    QuotientSign(Sum(xs), |xs| as real);
  }

  lemma QuotientSign(a: real, b: real)
    requires b > 0.0
    ensures (a / b > 0.0 <==> a > 0.0) && (a / b < 0.0 <==> a < 0.0)
  {
  }

  lemma RatioSign(ratio: real, mean: real, deviation: real, root: real)
    requires IsRatio(ratio, mean, deviation, root) && deviation >= 0.0 && root > 0.0
    ensures ratio > 0.0 <==> mean > 0.0 && deviation > 0.0
    ensures ratio < 0.0 <==> mean < 0.0 && deviation > 0.0
  {
    if deviation > 0.0 {
      TimesSigns(ratio, deviation);
      TimesSigns(mean, root);
    }
  }

  /** The average win times the wins, less the average loss times the losses, is the net result. */
  lemma AveragesSplitNet(m: PerformanceMetrics, pnls: seq<real>, periodsPerYear: real, sqrt: real -> real)
    requires |pnls| > 0 && Describes(m, pnls, periodsPerYear, sqrt)
    ensures Times(m.avgWin, m.wins as real) - Times(m.avgLoss, m.losses as real) == m.netPnl
    ensures m.avgWin >= 0.0 && m.avgLoss >= 0.0
  {
    NetIsSum(pnls);
    AverageTimes(Wins(pnls));
    AverageTimes(Losses(pnls));
    WinsPositive(pnls);
    AverageSign(Wins(pnls));
    AverageSign(Losses(pnls));
    hide Times, Average, Wins, Losses, IsRatio, MonteCarlo.MaxDrawdown;
  }

  lemma AverageTimes(xs: seq<real>)
    ensures Times(Average(xs), |xs| as real) == Sum(xs)
  {
    if |xs| == 0 { TimesZero(0.0); }
    hide Times;
  }

  lemma AverageSign(xs: seq<real>)
    requires forall i :: 0 <= i < |xs| ==> xs[i] > 0.0
    ensures Average(xs) >= 0.0
  {
    if |xs| > 0 {
      SumNonNegative(xs);
      TimesSigns(Average(xs), |xs| as real);
      AverageTimes(xs);
    }
    hide Times;
  }

  lemma {:induction false} WinsPositive(pnls: seq<real>)
    ensures forall i :: 0 <= i < |Wins(pnls)| ==> Wins(pnls)[i] > 0.0
    ensures forall i :: 0 <= i < |Losses(pnls)| ==> Losses(pnls)[i] > 0.0
  {
    if |pnls| > 0 { WinsPositive(pnls[..|pnls| - 1]); }
  }

  /** The results with the winners counted as 0. */
  function Downside(pnls: seq<real>): (r: seq<real>)
    ensures |r| == |pnls|
  {
    seq(|pnls|, i requires 0 <= i < |pnls| => Min(pnls[i], 0.0))
  }

  /** The Sortino ratio's deviation is the root mean square of the losses over all trades, winners counting as 0. */
  lemma DownsideMeaning(pnls: seq<real>, sqrt: real -> real)
    requires |pnls| > 0
    ensures DownsideDeviation(pnls, sqrt) == sqrt(Mean(Squares(Downside(pnls))))
  {
    SquaredLosses(pnls);
  }

  lemma {:induction false} SquaredLosses(pnls: seq<real>)
    ensures Sum(Squares(Losses(pnls))) == Sum(Squares(Downside(pnls)))
  {
    if |pnls| > 0 {
      var n := |pnls| - 1;
      var front, x := pnls[..n], pnls[n];
      SquaredLosses(front);
      assert Downside(pnls) == Downside(front) + [Min(x, 0.0)];
      OneMoreSquare(Downside(front), Min(x, 0.0));
      TimesZero(0.0);
      if x < 0.0 {
        assert Losses(pnls) == Losses(front) + [0.0 - x];
        OneMoreSquare(Losses(front), 0.0 - x);
        NegativeSquare(x, 0.0 - x);
      } else {
        assert Losses(pnls) == Losses(front);
      }
    }
  }

  lemma OneMoreSquare(xs: seq<real>, x: real)
    ensures Sum(Squares(xs + [x])) == Sum(Squares(xs)) + Times(x, x)
  {
    assert Squares(xs + [x]) == Squares(xs) + [Times(x, x)];
    SumSnoc(Squares(xs), Times(x, x));
  }

  lemma {:induction false} NoLosses(pnls: seq<real>)
    ensures Sum(Losses(pnls)) > 0.0 <==> Losses(pnls) != []
  {
    if |pnls| > 0 {
      var front, x := pnls[..|pnls| - 1], pnls[|pnls| - 1];
      NoLosses(front);
      NetIsSum(front);
      SumSnoc(Losses(front), 0.0 - x);
      assert Losses(front) + [] == Losses(front);
    }
  }

  /** The second copy of the drawdown loop computes the same number as the Monte Carlo one. */
  method DrawdownLoop(pnls: seq<real>) returns (maxDd: real)
    ensures maxDd == MonteCarlo.MaxDrawdown(pnls)
  {
    hide MonteCarlo.RunningMax, Sum;
    var equity, peak := 0.0, 0.0;
    maxDd := 0.0;
    StartsAtZero(pnls);
    for i := 0 to |pnls|
      invariant equity == Sum(pnls[..i]) && peak == MonteCarlo.RunningMax(pnls[..i])
      invariant maxDd == MonteCarlo.MaxDrawdown(pnls[..i])
    {
      SumStep(pnls, i);
      DrawdownStep(pnls, i);
      equity := equity + pnls[i];
      if equity > peak { peak := equity; }
      var dd := if peak > 0.0 then (peak - equity) / peak * 100.0 else 0.0;
      assert dd == MonteCarlo.DrawdownAt(pnls[..i + 1]);
      hide MonteCarlo.DrawdownAt;
      if dd > maxDd { maxDd := dd; }
    }
    assert pnls[..|pnls|] == pnls;
  }

  lemma StartsAtZero(pnls: seq<real>)
    ensures Sum(pnls[..0]) == 0.0 && MonteCarlo.RunningMax(pnls[..0]) == 0.0
  {
  }

  lemma DrawdownStep(pnls: seq<real>, i: nat)
    requires i < |pnls|
    ensures MonteCarlo.RunningMax(pnls[..i + 1]) == Max(Sum(pnls[..i + 1]), MonteCarlo.RunningMax(pnls[..i]))
    ensures MonteCarlo.MaxDrawdown(pnls[..i + 1])
         == Max(MonteCarlo.MaxDrawdown(pnls[..i]), MonteCarlo.DrawdownAt(pnls[..i + 1]))
  {
    hide MonteCarlo.DrawdownAt;
    assert pnls[..i + 1][..i] == pnls[..i];
  }
}
