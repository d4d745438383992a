/** The average directional index (src/indicators/adx.rs): Wilder smoothing of true range and
    directional movement, specified over the whole candle history. */
module Adx {
  import opened Reals
  import opened Candles
  import Choppiness

  datatype AdxValue = AdxValue(adx: real, diPlus: real, diMinus: real)

  function PlusDm(c: Candle, prev: Candle): real {
    var up, down := c.high - prev.high, prev.low - c.low;
    if up > down && up > 0.0 then up else 0.0
  }

  function MinusDm(c: Candle, prev: Candle): real {
    var up, down := c.high - prev.high, prev.low - c.low;
    if down > up && down > 0.0 then down else 0.0
  }

  datatype Measure = Range | Plus | Minus

  function Movement(m: Measure, c: Candle, prev: Candle): real {
    match m
    case Range => Choppiness.TrueRange(c, prev.close)
    case Plus => PlusDm(c, prev)
    case Minus => MinusDm(c, prev)
  }

  /** One movement per candle after the first. */
  function Movements(m: Measure, cs: seq<Candle>): (r: seq<real>)
    ensures |r| == if |cs| == 0 then 0 else |cs| - 1
  {
    if |cs| < 2 then []
    else Movements(m, cs[..|cs| - 1]) + [Movement(m, cs[|cs| - 1], cs[|cs| - 2])]
  }

  /** The share of the old value a smoothing step keeps. */
  function Keep(period: nat): real
    requires period > 1
  {
    1.0 - 1.0 / period as real
  }

  /** A plain sum of the first `period` values, then Wilder's recurrence. */
  function Smoothed(xs: seq<real>, period: nat): real
    requires period > 1
  {
    if |xs| <= period then Sum(xs) else Times(Keep(period), Smoothed(xs[..|xs| - 1], period)) + xs[|xs| - 1]
  }

  function Percentage(part: real, whole: real): real
    requires whole != 0.0
  {
    100.0 * part / whole
  }

  function Dx(plus: real, minus: real): real {
    if plus + minus == 0.0 then 0.0 else Percentage(Abs(plus - minus), plus + minus)
  }

  function Di(m: Measure, cs: seq<Candle>, period: nat): real
    requires period > 1 && Smoothed(Movements(Range, cs), period) != 0.0
  {
    Percentage(Smoothed(Movements(m, cs), period), Smoothed(Movements(Range, cs), period))
  }

  /** Enough candles for a first smoothed value, and a range to divide by. */
  predicate Measured(cs: seq<Candle>, period: nat)
    requires period > 1
  {
    |cs| > period && Smoothed(Movements(Range, cs), period) != 0.0
  }

  function DxOf(cs: seq<Candle>, period: nat): real
    requires period > 1 && Measured(cs, period)
  {
    Dx(Di(Plus, cs, period), Di(Minus, cs, period))
  }

  /** The directional index after every candle that could be measured. */
  function DxSeries(cs: seq<Candle>, period: nat): seq<real>
    requires period > 1
  {
    if |cs| == 0 then []
    else DxSeries(cs[..|cs| - 1], period) + (if Measured(cs, period) then [DxOf(cs, period)] else [])
  }

  function Updated(prev: real, dx: real, p: real): real
    requires p != 0.0
  {
    (Times(prev, p - 1.0) + dx) / p
  }

  /** The mean of the first `period` values, then Wilder's average. */
  function Average(dxs: seq<real>, period: nat): real
    requires period > 1
  {
    if |dxs| <= period then Sum(dxs) / period as real
    else Updated(Average(dxs[..|dxs| - 1], period), dxs[|dxs| - 1], period as real)
  }

  function Reading(cs: seq<Candle>, period: nat): Option<AdxValue>
    requires period > 1
  {
    if !Measured(cs, period) || |DxSeries(cs, period)| < period then None
    else Some(AdxValue(Average(DxSeries(cs, period), period), Di(Plus, cs, period), Di(Minus, cs, period)))
  }

  class AdxIndicator {
    const period: nat
    var prevCandle: Option<Candle>
    var smoothTr: real
    var smoothPlusDm: real
    var smoothMinusDm: real
    var dxWindow: seq<real>
    var adx: Option<real>
    var warmup: nat
    var seeded: bool
    ghost var seen: seq<Candle>

    ghost predicate Smooths() reads this requires period > 1 {
      && smoothTr == Smoothed(Movements(Range, seen), period)
      && smoothPlusDm == Smoothed(Movements(Plus, seen), period)
      && smoothMinusDm == Smoothed(Movements(Minus, seen), period)
      && warmup == (if |seen| > period then period else if |seen| > 0 then |seen| - 1 else 0)
      && (seeded <==> |seen| > period)
    }

    ghost predicate Averages() reads this requires period > 1 {
      var dxs := DxSeries(seen, period);
      && dxWindow == (if |dxs| <= period then dxs else dxs[..period])
      && adx == if |dxs| < period then None else Some(Average(dxs, period))
    }

    ghost predicate Valid() reads this {
      && period > 1
      && prevCandle == (if |seen| == 0 then None else Some(seen[|seen| - 1]))
      && Smooths() && Averages()
    }

    constructor (period: nat)
      requires period > 1
      ensures Valid() && seen == [] && this.period == period
    {
      this.period := period;
      prevCandle, dxWindow, adx, warmup, seeded, seen := None, [], None, 0, false, [];
      smoothTr, smoothPlusDm, smoothMinusDm := 0.0, 0.0, 0.0;
    }

    /** The three accumulators take in one candle after the first. */
    method Smooth(c: Candle, prev: Candle)
      requires period > 1 && |seen| > 0 && prev == seen[|seen| - 1] && Smooths()
      modifies this`smoothTr, this`smoothPlusDm, this`smoothMinusDm, this`warmup, this`seeded, this`seen
      ensures seen == old(seen) + [c] && Smooths()
    {
      hide PlusDm, MinusDm, Choppiness.TrueRange, Times, Keep, Sum;
      SmoothedStep(Range, seen, c, period);
      SmoothedStep(Plus, seen, c, period);
      SmoothedStep(Minus, seen, c, period);
      var tr := Choppiness.TrueRange(c, prev.close);
      var plusDm, minusDm := PlusDm(c, prev), MinusDm(c, prev);
      hide Smoothed, Movements;
      if !seeded {
        smoothTr := smoothTr + tr;
        smoothPlusDm := smoothPlusDm + plusDm;
        smoothMinusDm := smoothMinusDm + minusDm;
        warmup := warmup + 1;
        if warmup == period { seeded := true; }
      } else {
        var p := period as real;
        WilderStep(smoothTr, period);
        WilderStep(smoothPlusDm, period);
        WilderStep(smoothMinusDm, period);
        smoothTr := smoothTr - smoothTr / p + tr;
        smoothPlusDm := smoothPlusDm - smoothPlusDm / p + plusDm;
        smoothMinusDm := smoothMinusDm - smoothMinusDm / p + minusDm;
      }
      seen := seen + [c];
    }

    /** The first `period` directional indexes are collected and averaged, later ones smoothed in. */
    method AddDx(dx: real, ghost before: seq<Candle>)
      requires period > 1 && |seen| > 0 && before == seen[..|seen| - 1]
      requires Measured(seen, period) && dx == DxOf(seen, period)
      requires var dxs := DxSeries(before, period);
        && dxWindow == (if |dxs| <= period then dxs else dxs[..period])
        && adx == if |dxs| < period then None else Some(Average(dxs, period))
      modifies this`dxWindow, this`adx
      ensures Averages()
    {
      hide Measured, DxOf, Times, Sum, Updated;
      ghost var dxs := DxSeries(before, period);
      assert DxSeries(seen, period) == dxs + [dx];
      AverageStep(dxs, dx, period);
      if |dxWindow| < period {
        dxWindow := dxWindow + [dx];
        if |dxWindow| == period { adx := Some(Sum(dxWindow) / period as real); }
      } else {
        adx := Some(Updated(adx.value, dx, period as real));
      }
    }

    method Next(c: Candle) returns (v: Option<AdxValue>)
      requires Valid()
      modifies this
      ensures Valid() && seen == old(seen) + [c]
      ensures v == Reading(seen, period)
    {
      hide Smoothed, Movements, DxSeries, Average, Percentage;
      ghost var before := seen;
      ghost var after := seen + [c];
      assert after[..|before|] == before;
      if prevCandle == None {
        FirstCandle(c, period);
        prevCandle := Some(c);
        seen := seen + [c];
        return None;
      }
      var prev := prevCandle.value;
      prevCandle := Some(c);
      Smooth(c, prev);
      DxStep(before, c, period);
      if !seeded { return None; }
      if smoothTr == 0.0 { return None; }
      var diPlus := Percentage(smoothPlusDm, smoothTr);
      var diMinus := Percentage(smoothMinusDm, smoothTr);
      var dx := Dx(diPlus, diMinus);
      AddDx(dx, before);
      v := match adx case None => None case Some(a) => Some(AdxValue(a, diPlus, diMinus));
    }
  }

  lemma FirstCandle(c: Candle, period: nat)
    requires period > 1
    ensures forall m :: Smoothed(Movements(m, [c]), period) == 0.0 && Smoothed(Movements(m, []), period) == 0.0
    ensures DxSeries([c], period) == [] == DxSeries([], period)
  {
  }

  lemma DxStep(before: seq<Candle>, c: Candle, period: nat)
    requires period > 1
    ensures DxSeries(before + [c], period)
         == if Measured(before + [c], period) then DxSeries(before, period) + [DxOf(before + [c], period)]
            else DxSeries(before, period)
  {
    hide Measured, DxOf;
    assert (before + [c])[..|before|] == before;
  }

  lemma MovementsStep(m: Measure, cs: seq<Candle>, c: Candle)
    requires |cs| > 0
    ensures Movements(m, cs + [c]) == Movements(m, cs) + [Movement(m, c, cs[|cs| - 1])]
  {
    hide Movement;
    assert (cs + [c])[..|cs|] == cs;
  }

  lemma SmoothedStep(m: Measure, cs: seq<Candle>, c: Candle, period: nat)
    requires period > 1 && |cs| > 0
    ensures var x := Movement(m, c, cs[|cs| - 1]);
      Smoothed(Movements(m, cs + [c]), period)
      == if |cs| <= period then Smoothed(Movements(m, cs), period) + x
         else Times(Keep(period), Smoothed(Movements(m, cs), period)) + x
  {
    hide Movement, Keep, Times, Sum;
    MovementsStep(m, cs, c);
    var xs, x := Movements(m, cs), Movement(m, c, cs[|cs| - 1]);
    assert (xs + [x])[..|xs|] == xs;
    SumSnoc(xs, x);
  }

  lemma WilderStep(s: real, period: nat)
    requires period > 1
    ensures s - s / period as real == Times(Keep(period), s)
  {
    var q := 1.0 / period as real;
    assert s / period as real == q * s;
  }

  lemma AverageStep(dxs: seq<real>, dx: real, period: nat)
    requires period > 1
    ensures Average(dxs + [dx], period) == if |dxs| < period then Sum(dxs + [dx]) / period as real
              else Updated(Average(dxs, period), dx, period as real)
  {
    hide Updated, Sum;
    assert (dxs + [dx])[..|dxs|] == dxs;
  }

  // ---- Bounds over any history ----

  lemma MovementBounds(c: Candle, prev: Candle)
    requires c.low <= c.close <= c.high && prev.low <= prev.close <= prev.high
    ensures PlusDm(c, prev) >= 0.0 && MinusDm(c, prev) >= 0.0
    ensures PlusDm(c, prev) + MinusDm(c, prev) <= Choppiness.TrueRange(c, prev.close)
  {
  }

  /** plus and minus are non-negative and together at most range, entry by entry. */
  ghost predicate Splits(range: seq<real>, plus: seq<real>, minus: seq<real>) {
    && |range| == |plus| == |minus|
    && forall i :: 0 <= i < |range| ==> plus[i] >= 0.0 && minus[i] >= 0.0 && plus[i] + minus[i] <= range[i]
  }

  lemma {:induction false} MovementsSplit(cs: seq<Candle>)
    requires Choppiness.WellFormed(cs)
    ensures Splits(Movements(Range, cs), Movements(Plus, cs), Movements(Minus, cs))
  {
    hide PlusDm, MinusDm, Choppiness.TrueRange;
    if |cs| >= 2 {
      MovementsSplit(cs[..|cs| - 1]);
      MovementBounds(cs[|cs| - 1], cs[|cs| - 2]);
    }
  }

  lemma KeepBounds(period: nat)
    requires period > 1
    ensures 0.0 < Keep(period) < 1.0
  {
  }

  lemma {:induction false} SumSplits(range: seq<real>, plus: seq<real>, minus: seq<real>)
    requires Splits(range, plus, minus)
    ensures 0.0 <= Sum(plus) && 0.0 <= Sum(minus) && Sum(plus) + Sum(minus) <= Sum(range)
  {
    if |range| > 0 { SumSplits(range[..|range| - 1], plus[..|range| - 1], minus[..|range| - 1]); }
  }

  lemma {:induction false} SmoothedSplits(range: seq<real>, plus: seq<real>, minus: seq<real>, period: nat)
    requires period > 1 && Splits(range, plus, minus)
    ensures 0.0 <= Smoothed(plus, period) && 0.0 <= Smoothed(minus, period)
    ensures Smoothed(plus, period) + Smoothed(minus, period) <= Smoothed(range, period)
  {
    hide Times, Keep, Sum;
    if |range| <= period {
      SumSplits(range, plus, minus);
    } else {
      var n := |range| - 1;
      SmoothedSplits(range[..n], plus[..n], minus[..n], period);
      KeepBounds(period);
      var k := Keep(period);
      var a, b, t := Smoothed(plus[..n], period), Smoothed(minus[..n], period), Smoothed(range[..n], period);
      TimesSign(k, a);
      TimesSign(k, b);
      TimesDistributes(a, b, k);
      TimesOrder(k, a + b, t);
    }
  }

  lemma PercentageBounds(part: real, whole: real)
    requires 0.0 <= part <= whole && whole > 0.0
    ensures 0.0 <= Percentage(part, whole) <= 100.0
    ensures part > 0.0 <==> Percentage(part, whole) > 0.0
  {
    DivBound(100.0 * part, whole, 100.0);
    TimesInverse(whole, 100.0 * part);
    TimesSign(1.0 / whole, 100.0 * part);
  }

  lemma PercentageSum(a: real, b: real, whole: real)
    requires whole > 0.0
    ensures Percentage(a, whole) + Percentage(b, whole) == Percentage(a + b, whole)
  {
    var q := 1.0 / whole;
    assert Percentage(a, whole) == 100.0 * a * q;
    assert Percentage(b, whole) == 100.0 * b * q;
    assert Percentage(a + b, whole) == 100.0 * (a + b) * q;
  }

  lemma DxBounds(plus: real, minus: real)
    requires plus >= 0.0 && minus >= 0.0
    ensures 0.0 <= Dx(plus, minus) <= 100.0
  {
    hide Percentage;
    if plus + minus > 0.0 { PercentageBounds(Abs(plus - minus), plus + minus); }
  }

  /** Both indicators are non-negative and together at most 100; the directional index lies in [0, 100]. */
  lemma DiBounds(cs: seq<Candle>, period: nat)
    requires period > 1 && Choppiness.WellFormed(cs) && Measured(cs, period)
    ensures 0.0 <= Di(Plus, cs, period) && 0.0 <= Di(Minus, cs, period)
    ensures Di(Plus, cs, period) + Di(Minus, cs, period) <= 100.0
    ensures 0.0 <= DxOf(cs, period) <= 100.0
  {
    hide Smoothed, Percentage, Movements, Dx, Splits;
    MovementsSplit(cs);
    SmoothedSplits(Movements(Range, cs), Movements(Plus, cs), Movements(Minus, cs), period);
    var t := Smoothed(Movements(Range, cs), period);
    var a, b := Smoothed(Movements(Plus, cs), period), Smoothed(Movements(Minus, cs), period);
    PercentageBounds(a, t);
    PercentageBounds(b, t);
    PercentageBounds(a + b, t);
    PercentageSum(a, b, t);
    DxBounds(Di(Plus, cs, period), Di(Minus, cs, period));
  }

  /** One update closes 1/p of the distance to the new index. */
  lemma UpdatedMoves(prev: real, dx: real, p: real)
    requires p > 0.0
    ensures Times(p, Updated(prev, dx, p) - prev) == dx - prev
    ensures Updated(prev, dx, p) - dx == Times(1.0 - 1.0 / p, prev - dx)
  {
    var u := Updated(prev, dx, p);
    assert u * p == prev * (p - 1.0) + dx;
    assert p * (u - prev) == u * p - p * prev;
    var k := 1.0 / p;
    assert k * p == 1.0;
    assert (u - dx) * p == (p - 1.0) * (prev - dx);
    assert ((1.0 - k) * (prev - dx)) * p == (p - k * p) * (prev - dx);
    Cancel(u - dx, (1.0 - k) * (prev - dx), p);
  }

  lemma Cancel(a: real, b: real, p: real)
    requires p != 0.0 && a * p == b * p
    ensures a == b
  {
  }

  /** Under a constant index the average approaches it: after k more values (1 - 1/p)^k of the distance is left. */
  lemma {:induction false} ApproachesConstant(dxs: seq<real>, d: real, k: nat, period: nat)
    requires period > 1 && |dxs| >= period
    ensures Average(dxs + seq(k, i => d), period) - d == Times(Pow(Keep(period), k), Average(dxs, period) - d)
  {
    if k == 0 {
      assert dxs + seq(0, i => d) == dxs;
      TimesOne(Average(dxs, period) - d);
    } else {
      ApproachesConstant(dxs, d, k - 1, period);
      var before, after := dxs + seq(k - 1, i => d), dxs + seq(k, i => d);
      assert after[..|after| - 1] == before && after[|after| - 1] == d;
      UpdatedMoves(Average(before, period), d, period as real);
      hide Average;
      TimesAssociative(Keep(period), Pow(Keep(period), k - 1), Average(dxs, period) - d);
    }
  }

  ghost predicate Between(xs: seq<real>, lo: real, hi: real) { forall i :: 0 <= i < |xs| ==> lo <= xs[i] <= hi }

  lemma SplitOne(p: real, x: real)
    ensures Times(p, x) == Times(x, p - 1.0) + x
  {
  }

  lemma UpdatedBetween(prev: real, dx: real, p: real, lo: real, hi: real)
    requires p > 1.0 && lo <= prev <= hi && lo <= dx <= hi
    ensures lo <= Updated(prev, dx, p) <= hi
  {
    hide Times;
    TimesMonotone(lo, prev, p - 1.0);
    TimesMonotone(prev, hi, p - 1.0);
    SplitOne(p, lo);
    SplitOne(p, hi);
    QuotientBetween(Times(prev, p - 1.0) + dx, p, lo, hi);
  }

  lemma QuotientBetween(total: real, p: real, lo: real, hi: real)
    requires p > 0.0 && Times(p, lo) <= total <= Times(p, hi)
    ensures lo <= total / p <= hi
  {
    DivBound(total, p, hi);
    DivBound(0.0 - total, p, 0.0 - lo);
    assert (0.0 - total) / p == 0.0 - total / p;
  }

  /** The average is a mean of the indexes so far: it never leaves their range. */
  lemma {:induction false} AverageBetween(dxs: seq<real>, period: nat, lo: real, hi: real)
    requires period > 1 && |dxs| >= period && Between(dxs, lo, hi)
    ensures lo <= Average(dxs, period) <= hi
  {
    hide Updated, Sum, Times;
    if |dxs| == period {
      SumAtLeast(dxs, lo);
      SumAtMost(dxs, hi);
      QuotientBetween(Sum(dxs), period as real, lo, hi);
    } else {
      AverageBetween(dxs[..|dxs| - 1], period, lo, hi);
      UpdatedBetween(Average(dxs[..|dxs| - 1], period), dxs[|dxs| - 1], period as real, lo, hi);
    }
  }

  lemma {:induction false} DxSeriesBetween(cs: seq<Candle>, period: nat)
    requires period > 1 && Choppiness.WellFormed(cs)
    ensures Between(DxSeries(cs, period), 0.0, 100.0)
  {
    hide Measured, DxOf;
    if |cs| > 0 {
      DxSeriesBetween(cs[..|cs| - 1], period);
      if Measured(cs, period) { DiBounds(cs, period); }
    }
  }

  /** Through seeding and every Wilder update, ADX stays in [0, 100] and DI+ + DI- in [0, 100]. */
  lemma ReadingBounds(cs: seq<Candle>, period: nat)
    requires period > 1 && Choppiness.WellFormed(cs) && Reading(cs, period) != None
    ensures var v := Reading(cs, period).value;
      0.0 <= v.adx <= 100.0 && 0.0 <= v.diPlus && 0.0 <= v.diMinus && v.diPlus + v.diMinus <= 100.0
  {
    hide Average, DxSeries, Di, Between;
    DiBounds(cs, period);
    DxSeriesBetween(cs, period);
    AverageBetween(DxSeries(cs, period), period, 0.0, 100.0);
  }

  // ---- Wilder smoothing in closed form ----

  /** Values weighted by powers of q, the newest by 1. */
  function Discounted(xs: seq<real>, q: real): real {
    Sum(seq(|xs|, i requires 0 <= i < |xs| => Times(Pow(q, |xs| - 1 - i), xs[i])))
  }

  lemma DiscountedStep(xs: seq<real>, x: real, q: real)
    ensures Discounted(xs + [x], q) == Times(q, Discounted(xs, q)) + x
  {
    hide Times, Sum;
    var n := |xs|;
    var terms := seq(n, i requires 0 <= i < n => Times(Pow(q, n - 1 - i), xs[i]));
    var more := seq(n + 1, i requires 0 <= i < n + 1 => Times(Pow(q, n - i), (xs + [x])[i]));
    forall i | 0 <= i < n ensures more[i] == Times(q, terms[i]) {
      TimesAssociative(q, Pow(q, n - 1 - i), xs[i]);
    }
    assert more[n] == x by { TimesOne(x); }
    assert more == more[..n] + [x];
    ScaledSum(terms, more[..n], q);
    SumSnoc(more[..n], x);
  }

  /** The recurrence is the weighted sum of the seed block and the later values, weights (1 - 1/p)^age. */
  lemma {:induction false} SmoothedIsDiscounted(xs: seq<real>, period: nat)
    requires period > 1 && |xs| >= period
    ensures Smoothed(xs, period) == Discounted([Sum(xs[..period])] + xs[period..], Keep(period))
  {
    hide Times, Sum, Keep, Discounted;
    var n := |xs| - 1;
    if |xs| == period {
      assert xs[..period] == xs && [Sum(xs)] + xs[period..] == [] + [Sum(xs)];
      DiscountedStep([], Sum(xs), Keep(period));
      DiscountedNone(Keep(period));
      TimesZero(Keep(period));
    } else {
      SmoothedIsDiscounted(xs[..n], period);
      assert xs[..n][..period] == xs[..period];
      assert [Sum(xs[..period])] + xs[period..] == ([Sum(xs[..period])] + xs[..n][period..]) + [xs[n]];
      DiscountedStep([Sum(xs[..period])] + xs[..n][period..], xs[n], Keep(period));
    }
  }

  lemma DiscountedNone(q: real)
    ensures Discounted([], q) == 0.0
  {
  }

  // ---- Reflecting all prices swaps the two indicators and nothing else ----

  /** Every price x replaced by axis - x. */
  function Flip(c: Candle, axis: real): Candle {
    c.(open := axis - c.open, high := axis - c.low, low := axis - c.high, close := axis - c.close)
  }

  function FlipAll(cs: seq<Candle>, axis: real): (r: seq<Candle>)
    ensures |r| == |cs|
  {
    seq(|cs|, i requires 0 <= i < |cs| => Flip(cs[i], axis))
  }

  function Opposite(m: Measure): Measure { match m case Range => Range case Plus => Minus case Minus => Plus }

  lemma FlipMovement(m: Measure, c: Candle, prev: Candle, axis: real)
    ensures Movement(m, Flip(c, axis), Flip(prev, axis)) == Movement(Opposite(m), c, prev)
  {
  }

  lemma {:induction false} FlipMovements(m: Measure, cs: seq<Candle>, axis: real)
    ensures Movements(m, FlipAll(cs, axis)) == Movements(Opposite(m), cs)
  {
    hide Movement, Opposite, Flip;
    if |cs| >= 2 {
      var n := |cs| - 1;
      FlipMovements(m, cs[..n], axis);
      assert FlipAll(cs, axis)[..n] == FlipAll(cs[..n], axis);
      FlipMovement(m, cs[n], cs[n - 1], axis);
    }
  }

  lemma FlipDx(cs: seq<Candle>, axis: real, period: nat)
    requires period > 1
    ensures Measured(FlipAll(cs, axis), period) == Measured(cs, period)
    ensures Measured(cs, period) ==>
              && Di(Plus, FlipAll(cs, axis), period) == Di(Minus, cs, period)
              && Di(Minus, FlipAll(cs, axis), period) == Di(Plus, cs, period)
              && DxOf(FlipAll(cs, axis), period) == DxOf(cs, period)
  {
    hide Percentage, Smoothed, Movements, FlipAll;
    FlipMovements(Range, cs, axis);
    FlipMovements(Plus, cs, axis);
    FlipMovements(Minus, cs, axis);
  }

  lemma {:induction false} FlipDxSeries(cs: seq<Candle>, axis: real, period: nat)
    requires period > 1
    ensures DxSeries(FlipAll(cs, axis), period) == DxSeries(cs, period)
  {
    hide Measured, DxOf, Flip;
    if |cs| > 0 {
      var n := |cs| - 1;
      FlipDxSeries(cs[..n], axis, period);
      assert FlipAll(cs, axis)[..n] == FlipAll(cs[..n], axis);
      FlipDx(cs, axis, period);
    }
  }

  /** ADX measures strength, not direction: an upside-down market has the same ADX with DI+ and DI- exchanged. */
  lemma FlippedReading(cs: seq<Candle>, axis: real, period: nat)
    requires period > 1
    ensures Reading(FlipAll(cs, axis), period) ==
              match Reading(cs, period)
              case None => None
              case Some(v) => Some(AdxValue(v.adx, v.diMinus, v.diPlus))
  {
    hide Average, DxSeries, Di, FlipAll;
    FlipDxSeries(cs, axis, period);
    FlipDx(cs, axis, period);
  }

  // ---- A pure trend ----

  ghost predicate Rising(cs: seq<Candle>) {
    forall i :: 0 < i < |cs| ==> cs[i].high > cs[i - 1].high && cs[i].low >= cs[i - 1].low
  }

  lemma {:induction false} RisingMovements(cs: seq<Candle>)
    requires Rising(cs)
    ensures forall i :: 0 <= i < |Movements(Minus, cs)| ==> Movements(Minus, cs)[i] == 0.0
    ensures forall i :: 0 <= i < |Movements(Plus, cs)| ==> Movements(Plus, cs)[i] > 0.0
  {
    if |cs| >= 2 { RisingMovements(cs[..|cs| - 1]); }
  }

  lemma {:induction false} SmoothedZero(xs: seq<real>, period: nat)
    requires period > 1 && forall i :: 0 <= i < |xs| ==> xs[i] == 0.0
    ensures Smoothed(xs, period) == 0.0
  {
    hide Times, Keep;
    if |xs| > period {
      SmoothedZero(xs[..|xs| - 1], period);
      TimesZero(Keep(period));
    } else if |xs| > 0 {
      SmoothedZero(xs[..|xs| - 1], period);
    }
  }

  lemma {:induction false} SmoothedPositive(xs: seq<real>, period: nat)
    requires period > 1 && |xs| > 0 && forall i :: 0 <= i < |xs| ==> xs[i] > 0.0
    ensures Smoothed(xs, period) > 0.0
  {
    hide Times, Keep;
    if |xs| > 1 {
      SmoothedPositive(xs[..|xs| - 1], period);
      KeepBounds(period);
      TimesSign(Keep(period), Smoothed(xs[..|xs| - 1], period));
    } else {
      assert Sum(xs) == Sum(xs[..0]) + xs[0];
    }
  }

  lemma RisingDx(cs: seq<Candle>, period: nat)
    requires period > 1 && Choppiness.WellFormed(cs) && Rising(cs) && |cs| > period
    ensures Measured(cs, period) && Di(Minus, cs, period) == 0.0 && DxOf(cs, period) == 100.0
  {
    hide Smoothed, Movements, Splits;
    RisingMovements(cs);
    MovementsSplit(cs);
    SmoothedSplits(Movements(Range, cs), Movements(Plus, cs), Movements(Minus, cs), period);
    SmoothedZero(Movements(Minus, cs), period);
    SmoothedPositive(Movements(Plus, cs), period);
    var t, a := Smoothed(Movements(Range, cs), period), Smoothed(Movements(Plus, cs), period);
    PercentageBounds(a, t);
    assert Percentage(0.0, t) == 0.0;
    WholePercentage(Percentage(a, t));
    hide Percentage;
  }

  lemma WholePercentage(a: real)
    requires a > 0.0
    ensures Percentage(a, a) == 100.0
  {
  }

  lemma {:induction false} RisingSeries(cs: seq<Candle>, period: nat)
    requires period > 1 && Choppiness.WellFormed(cs) && Rising(cs)
    ensures Between(DxSeries(cs, period), 100.0, 100.0)
  {
    hide Measured, DxOf;
    if |cs| > 0 {
      RisingSeries(cs[..|cs| - 1], period);
      if |cs| > period { RisingDx(cs, period); } else { NotMeasured(cs, period); }
    }
  }

  lemma NotMeasured(cs: seq<Candle>, period: nat)
    requires period > 1 && |cs| <= period
    ensures !Measured(cs, period)
  {
  }

  /** In an unbroken rise every reading is ADX 100 with DI- 0 (and by reflection a fall gives DI+ 0). */
  lemma RisingReading(cs: seq<Candle>, period: nat)
    requires period > 1 && Choppiness.WellFormed(cs) && Rising(cs) && Reading(cs, period) != None
    ensures Reading(cs, period).value.adx == 100.0 && Reading(cs, period).value.diMinus == 0.0
  {
    hide Average, DxSeries, Di;
    RisingDx(cs, period);
    RisingSeries(cs, period);
    AverageBetween(DxSeries(cs, period), period, 100.0, 100.0);
  }
}
