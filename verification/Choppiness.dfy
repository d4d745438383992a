/** The choppiness index (src/indicators/choppiness.rs): a running true-range sum over a window of
    candles against the window's high-low range. log10 is a parameter. */
module Choppiness {
  import opened Reals
  import opened Candles
  import opened Windows

  function TrueRange(c: Candle, prevClose: real): real {
    Max(Max(c.high - c.low, Abs(c.high - prevClose)), Abs(c.low - prevClose))
  }

  /** The true range of every candle of a history; the first has no previous close. */
  function TrueRanges(cs: seq<Candle>): (r: seq<real>)
    ensures |r| == |cs|
  {
    if |cs| == 0 then []
    else
      var n := |cs| - 1;
      TrueRanges(cs[..n]) + [if n == 0 then cs[n].high - cs[n].low else TrueRange(cs[n], cs[n - 1].close)]
  }

  function Highest(cs: seq<Candle>): real
    requires |cs| > 0
  {
    if |cs| == 1 then cs[0].high else Max(Highest(cs[..|cs| - 1]), cs[|cs| - 1].high)
  }

  function Lowest(cs: seq<Candle>): real
    requires |cs| > 0
  {
    if |cs| == 1 then cs[0].low else Min(Lowest(cs[..|cs| - 1]), cs[|cs| - 1].low)
  }

  /** What the logarithm is taken of. */
  function RangeRatio(trSum: real, hi: real, lo: real): real { trSum / Max(hi - lo, 0.000000001) }

  function Reading(ratio: real, period: nat, log10: real -> real): real
    requires log10(period as real) != 0.0
  {
    100.0 * log10(ratio) / log10(period as real)
  }

  /** The index of the last `period` candles, recomputed from the whole history. */
  function Index(cs: seq<Candle>, period: nat, log10: real -> real): Option<real>
    requires period > 1 && log10(period as real) != 0.0
  {
    if |cs| < period then None
    else
      var w := Window(cs, period);
      Some(Reading(RangeRatio(Sum(Window(TrueRanges(cs), period)), Highest(w), Lowest(w)), period, log10))
  }

  /** The facts used about log10: increasing on positive numbers, zero at one. */
  ghost predicate IsLog10(log10: real -> real) {
    log10(1.0) == 0.0 && forall x, y {:trigger log10(x), log10(y)} :: 0.0 < x < y ==> log10(x) < log10(y)
  }

  lemma LogOfPeriod(log10: real -> real, period: nat)
    requires IsLog10(log10) && period > 1
    ensures log10(period as real) > 0.0
  {
    assert log10(1.0) < log10(period as real);
  }

  class ChoppinessIndex {
    const period: nat
    var buf: seq<Candle>
    var trSum: real
    var prevClose: Option<real>
    var trHist: seq<real>
    ghost var seen: seq<Candle>

    /** The running sum is the sum of the window's true ranges, not just an accumulator. */
    ghost predicate Valid() reads this {
      && period > 1
      && buf == Window(seen, period)
      && trHist == Window(TrueRanges(seen), period)
      && trSum == Sum(trHist)
      && prevClose == if |seen| == 0 then None else Some(seen[|seen| - 1].close)
    }

    constructor (period: nat)
      requires period > 1
      ensures Valid() && seen == [] && this.period == period
    {
      this.period := period;
      buf, trSum, prevClose, trHist, seen := [], 0.0, None, [], [];
    }

    /** Slides both deques and the running sum over one more candle. */
    method Push(c: Candle)
      requires Valid()
      modifies this
      ensures Valid() && seen == old(seen) + [c]
    {
      hide Sum, TrueRange, Window;
      ghost var before := TrueRanges(seen);
      assert (seen + [c])[..|seen|] == seen;
      var tr := match prevClose case None => c.high - c.low case Some(pc) => TrueRange(c, pc);
      prevClose := Some(c.close);
      seen := seen + [c];
      assert TrueRanges(seen) == before + [tr];
      Slide(before, tr, period);
      SumSnoc(trHist, tr);
      trHist := trHist + [tr];
      trSum := trSum + tr;
      if |trHist| > period {
        SumHead(trHist);
        trSum := trSum - trHist[0];
        trHist := trHist[1..];
      }
      Slide(old(seen), c, period);
      buf := buf + [c];
      if |buf| > period { buf := buf[1..]; }
    }

    method Next(c: Candle, log10: real -> real) returns (v: Option<real>)
      requires Valid() && log10(period as real) != 0.0
      modifies this
      ensures Valid() && seen == old(seen) + [c]
      ensures v == Index(seen, period, log10)
    {
      hide Sum, TrueRanges, RangeRatio, Reading, Highest, Lowest;
      Push(c);
      if |buf| < period { return None; }
      var hi, lo := HighLow(buf);
      v := Some(Reading(RangeRatio(trSum, hi, lo), period, log10));
    }
  }

  method HighLow(buf: seq<Candle>) returns (hi: real, lo: real)
    requires |buf| > 0
    ensures hi == Highest(buf) && lo == Lowest(buf)
  {
    hi, lo := buf[0].high, buf[0].low;
    for i := 1 to |buf|
      invariant hi == Highest(buf[..i]) && lo == Lowest(buf[..i])
    {
      assert buf[..i + 1][..i] == buf[..i];
      if buf[i].high > hi { hi := buf[i].high; }
      if buf[i].low < lo { lo := buf[i].low; }
    }
    assert buf[..|buf|] == buf;
  }

  /** The true range is the span of the candle and the close before it together. */
  lemma TrueRangeIsSpan(c: Candle, prevClose: real)
    requires c.low <= c.high
    ensures TrueRange(c, prevClose) == Max(c.high, prevClose) - Min(c.low, prevClose)
  {
  }

  /** The window's highest high and lowest low bound every candle and are those of some. */
  lemma {:induction false} ExtremesOfWindow(cs: seq<Candle>) returns (h: nat, l: nat)
    requires |cs| > 0
    ensures forall i :: 0 <= i < |cs| ==> Lowest(cs) <= cs[i].low && cs[i].high <= Highest(cs)
    ensures h < |cs| && cs[h].high == Highest(cs) && l < |cs| && cs[l].low == Lowest(cs)
  {
    h, l := |cs| - 1, |cs| - 1;
    if |cs| > 1 {
      var front := cs[..|cs| - 1];
      var h', l' := ExtremesOfWindow(front);
      forall i | 0 <= i < |front| ensures Lowest(front) <= cs[i].low && cs[i].high <= Highest(front) {
        assert front[i] == cs[i];
      }
      if Highest(cs) != cs[h].high { h := h'; }
      if Lowest(cs) != cs[l].low { l := l'; }
    }
  }

  /** The scale of the index: 0 where the true ranges sum to the window's range, 100 where they sum to `period` times
      it, and higher the larger they are. */
  lemma IndexScale(trSum: real, more: real, hi: real, lo: real, period: nat, log10: real -> real)
    requires period > 1 && IsLog10(log10) && hi - lo >= 0.000000001 && 0.0 < trSum < more
    ensures log10(period as real) > 0.0
    ensures Reading(RangeRatio(hi - lo, hi, lo), period, log10) == 0.0
    ensures Reading(RangeRatio(period as real * (hi - lo), hi, lo), period, log10) == 100.0
    ensures Reading(RangeRatio(trSum, hi, lo), period, log10) < Reading(RangeRatio(more, hi, lo), period, log10)
  {
    LogOfPeriod(log10, period);
    Multiples(period as real, hi - lo);
    SmallerQuotient(trSum, more, hi - lo);
    QuotientAtLeastOne(trSum, hi - lo);
    var a, b := RangeRatio(trSum, hi, lo), RangeRatio(more, hi, lo);
    assert 0.0 < a < b;
    assert log10(a) < log10(b);
    SmallerQuotient(100.0 * log10(a), 100.0 * log10(b), log10(period as real));
    WholeQuotient(log10(period as real));
  }

  lemma Multiples(n: real, x: real)
    requires x > 0.0
    ensures x / x == 1.0 && n * x / x == n
  {
  }

  lemma SmallerQuotient(a: real, b: real, c: real)
    requires a < b && c > 0.0
    ensures a / c < b / c
  {
  }

  lemma WholeQuotient(x: real)
    requires x > 0.0
    ensures 100.0 * x / x == 100.0 && 100.0 * 0.0 / x == 0.0
  {
  }

  // ---- True ranges cover the window ----

  ghost predicate WellFormed(cs: seq<Candle>) {
    forall i :: 0 <= i < |cs| ==> cs[i].low <= cs[i].close <= cs[i].high
  }

  lemma {:induction false} LastInRange(cs: seq<Candle>)
    requires |cs| > 0 && WellFormed(cs)
    ensures Lowest(cs) <= cs[|cs| - 1].close <= Highest(cs)
  {
  }

  /** Two intervals that share the previous close are together no longer than the sum of their lengths. */
  lemma CoverStep(hi: real, lo: real, c: Candle, prevClose: real, covered: real)
    requires lo <= prevClose <= hi && c.low <= c.high && hi - lo <= covered
    ensures Max(hi, c.high) - Min(lo, c.low) <= covered + TrueRange(c, prevClose)
  {
  }

  /** From any position on, the true ranges sum to at least the high-low range they span. */
  lemma {:induction false} Covering(cs: seq<Candle>, a: nat)
    requires WellFormed(cs) && a < |cs|
    ensures Sum(TrueRanges(cs)[a..]) >= Highest(cs[a..]) - Lowest(cs[a..])
  {
    hide TrueRange, Sum;
    var n := |cs| - 1;
    var front, trs := cs[..n], TrueRanges(cs);
    assert trs[..n] == TrueRanges(front);
    assert trs[a..] == TrueRanges(front)[a..] + [trs[n]];
    SumSnoc(TrueRanges(front)[a..], trs[n]);
    if a == n {
      assert TrueRanges(front)[a..] == [];
      EmptySum();
      if n > 0 { CoversOwnRange(cs[n], cs[n - 1].close); }
    } else {
      Covering(front, a);
      assert cs[a..][..n - a] == front[a..];
      LastInRange(front[a..]);
      CoverStep(Highest(front[a..]), Lowest(front[a..]), cs[n], cs[n - 1].close, Sum(TrueRanges(front)[a..]));
    }
  }

  lemma EmptySum()
    ensures Sum([]) == 0.0
  {
  }

  lemma CoversOwnRange(c: Candle, prevClose: real)
    ensures TrueRange(c, prevClose) >= c.high - c.low
  {
  }

  /** The ratio inside the logarithm is at least 1 exactly when the window's true ranges reach 1e-9; in
      particular whenever its high-low range does. */
  lemma RatioAtLeastOne(cs: seq<Candle>, period: nat)
    requires WellFormed(cs) && 1 < period <= |cs|
    ensures var w, trSum := Window(cs, period), Sum(Window(TrueRanges(cs), period));
      && trSum >= Highest(w) - Lowest(w)
      && (RangeRatio(trSum, Highest(w), Lowest(w)) >= 1.0 <==> trSum >= 0.000000001)
  {
    Covering(cs, |cs| - period);
    var w, trSum := Window(cs, period), Sum(Window(TrueRanges(cs), period));
    assert Window(cs, period) == cs[|cs| - period..]
        && Window(TrueRanges(cs), period) == TrueRanges(cs)[|cs| - period..];
    hide Highest, Lowest, TrueRanges, Window, Sum;
    QuotientAtLeastOne(trSum, Max(Highest(w) - Lowest(w), 0.000000001));
  }

  lemma QuotientAtLeastOne(a: real, b: real)
    requires b > 0.0
    ensures a / b >= 1.0 <==> a >= b
    ensures a > 0.0 ==> a / b > 0.0
  {
  }

  /** Hence the index itself is non-negative exactly in that case (for a positive sum, where the logarithm is
      finite). */
  lemma IndexNonNegative(cs: seq<Candle>, period: nat, log10: real -> real)
    requires WellFormed(cs) && 1 < period <= |cs| && IsLog10(log10)
    requires Sum(Window(TrueRanges(cs), period)) > 0.0
    ensures log10(period as real) > 0.0
    ensures Index(cs, period, log10).value >= 0.0 <==> Sum(Window(TrueRanges(cs), period)) >= 0.000000001
  {
    LogOfPeriod(log10, period);
    RatioAtLeastOne(cs, period);
    var w, trSum := Window(cs, period), Sum(Window(TrueRanges(cs), period));
    hide Highest, Lowest, TrueRanges, Window, Sum, Reading;
    QuotientAtLeastOne(trSum, Max(Highest(w) - Lowest(w), 0.000000001));
    ReadingSign(RangeRatio(trSum, Highest(w), Lowest(w)), period, log10);
  }

  lemma ReadingSign(ratio: real, period: nat, log10: real -> real)
    requires IsLog10(log10) && log10(period as real) > 0.0 && ratio > 0.0
    ensures Reading(ratio, period, log10) >= 0.0 <==> ratio >= 1.0
  {
    assert log10(ratio) >= 0.0 <==> ratio >= 1.0;
    SignOfQuotient(log10(ratio), log10(period as real));
  }

  lemma SignOfQuotient(a: real, b: real)
    requires b > 0.0
    ensures 100.0 * a / b >= 0.0 <==> a >= 0.0
  {
    var q := 100.0 * a / b;
    assert q * b == 100.0 * a;
    if q >= 0.0 { MulNonNegative(q, b); } else { MulPositive(0.0 - q, b); }
  }
}
