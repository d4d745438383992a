/** The quant engine's size multiplier (src/quant.rs, compute_sizing): a running product of Kelly, volatility,
    trend and correlation factors, clamped at the end. The factors' own estimators are inputs. */
module Quant {
  import opened Reals
  import opened Windows
  import Metrics

  /** Whether the filtered trend speaks for the trade's direction. */
  datatype Trend = Confirms | Contradicts | Neutral

  datatype Factors = Factors(kelly: real, baseRiskPct: real, volatility: real, trend: Trend, correlationPenalty: real)

  function KellyFactor(f: Factors): real { if f.kelly > 0.0 then Min(f.kelly / Max(f.baseRiskPct, 0.01), 2.0) else 1.0 }

  function TrendFactor(t: Trend): real { match t case Confirms => 1.15 case Contradicts => 0.7 case Neutral => 1.0 }

  function PenaltyFactor(f: Factors): real { if f.correlationPenalty < 1.0 then f.correlationPenalty else 1.0 }

  function Product(f: Factors): real {
    Times(Times(Times(KellyFactor(f), f.volatility), TrendFactor(f.trend)), PenaltyFactor(f))
  }

  function SizeMultiplier(enabled: bool, f: Factors): (m: real)
    ensures 0.1 <= m <= 3.0
  {
    if enabled then Clamp(Product(f), 0.1, 3.0) else 1.0
  }

  /** The running multiplier is the clamped product of all factors; disabled, it is 1. */
  method ComputeSizing(enabled: bool, f: Factors) returns (m: real)
    ensures m == SizeMultiplier(enabled, f)
  {
    hide KellyFactor, Times;
    if !enabled { return 1.0; }
    m := 1.0;
    TimesOne(KellyFactor(f));
    if f.kelly > 0.0 { m := Times(m, KellyFactor(f)); } else { NoKelly(f); }
    m := Times(m, f.volatility);
    TimesOne(m);
    if f.trend.Contradicts? {
      m := Times(m, 0.7);
    } else if f.trend.Confirms? {
      m := Times(m, 1.15);
    }
    TimesOne(m);
    if f.correlationPenalty < 1.0 { m := Times(m, f.correlationPenalty); }
    m := Clamp(m, 0.1, 3.0);
  }

  lemma NoKelly(f: Factors)
    requires f.kelly <= 0.0
    ensures KellyFactor(f) == 1.0
  {
  }

  lemma ClampOrder(x: real, y: real, lo: real, hi: real)
    requires lo <= hi && x <= y
    ensures Clamp(x, lo, hi) <= Clamp(y, lo, hi)
  {
  }

  /** Other things equal, a trade against the filtered trend is never sized above a neutral one, nor that above one
      with the trend; and a stricter correlation penalty never sizes up. */
  lemma TrendOrders(f: Factors, g: Factors)
    requires f.kelly == g.kelly && f.baseRiskPct == g.baseRiskPct && f.volatility == g.volatility >= 0.0
    requires f.trend == g.trend || f.trend.Contradicts? || g.trend.Confirms?
    requires 0.0 <= f.correlationPenalty <= g.correlationPenalty
    ensures SizeMultiplier(true, f) <= SizeMultiplier(true, g)
  {
    KellyNonNegative(f);
    hide KellyFactor, Times;
    var k := Times(KellyFactor(f), f.volatility);
    TimesSign(KellyFactor(f), f.volatility);
    assert KellyFactor(f) == KellyFactor(g) by { SameKelly(f, g); }
    TimesOrder(k, TrendFactor(f.trend), TrendFactor(g.trend));
    TimesSign(k, TrendFactor(g.trend));
    TimesMonotone(Times(k, TrendFactor(f.trend)), Times(k, TrendFactor(g.trend)), PenaltyFactor(f));
    TimesOrder(Times(k, TrendFactor(g.trend)), PenaltyFactor(f), PenaltyFactor(g));
    ClampOrder(Product(f), Product(g), 0.1, 3.0);
  }

  /** A trend against the trade takes 30 per cent off the product, one with it adds 15. */
  lemma TrendShares(f: Factors)
    ensures Product(f.(trend := Contradicts)) == 0.7 * Product(f.(trend := Neutral))
    ensures Product(f.(trend := Confirms)) == 1.15 * Product(f.(trend := Neutral))
  {
    var k, p := Times(KellyFactor(f), f.volatility), PenaltyFactor(f);
    assert PenaltyFactor(f.(trend := Contradicts)) == p == PenaltyFactor(f.(trend := Confirms));
    ScaleThrough(k, 0.7, p);
    ScaleThrough(k, 1.15, p);
    ScaleThrough(k, 1.0, p);
    hide Times, PenaltyFactor;
  }

  /** The correlation penalty is the share of the product that is left, and one of 1 or more leaves it whole. */
  lemma PenaltyShares(f: Factors)
    ensures Product(f) == Times(Product(f.(correlationPenalty := 1.0)), Min(f.correlationPenalty, 1.0))
  {
    TimesOne(Times(Times(KellyFactor(f), f.volatility), TrendFactor(f.trend)));
    assert KellyFactor(f.(correlationPenalty := 1.0)) == KellyFactor(f);
    hide Times, KellyFactor;
  }

  lemma ScaleThrough(k: real, c: real, p: real)
    ensures Times(Times(k, c), p) == c * Times(k, p)
  {
  }

  /** The Kelly share of the base risk, never more than twice it; without an edge the base risk stands. */
  lemma KellyMeaning(f: Factors)
    ensures f.kelly <= 0.0 ==> KellyFactor(f) == 1.0
    ensures f.kelly > 0.0 ==> KellyFactor(f) <= 2.0
    ensures 0.0 < f.kelly <= 2.0 * Max(f.baseRiskPct, 0.01) ==>
              Times(KellyFactor(f), Max(f.baseRiskPct, 0.01)) == f.kelly
    ensures f.kelly > 2.0 * Max(f.baseRiskPct, 0.01) ==> KellyFactor(f) == 2.0
  {
    if f.kelly > 0.0 { KellyQuotient(f.kelly, Max(f.baseRiskPct, 0.01)); }
  }

  lemma KellyQuotient(kelly: real, base: real)
    requires base > 0.0
    ensures Times(kelly / base, base) == kelly
    ensures kelly / base <= 2.0 <==> kelly <= 2.0 * base
  {
    var q := kelly / base;
    assert q * base == kelly;
    if q > 2.0 { MulPositive(q - 2.0, base); } else { MulNonNegative(2.0 - q, base); }
  }

  lemma SameKelly(f: Factors, g: Factors)
    requires f.kelly == g.kelly && f.baseRiskPct == g.baseRiskPct
    ensures KellyFactor(f) == KellyFactor(g)
  {
  }

  lemma KellyNonNegative(f: Factors)
    ensures KellyFactor(f) >= 0.0
  {
    if f.kelly > 0.0 { TimesInverse(Max(f.baseRiskPct, 0.01), f.kelly); }
  }

  lemma OneMoreOutcome(seen: seq<real>, pnl: real)
    ensures var wins := Window(Metrics.Wins(seen), 200) + (if pnl > 0.0 then [pnl] else []);
      Window(Metrics.Wins(seen + [pnl]), 200) == if |wins| > 200 then wins[1..] else wins
    ensures var losses := Window(Metrics.Losses(seen), 200) + (if pnl < 0.0 then [Abs(pnl)] else []);
      Window(Metrics.Losses(seen + [pnl]), 200) == if |losses| > 200 then losses[1..] else losses
  {
    var wins, losses := Metrics.Wins(seen), Metrics.Losses(seen);
    assert (seen + [pnl])[..|seen|] == seen && wins + [] == wins && losses + [] == losses;
    Slide(wins, pnl, 200);
    Slide(losses, Abs(pnl), 200);
    hide Window;
    assert Window(wins, 200) + [] == Window(wins, 200) && Window(losses, 200) + [] == Window(losses, 200);
  }

  /** The trade outcomes the Kelly estimate is taken from: the last 200 wins and the last 200 losses. */
  class TradeOutcomes {
    var wins: seq<real>
    var losses: seq<real>
    ghost var seen: seq<real>

    ghost predicate Valid() reads this {
      wins == Window(Metrics.Wins(seen), 200) && losses == Window(Metrics.Losses(seen), 200)
    }

    constructor ()
      ensures Valid() && seen == []
    {
      wins, losses, seen := [], [], [];
    }

    method Record(pnl: real)
      requires Valid()
      modifies this
      ensures Valid() && seen == old(seen) + [pnl]
    {
      hide Metrics.Wins, Metrics.Losses, Window;
      OneMoreOutcome(seen, pnl);
      if pnl > 0.0 {
        wins := wins + [pnl];
      } else if pnl < 0.0 {
        losses := losses + [Abs(pnl)];
      }
      if |wins| > 200 { wins := wins[1..]; }
      if |losses| > 200 { losses := losses[1..]; }
      seen := seen + [pnl];
    }
  }
}
