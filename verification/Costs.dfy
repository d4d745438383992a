/** The transaction cost model (src/execution/tcm.rs). The square root is a parameter. */
module Costs {
  import opened Reals

  datatype TransactionCostModel = TransactionCostModel(takerFeeBps: real, avgSlippageBps: real, marketImpactBps: real)

  function Quotient(a: real, b: real): real
    requires b != 0.0
  {
    a / b
  }

  lemma QuotientReaches(a: real, b: real, least: real, scale: real)
    requires b > 0.0
    ensures Quotient(a, b) * scale >= least <==> scale * a >= Times(least, b)
  {
    var q := Quotient(a, b);
    assert q * b == a;
    assert (q * scale) * b == scale * a;
    if q * scale >= least { MulMonotone(least, q * scale, b); } else { MulPositive(least - q * scale, b); }
  }

  /** Grows with the square root of the order's share of the day's volume. */
  function MarketImpact(m: TransactionCostModel, sizeUsd: real, volumeUsd: real, sqrt: real -> real): real {
    if sizeUsd <= 0.0 || volumeUsd <= 0.0 || m.marketImpactBps <= 0.0 then 0.0
    else Times(m.marketImpactBps, sqrt(Quotient(sizeUsd, volumeUsd)))
  }

  /** Taker fee, slippage and impact, paid on the way in and on the way out. */
  function RoundTrip(m: TransactionCostModel, sizeUsd: real, volumeUsd: real, sqrt: real -> real): real {
    2.0 * (m.takerFeeBps + m.avgSlippageBps + MarketImpact(m, sizeUsd, volumeUsd, sqrt))
  }

  /** The square root law: the squared impact is to the squared coefficient as the order is to the day's volume. */
  lemma ImpactSquared(m: TransactionCostModel, sizeUsd: real, volumeUsd: real, sqrt: real -> real)
    requires IsSqrt(sqrt) && sizeUsd > 0.0 && volumeUsd > 0.0 && m.marketImpactBps > 0.0
    ensures var impact := MarketImpact(m, sizeUsd, volumeUsd, sqrt);
      && impact >= 0.0
      && Times(Times(impact, impact), volumeUsd) == Times(Times(m.marketImpactBps, m.marketImpactBps), sizeUsd)
  {
    var share := Quotient(sizeUsd, volumeUsd);
    TimesInverse(volumeUsd, sizeUsd);
    var r, k := sqrt(share), m.marketImpactBps;
    assert share >= 0.0 && share * volumeUsd == sizeUsd;
    assert r >= 0.0 && r * r == share;
    MulNonNegative(k, r);
    SquareOfProduct(k, r);
    assert Times(Times(k, k), Times(r, r)) == Times(Times(k, k), share);
    ProductMoves(Times(k, k), share, volumeUsd);
  }

  lemma SquareOfProduct(a: real, b: real)
    ensures Times(Times(a, b), Times(a, b)) == Times(Times(a, a), Times(b, b))
  {
    assert (a * b) * (a * b) == (a * a) * (b * b);
  }

  lemma ProductMoves(a: real, b: real, c: real)
    ensures Times(Times(a, b), c) == Times(a, b * c)
  {
  }

  /** Going in and out costs the fee and the slippage twice, and the impact twice; a larger order never pays a smaller
      impact, and one without size pays none. */
  lemma RoundTripLaws(m: TransactionCostModel, sizeUsd: real, larger: real, volumeUsd: real, sqrt: real -> real)
    requires IsSqrt(sqrt) && sizeUsd <= larger
    ensures RoundTrip(m, sizeUsd, volumeUsd, sqrt) <= RoundTrip(m, larger, volumeUsd, sqrt)
    ensures sizeUsd <= 0.0 ==> RoundTrip(m, sizeUsd, volumeUsd, sqrt) == 2.0 * m.takerFeeBps + 2.0 * m.avgSlippageBps
    ensures RoundTrip(m, larger, volumeUsd, sqrt)
         == 2.0 * m.takerFeeBps + 2.0 * m.avgSlippageBps + 2.0 * MarketImpact(m, larger, volumeUsd, sqrt)
  {
    if larger > 0.0 && volumeUsd > 0.0 && m.marketImpactBps > 0.0 {
      ImpactSquared(m, larger, volumeUsd, sqrt);
      if sizeUsd > 0.0 {
        DivMonotone(sizeUsd, larger, volumeUsd);
        TimesInverse(volumeUsd, sizeUsd);
        TimesInverse(volumeUsd, larger);
        RootOrder(Quotient(sizeUsd, volumeUsd), Quotient(larger, volumeUsd), sqrt);
        hide Quotient;
        TimesOrder(m.marketImpactBps, sqrt(Quotient(sizeUsd, volumeUsd)), sqrt(Quotient(larger, volumeUsd)));
      }
    }
  }

  lemma RootOrder(x: real, y: real, sqrt: real -> real)
    requires IsSqrt(sqrt) && 0.0 <= x <= y
    ensures sqrt(x) <= sqrt(y)
  {
    var a, b := sqrt(x), sqrt(y);
    assert a >= 0.0 && b >= 0.0 && a * a == x && b * b == y;
    if a > b {
      MulPositive(a - b, a);
      MulNonNegative(a - b, b);
    }
  }
}
