/** The backtest replay (src/backtest/engine.rs): one position at a time over a candle list. What the strategies
    answer is a function of the candles so far; the square root of the impact model is a parameter. */
module Backtest {
  import opened Reals
  import opened Candles
  import opened Costs
  import opened Positions
  import opened Signals
  import Metrics

  datatype ExitKind = SL | TP

  datatype SimTrade = SimTrade(
    symbol: string,
    strategy: string,
    side: Side,
    entry: real,
    exit: real,
    pnl: real,
    pnlPct: real,
    barsHeld: nat,
    reason: ExitKind)

  datatype Engine = Engine(
    minTaConfidence: nat,
    riskPerTradeUsd: real,
    feeBps: real,
    slippageBps: real,
    marketImpactBps: real,
    minRewardRisk: real,
    maxPositionNotionalPct: real,
    minNetEdgeBps: real,
    assumedDailyVolumeUsd: real,
    equityUsd: real,
    tradingDaysPerYear: real,
    tradesPerDay: real,
    sqrt: real -> real)

  /** The answers of the chosen strategies, in order, given the candles so far. */
  type Strategies = seq<Candle> -> seq<Option<PreSignal>>

  const WARMUP := 205
  const TINY := 0.000000001

  // ---- Costs and sizes ----

  function RewardRisk(s: PreSignal): real {
    var risk := Abs(s.entry - s.stop);
    if risk <= 0.0 then 0.0 else Quotient(Abs(s.target - s.entry), risk)
  }

  function CostModel(e: Engine): TransactionCostModel {
    TransactionCostModel(e.feeBps, e.slippageBps, e.marketImpactBps)
  }

  function NetEdge(e: Engine, s: PreSignal, sizeUsd: real): real {
    var gross := if s.entry <= 0.0 then 0.0 else Quotient(Abs(s.target - s.entry), s.entry) * 10000.0;
    gross - RoundTrip(CostModel(e), sizeUsd, e.assumedDailyVolumeUsd, e.sqrt)
  }

  function SignalSize(e: Engine, s: PreSignal): real {
    var byRisk := Quotient(e.riskPerTradeUsd, Max(Abs(s.entry - s.stop), TINY));
    var byNotional := Quotient(Times(e.equityUsd, e.maxPositionNotionalPct) / 100.0, Max(s.entry, TINY));
    Max(Min(byRisk, byNotional), 0.0)
  }

  predicate Qualifies(e: Engine, s: PreSignal) {
    && s.taConfidence >= e.minTaConfidence
    && RewardRisk(s) >= e.minRewardRisk
    && NetEdge(e, s, Times(SignalSize(e, s), s.entry)) >= e.minNetEdgeBps
  }

  function Slip(e: Engine, s: PreSignal): real {
    var notional := Times(SignalSize(e, s), s.entry);
    (e.slippageBps + MarketImpact(CostModel(e), notional, e.assumedDailyVolumeUsd, e.sqrt)) / 10000.0
  }

  // ---- What one candle does ----

  function Hit(s: PreSignal, c: Candle): Option<ExitKind> {
    match s.side
    case Long => if c.low <= s.stop then Some(SL) else if c.high >= s.target then Some(TP) else None
    case Short => if c.high >= s.stop then Some(SL) else if c.low <= s.target then Some(TP) else None
  }

  function ExitPrice(s: PreSignal, why: ExitKind): real { if why.SL? then s.stop else s.target }

  function SlippedExit(e: Engine, s: PreSignal, why: ExitKind): real {
    if s.side == Long then Times(ExitPrice(s, why), 1.0 - Slip(e, s)) else Times(ExitPrice(s, why), 1.0 + Slip(e, s))
  }

  function Fees(e: Engine, s: PreSignal, exit: real): real {
    var size := SignalSize(e, s);
    Times(Times(s.entry, size) + Times(exit, size), e.feeBps) / 10000.0
  }

  function GrossPnl(e: Engine, s: PreSignal, exit: real): real {
    Times(if s.side == Long then exit - s.entry else s.entry - exit, SignalSize(e, s))
  }

  /** In f64 a zero price gives an infinite or undefined percentage; it is reported as 0 here. */
  function PnlPct(s: PreSignal, exit: real): real {
    var over, under := (if s.side == Long then exit else s.entry), (if s.side == Long then s.entry else exit);
    if under == 0.0 then 0.0 else (Quotient(over, under) - 1.0) * 100.0
  }

  function Settled(e: Engine, s: PreSignal, why: ExitKind, bars: nat): SimTrade {
    var exit := SlippedExit(e, s, why);
    SimTrade(s.symbol, s.strategy, s.side, s.entry, exit, GrossPnl(e, s, exit) - Fees(e, s, exit), PnlPct(s, exit),
             bars, why)
  }

  /** The first strategy answer that passes the gates. */
  function FirstQualifying(e: Engine, answers: seq<Option<PreSignal>>): (r: Option<PreSignal>)
    ensures r == None <==> forall k :: 0 <= k < |answers| && answers[k] != None ==> !Qualifies(e, answers[k].value)
    ensures r != None ==> Qualifies(e, r.value) && r in answers
  {
    if |answers| == 0 then None
    else if answers[0] != None && Qualifies(e, answers[0].value) then answers[0]
    else
      assert forall k :: 1 <= k < |answers| ==> answers[k] == answers[1..][k - 1];
      FirstQualifying(e, answers[1..])
  }

  function Chosen(e: Engine, strategies: Strategies, cs: seq<Candle>, i: nat): Option<PreSignal>
    requires i < |cs|
  {
    if i < WARMUP then None else FirstQualifying(e, strategies(cs[..i + 1]))
  }

  // ---- The replay, from one entry to the next ----

  /** The first candle from `i` on that offers an entry, or the end. */
  function NextEntry(e: Engine, strategies: Strategies, cs: seq<Candle>, i: nat): (a: nat)
    requires i <= |cs|
    ensures i <= a <= |cs|
    ensures a < |cs| ==> a >= WARMUP && Chosen(e, strategies, cs, a) != None
    ensures forall k :: i <= k < a ==> Chosen(e, strategies, cs, k) == None
    decreases |cs| - i
  {
    if i == |cs| || Chosen(e, strategies, cs, i) != None then i else NextEntry(e, strategies, cs, i + 1)
  }

  /** The first candle from `i` on at which the signal's stop or target is hit, or the end. */
  function NextHit(s: PreSignal, cs: seq<Candle>, i: nat): (b: nat)
    requires i <= |cs|
    ensures i <= b <= |cs|
    ensures b < |cs| ==> Hit(s, cs[b]) != None
    ensures forall k :: i <= k < b ==> Hit(s, cs[k]) == None
    decreases |cs| - i
  {
    if i == |cs| || Hit(s, cs[i]) != None then i else NextHit(s, cs, i + 1)
  }

  /** A position: opened at candle `entry`, closed at candle `exit`. */
  datatype Span = Span(entry: nat, exit: nat, signal: PreSignal)

  /** The closed positions of the replay from candle `i` on: enter at the first offer, leave at the first hit, go on
      from the candle of the exit. */
  function Spans(e: Engine, strategies: Strategies, cs: seq<Candle>, i: nat): seq<Span>
    requires i <= |cs|
    decreases |cs| - i
  {
    var a := NextEntry(e, strategies, cs, i);
    if a == |cs| then []
    else
      var s := Chosen(e, strategies, cs, a).value;
      var b := NextHit(s, cs, a + 1);
      if b == |cs| then [] else [Span(a, b, s)] + Spans(e, strategies, cs, b)
  }

  function TradeOf(e: Engine, cs: seq<Candle>, p: Span): SimTrade
    requires p.entry < p.exit < |cs| && Hit(p.signal, cs[p.exit]) != None
  {
    Settled(e, p.signal, Hit(p.signal, cs[p.exit]).value, p.exit - p.entry)
  }

  function Trades(e: Engine, strategies: Strategies, cs: seq<Candle>, i: nat): seq<SimTrade>
    requires i <= |cs|
    decreases |cs| - i, 0
  {
    var a := NextEntry(e, strategies, cs, i);
    if a == |cs| then [] else Remaining(e, strategies, cs, a, Chosen(e, strategies, cs, a).value, a + 1)
  }

  /** What a position opened at candle `a` and still open before candle `i` leads to. */
  function Remaining(e: Engine, strategies: Strategies, cs: seq<Candle>, a: nat, s: PreSignal, i: nat): seq<SimTrade>
    requires a < i <= |cs|
    decreases |cs| - i, 1
  {
    var b := NextHit(s, cs, i);
    if b == |cs| then [] else [TradeOf(e, cs, Span(a, b, s))] + Trades(e, strategies, cs, b)
  }

  datatype BacktestResult = BacktestResult(trades: seq<SimTrade>, metrics: Metrics.PerformanceMetrics)

  function Pnls(trades: seq<SimTrade>): (r: seq<real>)
    ensures |r| == |trades|
  {
    seq(|trades|, i requires 0 <= i < |trades| => trades[i].pnl)
  }

  function PeriodsPerYear(e: Engine): real { Times(e.tradingDaysPerYear, e.tradesPerDay) }

  /** The candle-by-candle loop produces the trades of the entry-to-entry form; the reported metrics describe them. */
  method Run(e: Engine, strategies: Strategies, cs: seq<Candle>) returns (r: BacktestResult)
    ensures r.trades == Trades(e, strategies, cs, 0)
    ensures Metrics.Describes(r.metrics, Pnls(r.trades), PeriodsPerYear(e), e.sqrt)
  {
    hide Metrics.Describes, PeriodsPerYear, Settled, Hit, Chosen, Trades, Remaining, Pnls, Sum;
    var open: Option<(PreSignal, nat)> := None;
    var trades: seq<SimTrade> := [];
    for i := 0 to |cs|
      invariant open != None ==> open.value.1 < i
      invariant trades + Ahead(e, strategies, cs, open, i) == Trades(e, strategies, cs, 0)
    {
      var c := cs[i];
      if open != None {
        var sig, bars := open.value.0, open.value.1;
        var hit := Hit(sig, c);
        if hit == None {
          HoldNow(e, strategies, cs, sig, bars, i);
          open := Some((sig, bars + 1));
          continue;
        }
        ExitNow(e, strategies, cs, sig, bars, i);
        trades := trades + [Settled(e, sig, hit.value, bars + 1)];
        open := None;
      }
      var chosen := LookForEntry(e, strategies, cs, i);
      if chosen != None { open := Some((chosen.value, 0)); }
      EntryNow(e, strategies, cs, i);
    }
    NothingAhead(e, strategies, cs, open);
    r := Report(e, trades);
  }

  /** Asks the strategies in turn and stops at the first answer that passes every gate. */
  method LookForEntry(e: Engine, strategies: Strategies, cs: seq<Candle>, i: nat) returns (r: Option<PreSignal>)
    requires i < |cs|
    ensures r == Chosen(e, strategies, cs, i)
  {
    hide Qualifies;
    if i < WARMUP { return None; }
    var answers := strategies(cs[..i + 1]);
    for k := 0 to |answers|
      invariant FirstQualifying(e, answers[k..]) == FirstQualifying(e, answers)
    {
      assert answers[k..][1..] == answers[k + 1..];
      if answers[k] != None && Qualifies(e, answers[k].value) { return answers[k]; }
    }
    return None;
  }

  method Report(e: Engine, trades: seq<SimTrade>) returns (r: BacktestResult)
    ensures r.trades == trades && Metrics.Describes(r.metrics, Pnls(trades), PeriodsPerYear(e), e.sqrt)
  {
    hide Metrics.Describes;
    var metrics := Metrics.FromTrades(Pnls(trades), PeriodsPerYear(e), e.sqrt);
    r := BacktestResult(trades, metrics);
  }

  /** What the loop has still to produce before candle i. */
  function Ahead(e: Engine, strategies: Strategies, cs: seq<Candle>, open: Option<(PreSignal, nat)>,
                 i: nat): seq<SimTrade>
    requires i <= |cs| && (open != None ==> open.value.1 < i)
  {
    match open
    case None => Trades(e, strategies, cs, i)
    case Some((s, bars)) => Remaining(e, strategies, cs, i - 1 - bars, s, i)
  }

  lemma ExitNow(e: Engine, strategies: Strategies, cs: seq<Candle>, s: PreSignal, bars: nat, i: nat)
    requires i < |cs| && bars < i && Hit(s, cs[i]) != None
    ensures Remaining(e, strategies, cs, i - 1 - bars, s, i)
        == [Settled(e, s, Hit(s, cs[i]).value, bars + 1)] + Trades(e, strategies, cs, i)
  {
    hide Settled, Hit;
  }

  lemma HoldNow(e: Engine, strategies: Strategies, cs: seq<Candle>, s: PreSignal, bars: nat, i: nat)
    requires i < |cs| && bars < i && Hit(s, cs[i]) == None
    ensures Remaining(e, strategies, cs, i - 1 - bars, s, i) == Remaining(e, strategies, cs, i - 1 - bars, s, i + 1)
  {
    hide Settled, Hit, Trades;
  }

  lemma EntryNow(e: Engine, strategies: Strategies, cs: seq<Candle>, i: nat)
    requires i < |cs|
    ensures Trades(e, strategies, cs, i) ==
              match Chosen(e, strategies, cs, i)
              case None => Trades(e, strategies, cs, i + 1)
              case Some(s) => Remaining(e, strategies, cs, i, s, i + 1)
  {
    hide Settled, Hit, Chosen;
  }

  lemma NothingAhead(e: Engine, strategies: Strategies, cs: seq<Candle>, open: Option<(PreSignal, nat)>)
    requires open != None ==> open.value.1 < |cs|
    ensures Ahead(e, strategies, cs, open, |cs|) == []
  {
  }

  // ---- What the trades satisfy ----

  /** A span the replay can produce: it opens on an answer that passed the gates, after the warm-up, and closes at
      the first hit after it. */
  ghost predicate Played(e: Engine, strategies: Strategies, cs: seq<Candle>, p: Span) {
    && 205 <= p.entry < p.exit < |cs|
    && Chosen(e, strategies, cs, p.entry) == Some(p.signal)
    && Hit(p.signal, cs[p.exit]) != None
    && forall k :: p.entry < k < p.exit ==> Hit(p.signal, cs[k]) == None
  }

  /** Trades and spans correspond one to one, and bars_held is the number of candles between entry and exit. */
  lemma {:induction false} TradesAreSpans(e: Engine, strategies: Strategies, cs: seq<Candle>, i: nat)
    requires i <= |cs|
    ensures var spans, trades := Spans(e, strategies, cs, i), Trades(e, strategies, cs, i);
      && |spans| == |trades|
      && (forall k :: 0 <= k < |spans| ==> Played(e, strategies, cs, spans[k]) && i <= spans[k].entry)
      && (forall k :: 0 <= k < |spans| ==> trades[k] == TradeOf(e, cs, spans[k]))
    decreases |cs| - i
  {
    hide Settled, Hit, Chosen;
    var a := NextEntry(e, strategies, cs, i);
    if a < |cs| {
      var s := Chosen(e, strategies, cs, a).value;
      var b := NextHit(s, cs, a + 1);
      if b < |cs| {
        TradesAreSpans(e, strategies, cs, b);
        hide NextEntry, NextHit;
        assert Played(e, strategies, cs, Span(a, b, s));
        var rest := Spans(e, strategies, cs, b);
        assert Spans(e, strategies, cs, i) == [Span(a, b, s)] + rest;
        assert Trades(e, strategies, cs, i) == [TradeOf(e, cs, Span(a, b, s))] + Trades(e, strategies, cs, b);
      }
    }
  }

  /** One position at a time: every span begins no earlier than the one before it ended. */
  lemma {:induction false} SpansOrdered(e: Engine, strategies: Strategies, cs: seq<Candle>, i: nat)
    requires i <= |cs|
    ensures var spans := Spans(e, strategies, cs, i);
      forall j, k :: 0 <= j < k < |spans| ==> spans[j].exit <= spans[k].entry
    decreases |cs| - i
  {
    hide Hit, Chosen, NextEntry, NextHit, TradeOf, Trades;
    var a := NextEntry(e, strategies, cs, i);
    if a < |cs| {
      var s := Chosen(e, strategies, cs, a).value;
      var b := NextHit(s, cs, a + 1);
      if b < |cs| {
        SpansOrdered(e, strategies, cs, b);
        TradesAreSpans(e, strategies, cs, b);
      }
    }
  }

  /** The trades of a replay: disjoint ordered spans, held bars equal to the span's length, net pnl their sum. */
  lemma ReplayLaws(e: Engine, strategies: Strategies, cs: seq<Candle>)
    ensures var spans, trades := Spans(e, strategies, cs, 0), Trades(e, strategies, cs, 0);
      && |spans| == |trades|
      && (forall k :: 0 <= k < |spans| ==>
            Played(e, strategies, cs, spans[k]) && trades[k].barsHeld == spans[k].exit - spans[k].entry)
      && (forall j, k :: 0 <= j < k < |spans| ==> spans[j].exit <= spans[k].entry)
  {
    TradesAreSpans(e, strategies, cs, 0);
    SpansOrdered(e, strategies, cs, 0);
    hide Hit, Chosen, Spans, Trades, SlippedExit, GrossPnl, Fees, PnlPct;
  }

  predicate StopTouched(s: PreSignal, c: Candle) { if s.side == Long then c.low <= s.stop else c.high >= s.stop }

  predicate TargetTouched(s: PreSignal, c: Candle) { if s.side == Long then c.high >= s.target else c.low <= s.target }

  /** A trade ends at the first candle that touches its stop or its target; if that one touches both, at the stop. */
  ghost predicate EndsAtTouch(cs: seq<Candle>, p: Span, why: ExitKind) {
    && p.entry < p.exit < |cs|
    && (why == SL <==> StopTouched(p.signal, cs[p.exit]))
    && (why == TP <==> !StopTouched(p.signal, cs[p.exit]) && TargetTouched(p.signal, cs[p.exit]))
    && forall k :: p.entry < k < p.exit ==> !StopTouched(p.signal, cs[k]) && !TargetTouched(p.signal, cs[k])
  }

  lemma HitIsTouch(s: PreSignal, c: Candle)
    ensures Hit(s, c) == Some(SL) <==> StopTouched(s, c)
    ensures Hit(s, c) == Some(TP) <==> !StopTouched(s, c) && TargetTouched(s, c)
  {
  }

  /** So ends every trade of every replay. */
  lemma ExitsAtTouch(e: Engine, strategies: Strategies, cs: seq<Candle>)
    ensures var spans, trades := Spans(e, strategies, cs, 0), Trades(e, strategies, cs, 0);
      && |spans| == |trades|
      && forall k :: 0 <= k < |trades| ==> EndsAtTouch(cs, spans[k], trades[k].reason)
  {
    TradesAreSpans(e, strategies, cs, 0);
    var spans, trades := Spans(e, strategies, cs, 0), Trades(e, strategies, cs, 0);
    hide Hit, Chosen, Spans, Trades, SlippedExit, GrossPnl, Fees, PnlPct, StopTouched, TargetTouched;
    forall k | 0 <= k < |trades| ensures EndsAtTouch(cs, spans[k], trades[k].reason) {
      assert Played(e, strategies, cs, spans[k]);
      forall i | 0 <= i < |cs| ensures Hit(spans[k].signal, cs[i]) == None
                                   <==> !StopTouched(spans[k].signal, cs[i]) && !TargetTouched(spans[k].signal, cs[i])
      {
        HitIsTouch(spans[k].signal, cs[i]);
      }
      HitIsTouch(spans[k].signal, cs[spans[k].exit]);
    }
  }

  // ---- What a trade earns ----

  /** How far a level lies from entry in the trade's favour. */
  function Gain(s: PreSignal, level: real): real { if s.side == Long then level - s.entry else s.entry - level }

  /** Ten thousand times a trade's result: the size times the gain to the level it left at, less the slippage and
      impact in basis points of the exit notional, less the fee in basis points of both notionals. */
  lemma SettledResult(e: Engine, s: PreSignal, why: ExitKind, bars: nat)
    ensures var t, size, level := Settled(e, s, why, bars), SignalSize(e, s), if why.SL? then s.stop else s.target;
      var impact := MarketImpact(CostModel(e), Times(size, s.entry), e.assumedDailyVolumeUsd, e.sqrt);
      10000.0 * t.pnl == 10000.0 * Times(Gain(s, level), size)
                       - Times(e.slippageBps + impact, Times(level, size))
                       - Times(e.feeBps, Times(s.entry, size) + Times(t.exit, size))
  {
    var size, level := SignalSize(e, s), if why.SL? then s.stop else s.target;
    var t := Settled(e, s, why, bars);
    var impact := MarketImpact(CostModel(e), Times(size, s.entry), e.assumedDailyVolumeUsd, e.sqrt);
    hide SignalSize, PnlPct, MarketImpact;
    SlipLoss(s.side, s.entry, level, Slip(e, s), size);
    TenThousandths(e.slippageBps + impact, Times(level, size));
    assert Times(e.feeBps, Times(s.entry, size) + Times(t.exit, size))
        == Times(Times(s.entry, size) + Times(t.exit, size), e.feeBps);
    hide Times;
  }

  lemma TenThousandths(bps: real, x: real)
    ensures 10000.0 * Times(bps / 10000.0, x) == Times(bps, x)
  {
  }

  /** The reported percentage: of the entry for a Long, of the exit for a Short. */
  lemma PercentMeaning(s: PreSignal, exit: real)
    ensures s.side == Long && s.entry != 0.0 ==> Times(PnlPct(s, exit), s.entry) == 100.0 * (exit - s.entry)
    ensures s.side == Short && exit != 0.0 ==> Times(PnlPct(s, exit), exit) == 100.0 * (s.entry - exit)
  {
    if s.side == Long && s.entry != 0.0 { PercentOf(exit, s.entry); }
    if s.side == Short && exit != 0.0 { PercentOf(s.entry, exit); }
    hide Times;
  }

  lemma PercentOf(over: real, under: real)
    requires under != 0.0
    ensures Times((Quotient(over, under) - 1.0) * 100.0, under) == 100.0 * (over - under)
  {
    var q := Quotient(over, under);
    assert q * under == over;
    assert ((q - 1.0) * 100.0) * under == 100.0 * (q * under - under);
  }

  /** What an answer must satisfy to be entered, without a division. */
  lemma QualifiesIff(e: Engine, s: PreSignal)
    requires s.entry > 0.0 && s.entry != s.stop
    ensures var costs := RoundTrip(CostModel(e), Times(SignalSize(e, s), s.entry), e.assumedDailyVolumeUsd, e.sqrt);
      Qualifies(e, s) <==>
        && s.taConfidence >= e.minTaConfidence
        && Abs(s.target - s.entry) >= Times(e.minRewardRisk, Abs(s.entry - s.stop))
        && 10000.0 * Abs(s.target - s.entry) >= Times(e.minNetEdgeBps + costs, s.entry)
  {
    hide SignalSize;
    var costs := RoundTrip(CostModel(e), Times(SignalSize(e, s), s.entry), e.assumedDailyVolumeUsd, e.sqrt);
    hide RoundTrip;
    QuotientReaches(Abs(s.target - s.entry), Abs(s.entry - s.stop), e.minRewardRisk, 1.0);
    QuotientReaches(Abs(s.target - s.entry), s.entry, e.minNetEdgeBps + costs, 10000.0);
    hide Times, Quotient;
  }

  // ---- The loss of a stopped trade ----

  /** What a stop exit costs per unit before slippage; negative for a stop on the winning side. */
  function StopDistance(s: PreSignal): real { if s.side == Long then s.entry - s.stop else s.stop - s.entry }

  lemma SizeWithinRisk(e: Engine, s: PreSignal)
    requires e.riskPerTradeUsd >= 0.0
    ensures SignalSize(e, s) >= 0.0
    ensures Times(Abs(s.entry - s.stop), SignalSize(e, s)) <= e.riskPerTradeUsd
  {
    var distance, size := Max(Abs(s.entry - s.stop), TINY), SignalSize(e, s);
    var byRisk := Quotient(e.riskPerTradeUsd, distance);
    TimesInverse(distance, e.riskPerTradeUsd);
    assert size <= byRisk;
    QuotientTimes(e.riskPerTradeUsd, distance);
    hide SignalSize, Times, Quotient;
    TimesMonotone(Abs(s.entry - s.stop), distance, size);
    TimesOrder(distance, size, byRisk);
  }

  lemma QuotientTimes(a: real, b: real)
    requires b > 0.0
    ensures Times(b, Quotient(a, b)) == a
  {
  }

  lemma SlipLoss(side: Side, entry: real, stop: real, slip: real, size: real)
    ensures var exit := if side == Long then Times(stop, 1.0 - slip) else Times(stop, 1.0 + slip);
      Times(if side == Long then exit - entry else entry - exit, size)
      == Times(if side == Long then stop - entry else entry - stop, size) - Times(slip, Times(stop, size))
  {
    if side == Long {
      assert stop * (1.0 - slip) == stop - slip * stop;
      SplitProduct(stop - entry, slip * stop, size);
    } else {
      assert stop * (1.0 + slip) == stop + slip * stop;
      SplitProduct(entry - stop, slip * stop, size);
    }
    TimesAssociative(slip, stop, size);
  }

  lemma SplitProduct(a: real, b: real, c: real)
    ensures (a - b) * c == a * c - b * c
  {
  }

  lemma NegatedTimes(a: real, b: real)
    ensures Times(0.0 - a, b) == 0.0 - Times(a, b)
  {
  }

  /** Slippage on the exit notional, plus fees. */
  function ExitCosts(e: Engine, s: PreSignal, exit: real): real {
    Times(Slip(e, s), Times(s.stop, SignalSize(e, s))) + Fees(e, s, exit)
  }

  /** A stop exit loses exactly the stop distance times the size, plus slippage on the exit notional, plus fees; the
      first part never exceeds the configured risk per trade. */
  lemma StopLossBound(e: Engine, s: PreSignal, bars: nat)
    requires e.riskPerTradeUsd >= 0.0
    ensures var t := Settled(e, s, SL, bars);
      && -t.pnl == Times(StopDistance(s), SignalSize(e, s)) + ExitCosts(e, s, t.exit)
      && -t.pnl <= e.riskPerTradeUsd + ExitCosts(e, s, t.exit)
  {
    SizeWithinRisk(e, s);
    hide Times, SignalSize, Slip, Fees, PnlPct;
    SlipLoss(s.side, s.entry, s.stop, Slip(e, s), SignalSize(e, s));
    NegatedTimes(StopDistance(s), SignalSize(e, s));
    TimesMonotone(StopDistance(s), Abs(s.entry - s.stop), SignalSize(e, s));
  }

  /** So no trade of any replay that ends at its stop loses more than the configured risk, the slippage and the
      fees. */
  lemma StoppedTradesBound(e: Engine, strategies: Strategies, cs: seq<Candle>)
    requires e.riskPerTradeUsd >= 0.0
    ensures var spans, trades := Spans(e, strategies, cs, 0), Trades(e, strategies, cs, 0);
      && |spans| == |trades|
      && forall k :: 0 <= k < |trades| && trades[k].reason.SL? ==>
           -trades[k].pnl <= e.riskPerTradeUsd + ExitCosts(e, spans[k].signal, trades[k].exit)
  {
    TradesAreSpans(e, strategies, cs, 0);
    var spans, trades := Spans(e, strategies, cs, 0), Trades(e, strategies, cs, 0);
    hide Hit, Chosen, Spans, Trades, SlippedExit, GrossPnl, Fees, PnlPct, ExitCosts;
    forall k | 0 <= k < |trades| && trades[k].reason.SL?
      ensures -trades[k].pnl <= e.riskPerTradeUsd + ExitCosts(e, spans[k].signal, trades[k].exit)
    {
      assert Played(e, strategies, cs, spans[k]);
      StopLossBound(e, spans[k].signal, spans[k].exit - spans[k].entry);
    }
  }

  // ---- No look-ahead ----

  /** Later candles change nothing that has been decided: the trades of a history are a prefix of the trades of any
      longer one. */
  lemma {:induction false} LaterCandlesChangeNothing(e: Engine, strategies: Strategies, cs: seq<Candle>,
                                                     more: seq<Candle>, i: nat)
    requires i <= |cs|
    ensures Trades(e, strategies, cs, i) <= Trades(e, strategies, cs + more, i)
    decreases |cs| - i
  {
    hide Settled, Hit, Chosen, NextEntry, NextHit;
    var all := cs + more;
    var a := NextEntry(e, strategies, cs, i);
    SameEntry(e, strategies, cs, more, i);
    if a < |cs| {
      SameChoice(e, strategies, cs, more, a);
      var s := Chosen(e, strategies, cs, a).value;
      SameHit(s, cs, more, a + 1);
      var b := NextHit(s, cs, a + 1);
      if b < |cs| { LaterCandlesChangeNothing(e, strategies, cs, more, b); }
    }
  }

  lemma SameChoice(e: Engine, strategies: Strategies, cs: seq<Candle>, more: seq<Candle>, i: nat)
    requires i < |cs|
    ensures Chosen(e, strategies, cs + more, i) == Chosen(e, strategies, cs, i)
  {
    assert (cs + more)[..i + 1] == cs[..i + 1];
  }

  lemma {:induction false} SameEntry(e: Engine, strategies: Strategies, cs: seq<Candle>, more: seq<Candle>, i: nat)
    requires i <= |cs|
    ensures var a, a' := NextEntry(e, strategies, cs, i), NextEntry(e, strategies, cs + more, i);
      if a < |cs| then a' == a else a' >= |cs|
    decreases |cs| - i
  {
    hide Chosen;
    if i < |cs| {
      SameChoice(e, strategies, cs, more, i);
      if Chosen(e, strategies, cs, i) == None { SameEntry(e, strategies, cs, more, i + 1); }
    }
  }

  lemma {:induction false} SameHit(s: PreSignal, cs: seq<Candle>, more: seq<Candle>, i: nat)
    requires i <= |cs|
    ensures var b, b' := NextHit(s, cs, i), NextHit(s, cs + more, i);
      if b < |cs| then b' == b else b' >= |cs|
    decreases |cs| - i
  {
    hide Hit;
    if i < |cs| && Hit(s, cs[i]) == None { SameHit(s, cs, more, i + 1); }
  }
}
