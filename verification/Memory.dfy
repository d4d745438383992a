/** Performance memory (src/learning/memory.rs): one pass over the closed trades updates seven groups
    of statistics; each is proved to be the statistics of the trades selected by its key. */
module Memory {
  import opened Reals
  import opened Windows
  import Metrics

  datatype ClosedTrade = ClosedTrade(
    symbol: string,
    strategy: string,
    regime: string,
    exitTime: int,
    pnlUsd: real,
    pnlPct: real,
    llmConfidence: Option<nat>)
  {
    predicate IsWin() { pnlUsd > 0.0 }
  }

  datatype StrategyStats = StrategyStats(
    trades: nat,
    wins: nat,
    losses: nat,
    netPnl: real,
    grossProfit: real,
    grossLoss: real,
    avgPnlUsd: real,
    avgPnlPct: real,
    recentStreak: int,
    last5: seq<bool>)
  {
    function WinRate(): real { if trades == 0 then 0.0 else wins as real / trades as real }

    /** None is f64::INFINITY. */
    function ProfitFactor(): Option<real> {
      if grossLoss <= 0.0 then (if grossProfit > 0.0 then None else Some(0.0)) else Some(grossProfit / grossLoss)
    }
  }

  const DEFAULT := StrategyStats(0, 0, 0, 0.0, 0.0, 0.0, 0.0, 0.0, 0, [])

  // ---- The declarative form: statistics of a list of trades ----

  /** The additive part of the statistics. */
  datatype Totals = Totals(trades: nat, wins: nat, losses: nat, netPnl: real, grossProfit: real, grossLoss: real) {
    function Plus(o: Totals): Totals {
      Totals(trades + o.trades, wins + o.wins, losses + o.losses,
             netPnl + o.netPnl, grossProfit + o.grossProfit, grossLoss + o.grossLoss)
    }
  }

  const NOTHING := Totals(0, 0, 0, 0.0, 0.0, 0.0)

  function TotalsOfTrade(t: ClosedTrade): Totals {
    if t.IsWin() then Totals(1, 1, 0, t.pnlUsd, t.pnlUsd, 0.0) else Totals(1, 0, 1, t.pnlUsd, 0.0, Abs(t.pnlUsd))
  }

  function TotalsOf(ts: seq<ClosedTrade>): Totals
  {
    if |ts| == 0 then NOTHING else TotalsOf(ts[..|ts| - 1]).Plus(TotalsOfTrade(ts[|ts| - 1]))
  }

  function Outcomes(ts: seq<ClosedTrade>): (r: seq<bool>)
    ensures |r| == |ts|
  {
    seq(|ts|, i requires 0 <= i < |ts| => ts[i].IsWin())
  }

  function Percents(ts: seq<ClosedTrade>): (r: seq<real>)
    ensures |r| == |ts|
  {
    seq(|ts|, i requires 0 <= i < |ts| => ts[i].pnlPct)
  }

  /** How many of the newest outcomes are equal. */
  function TrailingRun(os: seq<bool>): (n: nat)
    ensures n <= |os| && (|os| > 0 ==> n > 0)
  {
    if |os| == 0 then 0
    else if |os| == 1 || os[|os| - 1] != os[|os| - 2] then 1
    else TrailingRun(os[..|os| - 1]) + 1
  }

  /** The signed run: positive for wins, negative for losses, never counted beyond 5. */
  function Streak(os: seq<bool>): int {
    var run := if TrailingRun(os) < 5 then TrailingRun(os) else 5;
    if |os| == 0 then 0 else if os[|os| - 1] then run else -run
  }

  /** The accumulators while the pass is under way. */
  function Partial(ts: seq<ClosedTrade>): StrategyStats {
    var a := TotalsOf(ts);
    StrategyStats(a.trades, a.wins, a.losses, a.netPnl, a.grossProfit, a.grossLoss,
                  0.0, Sum(Percents(ts)), 0, Window(Outcomes(ts), 5))
  }

  function Averaged(total: real, n: nat): real { if n == 0 then total else total / n as real }

  /** The finished statistics of a list of trades, oldest first. */
  function StatsOf(ts: seq<ClosedTrade>): StrategyStats {
    var a := TotalsOf(ts);
    StrategyStats(a.trades, a.wins, a.losses, a.netPnl, a.grossProfit, a.grossLoss,
                  Averaged(a.netPnl, |ts|), Averaged(Sum(Percents(ts)), |ts|),
                  Streak(Outcomes(ts)), Window(Outcomes(ts), 5))
  }

  function Select<K(==)>(ts: seq<ClosedTrade>, key: ClosedTrade -> K, k: K): seq<ClosedTrade>
  {
    if |ts| == 0 then []
    else Select(ts[..|ts| - 1], key, k) + (if key(ts[|ts| - 1]) == k then [ts[|ts| - 1]] else [])
  }

  /** A group: exactly the keys that occur, each with the statistics of its own trades. */
  ghost predicate Grouped<K(!new)>(m: map<K, StrategyStats>, ts: seq<ClosedTrade>, key: ClosedTrade -> K) {
    && (forall k :: k in m <==> exists i :: 0 <= i < |ts| && key(ts[i]) == k)
    && forall k :: k in m ==> m[k] == StatsOf(Select(ts, key, k))
  }

  ghost predicate Accumulates<K(!new)>(m: map<K, StrategyStats>, ts: seq<ClosedTrade>, key: ClosedTrade -> K) {
    && (forall k :: k in m <==> exists i :: 0 <= i < |ts| && key(ts[i]) == k)
    && forall k :: k in m ==> m[k] == Partial(Select(ts, key, k))
  }

  function ByStrategy(t: ClosedTrade): string { t.strategy }
  function BySymbol(t: ClosedTrade): string { t.symbol }
  function ByStrategyRegime(t: ClosedTrade): (string, string) { (t.strategy, t.regime) }
  function ByStrategySymbol(t: ClosedTrade): (string, string) { (t.strategy, t.symbol) }

  /** The UTC hour of the exit time. */
  function ByHour(t: ClosedTrade): int { t.exitTime / 3_600_000 % 24 }

  /** Tens of the reported confidence, 90 and above together; trades without one are in no bucket. */
  function ByConfidence(t: ClosedTrade): int {
    match t.llmConfidence case None => -1 case Some(c) => if c / 10 < 9 then c / 10 else 9
  }

  /** The hour key: the exit time lies in that hour of its day. */
  lemma HourMeaning(t: ClosedTrade)
    ensures 0 <= ByHour(t) < 24
    ensures var day := t.exitTime / 86_400_000;
      day * 86_400_000 + ByHour(t) * 3_600_000 <= t.exitTime < day * 86_400_000 + (ByHour(t) + 1) * 3_600_000
  {
    var h := t.exitTime / 3_600_000;
    assert h / 24 == t.exitTime / 86_400_000;
  }

  /** The confidence key: tens of per cent, the last one open-ended. */
  lemma ConfidenceMeaning(t: ClosedTrade)
    ensures t.llmConfidence == None <==> ByConfidence(t) == -1
    ensures t.llmConfidence != None ==>
              var c, b := t.llmConfidence.value, ByConfidence(t);
              0 <= b <= 9 && 10 * b <= c && (b < 9 ==> c < 10 * b + 10)
  {
  }

  datatype PerformanceMemory = PerformanceMemory(
    overall: StrategyStats,
    byStrategy: map<string, StrategyStats>,
    byStrategyRegime: map<(string, string), StrategyStats>,
    byStrategySymbol: map<(string, string), StrategyStats>,
    bySymbol: map<string, StrategyStats>,
    byHour: map<int, StrategyStats>,
    llmCalibration: seq<StrategyStats>,
    recentHourPnl: real,
    recentHourTrades: nat)

  function Recent(ts: seq<ClosedTrade>, since: int): seq<ClosedTrade>
  {
    if |ts| == 0 then []
    else Recent(ts[..|ts| - 1], since) + (if ts[|ts| - 1].exitTime >= since then [ts[|ts| - 1]] else [])
  }

  function Reversed<T>(s: seq<T>): (r: seq<T>)
    ensures |r| == |s|
  {
    seq(|s|, i requires 0 <= i < |s| => s[|s| - 1 - i])
  }

  ghost predicate Describes(m: PerformanceMemory, ts: seq<ClosedTrade>, since: int) {
    && m.overall == StatsOf(ts)
    && Grouped(m.byStrategy, ts, ByStrategy)
    && Grouped(m.byStrategyRegime, ts, ByStrategyRegime)
    && Grouped(m.byStrategySymbol, ts, ByStrategySymbol)
    && Grouped(m.bySymbol, ts, BySymbol)
    && Grouped(m.byHour, ts, ByHour)
    && |m.llmCalibration| == 10
    && (forall b :: 0 <= b < 10 ==> m.llmCalibration[b] == StatsOf(Select(ts, ByConfidence, b)))
    && m.recentHourPnl == TotalsOf(Recent(ts, since)).netPnl
    && m.recentHourTrades == |Recent(ts, since)|
  }

  // ---- The pass ----

  function Update(s: StrategyStats, t: ClosedTrade): StrategyStats {
    var counted :=
      if t.IsWin() then s.(wins := s.wins + 1, grossProfit := s.grossProfit + t.pnlUsd)
      else s.(losses := s.losses + 1, grossLoss := s.grossLoss + Abs(t.pnlUsd));
    var kept := if |s.last5| == 5 then s.last5[1..] else s.last5;
    counted.(trades := s.trades + 1, netPnl := s.netPnl + t.pnlUsd, avgPnlPct := s.avgPnlPct + t.pnlPct,
             last5 := kept + [t.IsWin()])
  }

  lemma TotalsSnoc(ts: seq<ClosedTrade>, t: ClosedTrade)
    ensures TotalsOf(ts + [t]) == TotalsOf(ts).Plus(TotalsOfTrade(t))
  {
    assert (ts + [t])[..|ts|] == ts;
  }

  lemma UpdateStep(ts: seq<ClosedTrade>, t: ClosedTrade)
    ensures Partial(ts + [t]) == Update(Partial(ts), t)
  {
    hide TotalsOf, Sum, Window;
    TotalsSnoc(ts, t);
    assert Outcomes(ts + [t]) == Outcomes(ts) + [t.IsWin()];
    assert Percents(ts + [t]) == Percents(ts) + [t.pnlPct];
    SumSnoc(Percents(ts), t.pnlPct);
    Slide(Outcomes(ts), t.IsWin(), 5);
  }

  function Bump<K(==)>(m: map<K, StrategyStats>, k: K, t: ClosedTrade): map<K, StrategyStats> {
    m[k := Update(if k in m then m[k] else DEFAULT, t)]
  }

  lemma SelectSnoc<K>(ts: seq<ClosedTrade>, t: ClosedTrade, key: ClosedTrade -> K, k: K)
    ensures Select(ts + [t], key, k) == if key(t) == k then Select(ts, key, k) + [t] else Select(ts, key, k)
  {
    assert (ts + [t])[..|ts|] == ts;
  }

  lemma {:induction false} SelectAbsent<K>(ts: seq<ClosedTrade>, key: ClosedTrade -> K, k: K)
    requires forall i :: 0 <= i < |ts| ==> key(ts[i]) != k
    ensures Select(ts, key, k) == []
  {
    if |ts| > 0 { SelectAbsent(ts[..|ts| - 1], key, k); }
  }

  lemma PartialNone()
    ensures Partial([]) == DEFAULT
  {
  }

  lemma BumpStep<K(!new)>(m: map<K, StrategyStats>, ts: seq<ClosedTrade>, t: ClosedTrade, key: ClosedTrade -> K)
    requires Accumulates(m, ts, key)
    ensures Accumulates(Bump(m, key(t), t), ts + [t], key)
  {
    hide Partial, Update;
    var more := ts + [t];
    var m' := Bump(m, key(t), t);
    forall k ensures k in m' <==> exists i :: 0 <= i < |more| && key(more[i]) == k {
      if k == key(t) { assert key(more[|ts|]) == k; }
      if k in m {
        var i :| 0 <= i < |ts| && key(ts[i]) == k;
        assert key(more[i]) == k;
      }
    }
    forall k | k in m' ensures m'[k] == Partial(Select(more, key, k)) {
      SelectSnoc(ts, t, key, k);
      if k == key(t) {
        UpdateStep(Select(ts, key, k), t);
        if k !in m {
          SelectAbsent(ts, key, k);
          PartialNone();
        }
      }
    }
  }

  lemma WindowEnds(os: seq<bool>, n: nat)
    requires 1 < n < |os|
    ensures var w, last := Window(os, n), |os| - 1;
      w[..n - 1] == Window(os[..last], n - 1) && w[n - 1] == os[last] && w[n - 2] == os[last - 1]
  {
  }

  lemma {:induction false} RunInWindow(os: seq<bool>, n: nat)
    requires n > 0
    ensures TrailingRun(Window(os, n)) == if TrailingRun(os) < n then TrailingRun(os) else n
  {
    if |os| <= n {
      assert Window(os, n) == os;
    } else if n > 1 {
      WindowEnds(os, n);
      hide Window;
      RunInWindow(os[..|os| - 1], n - 1);
    }
  }

  /** The streak loop walks the kept outcomes newest first and stops at the first change. */
  method TrailingStreak(last5: seq<bool>) returns (streak: int)
    requires |last5| <= 5
    ensures streak == Streak(last5)
  {
    streak := 0;
    var last: Option<bool> := None;
    var i := |last5|;
    while i > 0
      invariant 0 <= i <= |last5|
      invariant last == if i == |last5| then None else Some(last5[|last5| - 1])
      invariant forall k :: i <= k < |last5| ==> last5[k] == last5[|last5| - 1]
      invariant streak == if i < |last5| && last5[|last5| - 1] then |last5| - i else i - |last5|
    {
      var w := last5[i - 1];
      match last {
        case None =>
          streak := if w then 1 else -1;
          last := Some(w);
        case Some(prev) =>
          if prev != w {
            RunEnds(last5, i);
            return;
          }
          streak := streak + if w then 1 else -1;
      }
      i := i - 1;
    }
    if |last5| > 0 { RunEnds(last5, 0); }
  }

  lemma {:induction false} RunEnds(os: seq<bool>, i: nat)
    requires i < |os| && (forall k :: i <= k < |os| ==> os[k] == os[|os| - 1])
    requires i > 0 ==> os[i - 1] != os[|os| - 1]
    ensures TrailingRun(os) == |os| - i
    decreases |os|
  {
    if i < |os| - 1 { RunEnds(os[..|os| - 1], i); }
  }

  method Finalize(s: StrategyStats, ghost ts: seq<ClosedTrade>) returns (r: StrategyStats)
    requires s == Partial(ts)
    ensures r == StatsOf(ts)
  {
    TradesCounted(ts);
    r := s;
    if s.trades > 0 {
      r := r.(avgPnlUsd := s.netPnl / s.trades as real, avgPnlPct := s.avgPnlPct / s.trades as real);
    }
    var streak := TrailingStreak(s.last5);
    WindowStreak(Outcomes(ts));
    r := r.(recentStreak := streak);
    hide TotalsOf, Outcomes, Percents, Streak, Window;
    if |ts| == 0 { NothingTraded(ts); }
  }

  lemma NothingTraded(ts: seq<ClosedTrade>)
    requires |ts| == 0
    ensures TotalsOf(ts).netPnl == 0.0
  {
  }

  /** The averages times the number of trades are the totals, the win rate times it the wins, and the profit factor
      times the gross loss the gross profit. */
  lemma RatiosMeaning(ts: seq<ClosedTrade>)
    requires |ts| > 0
    ensures var s, n := StatsOf(ts), |ts| as real;
      && Times(s.avgPnlUsd, n) == s.netPnl && Times(s.avgPnlPct, n) == Sum(Percents(ts))
      && Times(s.WinRate(), n) == s.wins as real
      && (s.grossLoss > 0.0 ==> s.ProfitFactor() != None && Times(s.ProfitFactor().value, s.grossLoss) == s.grossProfit)
  {
    TradesCounted(ts);
    hide TotalsOf, Percents, Sum, Streak, Outcomes, Window;
    var n := |ts| as real;
    QuotientBack(StatsOf(ts).netPnl, n);
    QuotientBack(Sum(Percents(ts)), n);
    QuotientBack(StatsOf(ts).wins as real, n);
    if StatsOf(ts).grossLoss > 0.0 { QuotientBack(StatsOf(ts).grossProfit, StatsOf(ts).grossLoss); }
    hide Times;
  }

  lemma QuotientBack(a: real, b: real)
    requires b != 0.0
    ensures Times(a / b, b) == a
  {
  }

  /** The memory's gross figures are those of the backtest metrics over the same profits. */
  lemma {:induction false} AgreesWithMetrics(ts: seq<ClosedTrade>)
    ensures var pnls := Profits(ts);
      && TotalsOf(ts).wins == |Metrics.Wins(pnls)| && TotalsOf(ts).grossProfit == Sum(Metrics.Wins(pnls))
      && TotalsOf(ts).grossLoss == Sum(Metrics.Losses(pnls)) && TotalsOf(ts).netPnl == Sum(pnls)
  {
    if |ts| == 0 {
      assert Profits(ts) == [];
    } else {
      hide Sum, Metrics.Wins, Metrics.Losses;
      var n := |ts| - 1;
      AgreesWithMetrics(ts[..n]);
      assert Profits(ts) == Profits(ts[..n]) + [ts[n].pnlUsd];
      hide Profits;
      MetricsSnoc(Profits(ts[..n]), ts[n].pnlUsd);
    }
  }

  lemma MetricsSnoc(pnls: seq<real>, x: real)
    ensures Sum(pnls + [x]) == Sum(pnls) + x
    ensures |Metrics.Wins(pnls + [x])| == |Metrics.Wins(pnls)| + (if x > 0.0 then 1 else 0)
    ensures Sum(Metrics.Wins(pnls + [x])) == Sum(Metrics.Wins(pnls)) + (if x > 0.0 then x else 0.0)
    ensures Sum(Metrics.Losses(pnls + [x])) == Sum(Metrics.Losses(pnls)) + (if x < 0.0 then 0.0 - x else 0.0)
  {
    assert (pnls + [x])[..|pnls|] == pnls;
    SumSnoc(pnls, x);
    SumSnoc(Metrics.Wins(pnls), x);
    SumSnoc(Metrics.Losses(pnls), 0.0 - x);
    assert Metrics.Wins(pnls) + [] == Metrics.Wins(pnls) && Metrics.Losses(pnls) + [] == Metrics.Losses(pnls);
    hide Sum;
  }

  function Profits(ts: seq<ClosedTrade>): (r: seq<real>)
    ensures |r| == |ts|
  {
    seq(|ts|, i requires 0 <= i < |ts| => ts[i].pnlUsd)
  }

  lemma WindowStreak(os: seq<bool>)
    ensures Streak(Window(os, 5)) == Streak(os)
  {
    RunInWindow(os, 5);
  }

  lemma {:induction false} TradesCounted(ts: seq<ClosedTrade>)
    ensures TotalsOf(ts).trades == |ts|
  {
    if |ts| > 0 { TradesCounted(ts[..|ts| - 1]); }
  }

  method FinalizeAll<K(!new, ==)>(m: map<K, StrategyStats>, ghost ts: seq<ClosedTrade>, ghost key: ClosedTrade -> K)
    returns (r: map<K, StrategyStats>)
    requires Accumulates(m, ts, key)
    ensures Grouped(r, ts, key)
  {
    hide Partial, StatsOf;
    r := m;
    var todo := m.Keys;
    while todo != {}
      invariant todo <= m.Keys == r.Keys
      invariant forall k :: k in todo ==> r[k] == m[k]
      invariant forall k :: k in m && k !in todo ==> r[k] == StatsOf(Select(ts, key, k))
      decreases todo
    {
      var k :| k in todo;
      var s := Finalize(r[k], Select(ts, key, k));
      r := r[k := s];
      todo := todo - {k};
    }
  }

  /** Trades arrive newest first; the result describes them oldest first. */
  method Build(trades: seq<ClosedTrade>, now: int) returns (mem: PerformanceMemory)
    ensures Describes(mem, Reversed(trades), now - 3_600_000)
  {
    hide Partial, StatsOf, Update, Accumulates, Grouped, Bump;
    var since := now - 3_600_000;
    var ordered := Reversed(trades);
    var overall := DEFAULT;
    var byStrategy: map<string, StrategyStats> := map[];
    var byStrategyRegime: map<(string, string), StrategyStats> := map[];
    var byStrategySymbol: map<(string, string), StrategyStats> := map[];
    var bySymbol: map<string, StrategyStats> := map[];
    var byHour: map<int, StrategyStats> := map[];
    var calibration := seq(10, b => DEFAULT);
    var recentPnl, recentTrades := 0.0, 0;
    PartialNone();
    NothingAccumulated(ByStrategy);
    NothingAccumulated(ByStrategyRegime);
    NothingAccumulated(ByStrategySymbol);
    NothingAccumulated(BySymbol);
    NothingAccumulated(ByHour);
    for i := 0 to |ordered|
      invariant overall == Partial(ordered[..i])
      invariant Accumulates(byStrategy, ordered[..i], ByStrategy)
      invariant Accumulates(byStrategyRegime, ordered[..i], ByStrategyRegime)
      invariant Accumulates(byStrategySymbol, ordered[..i], ByStrategySymbol)
      invariant Accumulates(bySymbol, ordered[..i], BySymbol)
      invariant Accumulates(byHour, ordered[..i], ByHour)
      invariant |calibration| == 10
      invariant forall b :: 0 <= b < 10 ==> calibration[b] == Partial(Select(ordered[..i], ByConfidence, b))
      invariant recentPnl == TotalsOf(Recent(ordered[..i], since)).netPnl
      invariant recentTrades == |Recent(ordered[..i], since)|
    {
      var t := ordered[i];
      assert ordered[..i + 1] == ordered[..i] + [t];
      UpdateStep(ordered[..i], t);
      overall := Update(overall, t);
      BumpStep(byStrategy, ordered[..i], t, ByStrategy);
      byStrategy := Bump(byStrategy, t.strategy, t);
      BumpStep(byStrategyRegime, ordered[..i], t, ByStrategyRegime);
      byStrategyRegime := Bump(byStrategyRegime, (t.strategy, t.regime), t);
      BumpStep(byStrategySymbol, ordered[..i], t, ByStrategySymbol);
      byStrategySymbol := Bump(byStrategySymbol, (t.strategy, t.symbol), t);
      BumpStep(bySymbol, ordered[..i], t, BySymbol);
      bySymbol := Bump(bySymbol, t.symbol, t);
      BumpStep(byHour, ordered[..i], t, ByHour);
      byHour := Bump(byHour, ByHour(t), t);
      calibration := Calibrate(calibration, t, ordered[..i]);
      RecentSnoc(ordered[..i], t, since);
      if t.exitTime >= since {
        recentPnl := recentPnl + t.pnlUsd;
        recentTrades := recentTrades + 1;
      }
    }
    assert ordered[..|ordered|] == ordered;
    overall := Finalize(overall, ordered);
    byStrategy := FinalizeAll(byStrategy, ordered, ByStrategy);
    byStrategyRegime := FinalizeAll(byStrategyRegime, ordered, ByStrategyRegime);
    byStrategySymbol := FinalizeAll(byStrategySymbol, ordered, ByStrategySymbol);
    bySymbol := FinalizeAll(bySymbol, ordered, BySymbol);
    byHour := FinalizeAll(byHour, ordered, ByHour);
    for b := 0 to 10
      invariant |calibration| == 10
      invariant forall c :: 0 <= c < b ==> calibration[c] == StatsOf(Select(ordered, ByConfidence, c))
      invariant forall c :: b <= c < 10 ==> calibration[c] == Partial(Select(ordered, ByConfidence, c))
    {
      var s := Finalize(calibration[b], Select(ordered, ByConfidence, b));
      calibration := calibration[b := s];
    }
    mem := PerformanceMemory(overall, byStrategy, byStrategyRegime, byStrategySymbol, bySymbol, byHour, calibration,
                             recentPnl, recentTrades);
  }

  lemma NothingAccumulated<K(!new)>(key: ClosedTrade -> K)
    ensures Accumulates(map[], [], key)
  {
  }

  method Calibrate(calibration: seq<StrategyStats>, t: ClosedTrade,
                   ghost ts: seq<ClosedTrade>) returns (r: seq<StrategyStats>)
    requires |calibration| == 10
    requires forall b :: 0 <= b < 10 ==> calibration[b] == Partial(Select(ts, ByConfidence, b))
    ensures |r| == 10
    ensures forall b :: 0 <= b < 10 ==> r[b] == Partial(Select(ts + [t], ByConfidence, b))
  {
    hide Partial, Update;
    r := calibration;
    match t.llmConfidence {
      case None =>
      case Some(c) =>
        var bucket := if c / 10 < 9 then c / 10 else 9;
        r := r[bucket := Update(r[bucket], t)];
        UpdateStep(Select(ts, ByConfidence, bucket), t);
    }
    forall b | 0 <= b < 10 ensures r[b] == Partial(Select(ts + [t], ByConfidence, b)) {
      SelectSnoc(ts, t, ByConfidence, b);
    }
  }

  lemma RecentSnoc(ts: seq<ClosedTrade>, t: ClosedTrade, since: int)
    ensures Recent(ts + [t], since) == if t.exitTime >= since then Recent(ts, since) + [t] else Recent(ts, since)
    ensures TotalsOf(Recent(ts, since) + [t]).netPnl == TotalsOf(Recent(ts, since)).netPnl + t.pnlUsd
  {
    assert (ts + [t])[..|ts|] == ts;
    assert (Recent(ts, since) + [t])[..|Recent(ts, since)|] == Recent(ts, since);
  }

  // ---- Laws ----

  /** Net pnl is gross profit less gross loss, and every trade is a win or a loss. */
  lemma {:induction false} NetSplits(ts: seq<ClosedTrade>)
    ensures TotalsOf(ts).netPnl == TotalsOf(ts).grossProfit - TotalsOf(ts).grossLoss
    ensures TotalsOf(ts).grossProfit >= 0.0 && TotalsOf(ts).grossLoss >= 0.0
    ensures TotalsOf(ts).wins + TotalsOf(ts).losses == TotalsOf(ts).trades == |ts|
  {
    if |ts| > 0 { NetSplits(ts[..|ts| - 1]); }
  }

  /** The additive part of finished statistics. */
  function Additive(s: StrategyStats): Totals {
    Totals(s.trades, s.wins, s.losses, s.netPnl, s.grossProfit, s.grossLoss)
  }

  /** The group totals added up over some keys. */
  function TotalOver<K(==)>(m: map<K, StrategyStats>, keys: seq<K>): Totals
    requires forall i :: 0 <= i < |keys| ==> keys[i] in m
  {
    if |keys| == 0 then NOTHING
    else TotalOver(m, keys[..|keys| - 1]).Plus(Additive(m[keys[|keys| - 1]]))
  }

  ghost predicate Distinct<K>(keys: seq<K>) { forall i, j :: 0 <= i < j < |keys| ==> keys[i] != keys[j] }

  function TotalsByKey<K(==)>(ts: seq<ClosedTrade>, key: ClosedTrade -> K, keys: seq<K>): Totals
  {
    if |keys| == 0 then NOTHING
    else TotalsByKey(ts, key, keys[..|keys| - 1]).Plus(TotalsOf(Select(ts, key, keys[|keys| - 1])))
  }

  /** The trades whose key is listed. */
  function SelectAny<K(==)>(ts: seq<ClosedTrade>, key: ClosedTrade -> K, keys: seq<K>): seq<ClosedTrade>
  {
    if |ts| == 0 then []
    else SelectAny(ts[..|ts| - 1], key, keys) + (if key(ts[|ts| - 1]) in keys then [ts[|ts| - 1]] else [])
  }

  lemma GroupGrows<K>(ts: seq<ClosedTrade>, t: ClosedTrade, key: ClosedTrade -> K, k: K)
    ensures TotalsOf(Select(ts + [t], key, k))
         == if key(t) == k then TotalsOf(Select(ts, key, k)).Plus(TotalsOfTrade(t)) else TotalsOf(Select(ts, key, k))
  {
    hide TotalsOf, Select, TotalsOfTrade;
    SelectSnoc(ts, t, key, k);
    TotalsSnoc(Select(ts, key, k), t);
  }

  /** One more trade adds to the group of its key and to no other. */
  lemma {:induction false} OneMoreTrade<K>(ts: seq<ClosedTrade>, t: ClosedTrade, key: ClosedTrade -> K, keys: seq<K>)
    requires Distinct(keys)
    ensures TotalsByKey(ts + [t], key, keys)
         == if key(t) in keys then TotalsByKey(ts, key, keys).Plus(TotalsOfTrade(t)) else TotalsByKey(ts, key, keys)
  {
    hide TotalsOf, Select, TotalsOfTrade;
    if |keys| > 0 {
      var n := |keys| - 1;
      OneMoreTrade(ts, t, key, keys[..n]);
      GroupGrows(ts, t, key, keys[n]);
      assert keys == keys[..n] + [keys[n]];
      assert keys[n] !in keys[..n];
    }
  }

  lemma EmptyGroup<K>(ts: seq<ClosedTrade>, key: ClosedTrade -> K, k: K)
    requires |ts| == 0
    ensures TotalsOf(Select(ts, key, k)) == NOTHING
  {
  }

  lemma {:induction false} NoTrades<K>(ts: seq<ClosedTrade>, key: ClosedTrade -> K, keys: seq<K>)
    requires forall i :: 0 <= i < |keys| ==> TotalsOf(Select(ts, key, keys[i])) == NOTHING
    ensures TotalsByKey(ts, key, keys) == NOTHING
  {
    hide TotalsOf, Select;
    if |keys| > 0 {
      var n := |keys| - 1;
      NoTrades(ts, key, keys[..n]);
    }
  }

  lemma {:induction false} GroupsPartition<K>(ts: seq<ClosedTrade>, key: ClosedTrade -> K, keys: seq<K>)
    requires Distinct(keys)
    ensures TotalsByKey(ts, key, keys) == TotalsOf(SelectAny(ts, key, keys))
  {
    if |ts| == 0 {
      forall i | 0 <= i < |keys| ensures TotalsOf(Select(ts, key, keys[i])) == NOTHING { EmptyGroup(ts, key, keys[i]); }
      NoTrades(ts, key, keys);
    } else {
      var n := |ts| - 1;
      GroupsPartition(ts[..n], key, keys);
      assert ts == ts[..n] + [ts[n]];
      OneMoreTrade(ts[..n], ts[n], key, keys);
      TotalsSnoc(SelectAny(ts[..n], key, keys), ts[n]);
      assert SelectAny(ts[..n], key, keys) + [] == SelectAny(ts[..n], key, keys);
    }
  }

  lemma {:induction false} SelectedTogether<F, C>(ts: seq<ClosedTrade>, fine: ClosedTrade -> F, keys: seq<F>,
                                                  coarse: ClosedTrade -> C, c: C)
    requires forall i :: 0 <= i < |ts| ==> (fine(ts[i]) in keys <==> coarse(ts[i]) == c)
    ensures SelectAny(ts, fine, keys) == Select(ts, coarse, c)
  {
    if |ts| > 0 { SelectedTogether(ts[..|ts| - 1], fine, keys, coarse, c); }
  }

  lemma {:induction false} GroupTotals<K(!new)>(m: map<K, StrategyStats>, ts: seq<ClosedTrade>,
                                         key: ClosedTrade -> K, keys: seq<K>)
    requires Grouped(m, ts, key) && forall i :: 0 <= i < |keys| ==> keys[i] in m
    ensures TotalOver(m, keys) == TotalsByKey(ts, key, keys)
  {
    hide TotalsOf, Select;
    if |keys| > 0 {
      var n := |keys| - 1;
      GroupTotals(m, ts, key, keys[..n]);
      assert m[keys[n]] == StatsOf(Select(ts, key, keys[n]));
    }
  }

  /** Marginals: whenever some keys of a fine grouping are exactly those of the trades in a coarse group,
      their totals, added in any order, are the coarse group's. */
  lemma MarginalsAdd<F(!new), C(!new)>(m: map<F, StrategyStats>, ts: seq<ClosedTrade>, fine: ClosedTrade -> F,
                                       keys: seq<F>, coarse: ClosedTrade -> C, c: C)
    requires Grouped(m, ts, fine) && Distinct(keys) && (forall i :: 0 <= i < |keys| ==> keys[i] in m)
    requires forall i :: 0 <= i < |ts| ==> (fine(ts[i]) in keys <==> coarse(ts[i]) == c)
    ensures TotalOver(m, keys) == Additive(StatsOf(Select(ts, coarse, c)))
  {
    GroupTotals(m, ts, fine, keys);
    GroupsPartition(ts, fine, keys);
    SelectedTogether(ts, fine, keys, coarse, c);
  }

  lemma {:induction false} SelectAll(ts: seq<ClosedTrade>)
    ensures Select(ts, t => true, true) == ts
  {
    if |ts| > 0 {
      SelectAll(ts[..|ts| - 1]);
      assert ts == ts[..|ts| - 1] + [ts[|ts| - 1]];
    }
  }

  /** The keys of a group, each listed once, in whatever order its map yields them. */
  ghost predicate ListsKeys<K>(keys: seq<K>, m: map<K, StrategyStats>) {
    Distinct(keys) && (forall i :: 0 <= i < |keys| ==> keys[i] in m) && forall k :: k in m ==> k in keys
  }

  /** Any one grouping, all its keys added up, gives the overall totals. */
  lemma GroupingIsComplete<K(!new)>(m: map<K, StrategyStats>, ts: seq<ClosedTrade>, key: ClosedTrade -> K, keys: seq<K>)
    requires Grouped(m, ts, key) && ListsKeys(keys, m)
    ensures TotalOver(m, keys) == Additive(StatsOf(ts))
  {
    MarginalsAdd(m, ts, key, keys, t => true, true);
    SelectAll(ts);
  }

  /** by_strategy, by_symbol and by_hour each add up to overall. */
  lemma MarginalsOfOverall(mem: PerformanceMemory, ts: seq<ClosedTrade>, since: int,
                           strategies: seq<string>, symbols: seq<string>, hours: seq<int>)
    requires Describes(mem, ts, since)
    requires ListsKeys(strategies, mem.byStrategy) && ListsKeys(symbols, mem.bySymbol) && ListsKeys(hours, mem.byHour)
    ensures TotalOver(mem.byStrategy, strategies) == Additive(mem.overall)
    ensures TotalOver(mem.bySymbol, symbols) == Additive(mem.overall)
    ensures TotalOver(mem.byHour, hours) == Additive(mem.overall)
  {
    GroupingIsComplete(mem.byStrategy, ts, ByStrategy, strategies);
    GroupingIsComplete(mem.bySymbol, ts, BySymbol, symbols);
    GroupingIsComplete(mem.byHour, ts, ByHour, hours);
  }

  ghost predicate PairsOf(keys: seq<(string, string)>, m: map<(string, string), StrategyStats>, strategy: string) {
    Distinct(keys) && forall k :: k in keys <==> k in m && k.0 == strategy
  }

  lemma MarginalsOfPairs(m: map<(string, string), StrategyStats>, ts: seq<ClosedTrade>,
                         fine: ClosedTrade -> (string, string), keys: seq<(string, string)>, strategy: string)
    requires Grouped(m, ts, fine) && PairsOf(keys, m, strategy)
    requires forall t: ClosedTrade {:trigger fine(t)} :: fine(t).0 == ByStrategy(t)
    ensures TotalOver(m, keys) == Additive(StatsOf(Select(ts, ByStrategy, strategy)))
  {
    hide StatsOf, TotalOver, Select, Additive;
    forall i | 0 <= i < |ts| ensures fine(ts[i]) in keys <==> ByStrategy(ts[i]) == strategy {
      assert fine(ts[i]) in m;
    }
    MarginalsAdd(m, ts, fine, keys, ByStrategy, strategy);
  }

  /** A strategy's statistics per regime, and per symbol, add up to its own. */
  lemma MarginalsOfStrategy(mem: PerformanceMemory, ts: seq<ClosedTrade>, since: int, strategy: string,
                            regimes: seq<(string, string)>, symbols: seq<(string, string)>)
    requires Describes(mem, ts, since) && strategy in mem.byStrategy
    requires PairsOf(regimes, mem.byStrategyRegime, strategy) && PairsOf(symbols, mem.byStrategySymbol, strategy)
    ensures TotalOver(mem.byStrategyRegime, regimes) == Additive(mem.byStrategy[strategy])
    ensures TotalOver(mem.byStrategySymbol, symbols) == Additive(mem.byStrategy[strategy])
  {
    assert mem.byStrategy[strategy] == StatsOf(Select(ts, ByStrategy, strategy));
    hide StatsOf, TotalOver, Select, Additive, PairsOf, Grouped;
    MarginalsOfPairs(mem.byStrategyRegime, ts, ByStrategyRegime, regimes, strategy);
    MarginalsOfPairs(mem.byStrategySymbol, ts, ByStrategySymbol, symbols, strategy);
  }

  /** The streak is s > 0 exactly when the last s outcomes are wins and, below the cap, the one before is not;
      likewise for losses. */
  lemma {:induction false} StreakMeaning(os: seq<bool>)
    ensures -5 <= Streak(os) <= 5 && (Streak(os) == 0 <==> os == [])
    ensures forall k :: |os| - Magnitude(Streak(os)) <= k < |os| ==> os[k] == (Streak(os) > 0)
    ensures Magnitude(Streak(os)) < 5 && Magnitude(Streak(os)) < |os| ==>
              os[|os| - 1 - Magnitude(Streak(os))] != (Streak(os) > 0)
  {
    RunMeaning(os);
  }

  function Magnitude(x: int): nat { if x < 0 then -x else x }

  lemma {:induction false} RunMeaning(os: seq<bool>)
    ensures forall k :: |os| - TrailingRun(os) <= k < |os| ==> os[k] == os[|os| - 1]
    ensures 0 < TrailingRun(os) < |os| ==> os[|os| - 1 - TrailingRun(os)] != os[|os| - 1]
  {
    if |os| > 1 { RunMeaning(os[..|os| - 1]); }
  }
}
