/** Lesson extraction (src/learning/lessons.rs): thresholds over the performance memory become
    lessons. The maps are walked in an arbitrary order, so the result is specified as a set of
    lessons listed without repetition. Times are milliseconds; reason strings are not modelled. */
module Lessons {
  import opened Reals
  import opened Memory

  datatype LessonKind =
    LoseStreak | StrategyDerate | StrategyBoost | RegimeBlacklist | LlmCalibration | SymbolDerate | DrawdownCooldown

  datatype Lesson = Lesson(
    kind: LessonKind,
    strategy: Option<string>,
    regime: Option<string>,
    symbol: Option<string>,
    sizeMultiplier: real,
    taThresholdDelta: int,
    llmFloor: Option<nat>,
    validUntil: int)
  {
    predicate Applies(strategy: string, regime: string, symbol: string, now: int) {
      && validUntil >= now
      && (this.strategy != None ==> this.strategy.value == strategy)
      && (this.regime != None ==> this.regime.value == regime)
      && (this.symbol != None ==> this.symbol.value == symbol)
    }

    predicate IsBlock() { kind.LoseStreak? || kind.RegimeBlacklist? || kind.DrawdownCooldown? || kind.SymbolDerate? }
  }

  datatype LessonConfig = LessonConfig(
    minTrades: nat,
    loseStreakTrigger: int,
    loseStreakCooldownMinutes: int,
    derateWinRate: real,
    boostWinRate: real,
    blacklistWinRate: real,
    blacklistMinTrades: nat,
    drawdownCooldownPct: real,
    drawdownCooldownMinutes: int,
    overconfidentWinRate: real,
    equityForDrawdown: real)

  const DEFAULT_CONFIG := LessonConfig(8, -3, 30, 0.35, 0.65, 0.30, 12, -5.0, 60, 0.40, 5000.0)

  const MINUTE := 60_000
  const HOUR := 3_600_000

  /** A pause of everything or of one bucket. */
  function Pause(kind: LessonKind, strategy: Option<string>, regime: Option<string>, symbol: Option<string>,
                 until: int): Lesson {
    Lesson(kind, strategy, regime, symbol, 0.0, 0, None, until)
  }

  /** Dividing a loss by zero equity gives negative infinity in f64, which is below any threshold. */
  predicate HourBelow(pnl: real, cfg: LessonConfig) {
    if cfg.equityForDrawdown == 0.0 then pnl < 0.0 else pnl / cfg.equityForDrawdown * 100.0 <= cfg.drawdownCooldownPct
  }

  function DrawdownRule(mem: PerformanceMemory, now: int, cfg: LessonConfig): Option<Lesson> {
    if HourBelow(mem.recentHourPnl, cfg) && mem.recentHourTrades >= 2
    then Some(Pause(DrawdownCooldown, None, None, None, now + cfg.drawdownCooldownMinutes * MINUTE))
    else None
  }

  function StreakRule(k: (string, string), s: StrategyStats, now: int, cfg: LessonConfig): Option<Lesson> {
    if s.recentStreak <= cfg.loseStreakTrigger
    then Some(Pause(LoseStreak, Some(k.0), None, Some(k.1), now + cfg.loseStreakCooldownMinutes * MINUTE))
    else None
  }

  predicate ProfitFactorAtLeast(s: StrategyStats, x: real) { s.ProfitFactor() == None || s.ProfitFactor().value >= x }

  function StrategyRule(k: string, s: StrategyStats, now: int, cfg: LessonConfig): Option<Lesson> {
    if s.trades < cfg.minTrades then None
    else if s.WinRate() < cfg.derateWinRate
    then Some(Lesson(StrategyDerate, Some(k), None, None, 0.5, 10, Some(80), now + 6 * HOUR))
    else if s.WinRate() >= cfg.boostWinRate && ProfitFactorAtLeast(s, 1.5)
    then Some(Lesson(StrategyBoost, Some(k), None, None, 1.2, -5, None, now + 6 * HOUR))
    else None
  }

  function BlacklistRule(k: (string, string), s: StrategyStats, now: int, cfg: LessonConfig): Option<Lesson> {
    if s.trades >= cfg.blacklistMinTrades && s.WinRate() < cfg.blacklistWinRate
    then Some(Pause(RegimeBlacklist, Some(k.0), Some(k.1), None, now + 12 * HOUR))
    else None
  }

  /** The additive statistics of several buckets taken together. */
  function Combined(stats: seq<StrategyStats>): Totals
  {
    if |stats| == 0 then NOTHING else Combined(stats[..|stats| - 1]).Plus(Additive(stats[|stats| - 1]))
  }

  function TotalsWinRate(t: Totals): real { if t.trades == 0 then 0.0 else t.wins as real / t.trades as real }

  function CalibrationRule(high: Totals, now: int, cfg: LessonConfig): Option<Lesson> {
    if high.trades >= cfg.minTrades && TotalsWinRate(high) < cfg.overconfidentWinRate
    then Some(Lesson(LlmCalibration, None, None, None, 1.0, 0, Some(90), now + 12 * HOUR))
    else None
  }

  function SymbolRule(k: string, s: StrategyStats, now: int, cfg: LessonConfig): Option<Lesson> {
    if s.trades >= cfg.minTrades && s.netPnl < 0.0 && s.WinRate() < cfg.derateWinRate
    then Some(Pause(SymbolDerate, None, None, Some(k), now + 24 * HOUR))
    else None
  }

  /** A lesson belongs to the extraction exactly when the rule of its kind fires for its bucket. */
  ghost predicate Taught(l: Lesson, mem: PerformanceMemory, now: int, cfg: LessonConfig)
    requires |mem.llmCalibration| == 10
  {
    match l.kind
    case DrawdownCooldown => DrawdownRule(mem, now, cfg) == Some(l)
    case LoseStreak =>
      && l.strategy.Some? && l.symbol.Some?
      && Fires(mem.byStrategySymbol, (l.strategy.value, l.symbol.value), StreakRuleOf(now, cfg), l)
    case StrategyDerate => l.strategy.Some? && Fires(mem.byStrategy, l.strategy.value, StrategyRuleOf(now, cfg), l)
    case StrategyBoost => l.strategy.Some? && Fires(mem.byStrategy, l.strategy.value, StrategyRuleOf(now, cfg), l)
    case RegimeBlacklist =>
      && l.strategy.Some? && l.regime.Some?
      && Fires(mem.byStrategyRegime, (l.strategy.value, l.regime.value), BlacklistRuleOf(now, cfg), l)
    case LlmCalibration => CalibrationRule(Combined(mem.llmCalibration[8..]), now, cfg) == Some(l)
    case SymbolDerate => l.symbol.Some? && Fires(mem.bySymbol, l.symbol.value, SymbolRuleOf(now, cfg), l)
  }

  function StreakRuleOf(now: int, cfg: LessonConfig): ((string, string), StrategyStats) -> Option<Lesson> {
    (k, s) => StreakRule(k, s, now, cfg)
  }

  function StrategyRuleOf(now: int, cfg: LessonConfig): (string, StrategyStats) -> Option<Lesson> {
    (k, s) => StrategyRule(k, s, now, cfg)
  }

  function BlacklistRuleOf(now: int, cfg: LessonConfig): ((string, string), StrategyStats) -> Option<Lesson> {
    (k, s) => BlacklistRule(k, s, now, cfg)
  }

  function SymbolRuleOf(now: int, cfg: LessonConfig): (string, StrategyStats) -> Option<Lesson> {
    (k, s) => SymbolRule(k, s, now, cfg)
  }

  ghost predicate Fires<K>(m: map<K, StrategyStats>, k: K, rule: (K, StrategyStats) -> Option<Lesson>, l: Lesson) {
    k in m && rule(k, m[k]) == Some(l)
  }

  // ---- What the rules mean ----

  lemma RateBelow(wins: nat, trades: nat, rate: real)
    requires trades > 0
    ensures wins as real / trades as real < rate <==> wins as real < Times(rate, trades as real)
  {
    var q, n := wins as real / trades as real, trades as real;
    assert q * n == wins as real;
    if q < rate { MulPositive(rate - q, n); } else { MulMonotone(rate, q, n); }
  }

  /** A strategy with enough trades is derated when it won less than the derating share of them, and boosted when it
      won at least the boosting share and grossed at least three halves of what it lost. */
  lemma StrategyRuleIff(k: string, s: StrategyStats, now: int, cfg: LessonConfig)
    requires s.trades > 0
    ensures var r, n := StrategyRule(k, s, now, cfg), s.trades as real;
      && (r != None && r.value.kind.StrategyDerate? <==>
            s.trades >= cfg.minTrades && s.wins as real < Times(cfg.derateWinRate, n))
      && (r != None && r.value.kind.StrategyBoost? <==>
            && s.trades >= cfg.minTrades && s.wins as real >= Times(cfg.derateWinRate, n)
            && s.wins as real >= Times(cfg.boostWinRate, n)
            && (if s.grossLoss > 0.0 then 2.0 * s.grossProfit >= 3.0 * s.grossLoss else s.grossProfit > 0.0))
      && (r != None ==> r.value.strategy == Some(k) && (r.value.kind.StrategyDerate? || r.value.kind.StrategyBoost?))
  {
    RateBelow(s.wins, s.trades, cfg.derateWinRate);
    RateBelow(s.wins, s.trades, cfg.boostWinRate);
    hide Times;
    if s.grossLoss > 0.0 { FactorReaches(s.grossProfit, s.grossLoss); }
  }

  lemma FactorReaches(profit: real, loss: real)
    requires loss > 0.0
    ensures profit / loss >= 1.5 <==> 2.0 * profit >= 3.0 * loss
  {
    var q := profit / loss;
    assert q * loss == profit;
    if q >= 1.5 { MulMonotone(1.5, q, loss); } else { MulPositive(1.5 - q, loss); }
  }

  /** A regime is blacklisted for a strategy, and a symbol for all, when too few of enough trades there won (for the
      symbol, at a net loss); high confidence is distrusted when too few of enough such trades won. */
  lemma BucketRulesIff(pair: (string, string), k: string, s: StrategyStats, high: Totals, now: int, cfg: LessonConfig)
    requires s.trades > 0 && high.trades > 0
    ensures BlacklistRule(pair, s, now, cfg) != None <==>
              s.trades >= cfg.blacklistMinTrades && s.wins as real < Times(cfg.blacklistWinRate, s.trades as real)
    ensures SymbolRule(k, s, now, cfg) != None <==>
              && s.trades >= cfg.minTrades && s.netPnl < 0.0
              && s.wins as real < Times(cfg.derateWinRate, s.trades as real)
    ensures CalibrationRule(high, now, cfg) != None <==>
              && high.trades >= cfg.minTrades
              && high.wins as real < Times(cfg.overconfidentWinRate, high.trades as real)
  {
    RateBelow(s.wins, s.trades, cfg.blacklistWinRate);
    RateBelow(s.wins, s.trades, cfg.derateWinRate);
    RateBelow(high.wins, high.trades, cfg.overconfidentWinRate);
    hide Times;
  }

  /** Everything is paused after an hour of at least two trades that lost the configured percentage of the equity. */
  lemma DrawdownRuleIff(mem: PerformanceMemory, now: int, cfg: LessonConfig)
    requires cfg.equityForDrawdown > 0.0
    ensures DrawdownRule(mem, now, cfg) != None <==>
              && mem.recentHourTrades >= 2
              && 100.0 * mem.recentHourPnl <= Times(cfg.drawdownCooldownPct, cfg.equityForDrawdown)
  {
    var q := mem.recentHourPnl / cfg.equityForDrawdown;
    assert q * cfg.equityForDrawdown == mem.recentHourPnl;
    assert (q * 100.0) * cfg.equityForDrawdown == 100.0 * mem.recentHourPnl;
    if q * 100.0 <= cfg.drawdownCooldownPct {
      MulMonotone(q * 100.0, cfg.drawdownCooldownPct, cfg.equityForDrawdown);
    } else {
      MulPositive(q * 100.0 - cfg.drawdownCooldownPct, cfg.equityForDrawdown);
    }
  }

  /** What each kind of lesson does, for how long, and in which buckets: the table of the six rules. */
  lemma LessonTable(l: Lesson, mem: PerformanceMemory, now: int, cfg: LessonConfig)
    requires |mem.llmCalibration| == 10 && Taught(l, mem, now, cfg)
    ensures var effect, hours := (l.sizeMultiplier, l.taThresholdDelta, l.llmFloor), l.validUntil - now;
      match l.kind
      case LoseStreak =>
        l.IsBlock() && hours == cfg.loseStreakCooldownMinutes * 60_000 && l.strategy != None && l.symbol != None
      case StrategyDerate => effect == (0.5, 10, Some(80)) && hours == 6 * 3_600_000 && l.strategy != None
      case StrategyBoost => effect == (1.2, -5, None) && hours == 6 * 3_600_000 && l.strategy != None
      case RegimeBlacklist => l.IsBlock() && hours == 12 * 3_600_000 && l.strategy != None && l.regime != None
      case LlmCalibration => effect == (1.0, 0, Some(90)) && hours == 12 * 3_600_000 && l.strategy == l.symbol == None
      case SymbolDerate => l.IsBlock() && hours == 24 * 3_600_000 && l.symbol != None && l.strategy == None
      case DrawdownCooldown =>
        l.IsBlock() && hours == cfg.drawdownCooldownMinutes * 60_000 && l.strategy == l.symbol == l.regime == None
  {
    hide StrategyStats.WinRate, StrategyStats.ProfitFactor, HourBelow, Combined, TotalsWinRate;
  }

  ghost predicate NoRepeats(ls: seq<Lesson>) { forall i, j :: 0 <= i < j < |ls| ==> ls[i] != ls[j] }

  /** Different buckets give different lessons. */
  ghost predicate TellsApart<K(!new)>(rule: (K, StrategyStats) -> Option<Lesson>) {
    forall j, k, s, t :: rule(j, s) == rule(k, t) && rule(j, s) != None ==> j == k
  }

  /** One of the four map loops: apply the rule to every bucket, in arbitrary order. */
  method Collect<K(!new, ==)>(m: map<K, StrategyStats>,
                   rule: (K, StrategyStats) -> Option<Lesson>) returns (out: seq<Lesson>)
    requires TellsApart(rule)
    ensures NoRepeats(out)
    ensures forall l :: l in out <==> exists k :: Fires(m, k, rule, l)
  {
    out := [];
    var todo := m.Keys;
    while todo != {}
      invariant todo <= m.Keys && NoRepeats(out)
      invariant forall l :: l in out <==> exists k :: k !in todo && Fires(m, k, rule, l)
      decreases todo
    {
      var k :| k in todo;
      todo := todo - {k};
      var lesson := rule(k, m[k]);
      if lesson != None {
        assert Fires(m, k, rule, lesson.value);
        assert forall j :: Fires(m, j, rule, lesson.value) ==> rule(j, m[j]) == rule(k, m[k]);
        assert lesson.value !in out;
        out := out + [lesson.value];
      }
    }
  }

  method Combine(stats: seq<StrategyStats>) returns (out: Totals)
    ensures out == Combined(stats)
  {
    out := NOTHING;
    for i := 0 to |stats|
      invariant out == Combined(stats[..i])
    {
      assert stats[..i + 1][..i] == stats[..i];
      out := out.Plus(Additive(stats[i]));
    }
    assert stats[..|stats|] == stats;
  }

  function Listed(l: Option<Lesson>): seq<Lesson> { if l == None then [] else [l.value] }

  /** Group g of the extraction: 0 drawdown, 1 streaks, 2 strategies, 3 blacklist, 4 calibration, 5 symbols. */
  function Group(k: LessonKind): nat {
    match k
    case DrawdownCooldown => 0
    case LoseStreak => 1
    case StrategyDerate => 2
    case StrategyBoost => 2
    case RegimeBlacklist => 3
    case LlmCalibration => 4
    case SymbolDerate => 5
  }

  /** The lessons of the groups before g, each once. */
  ghost predicate ListsBefore(out: seq<Lesson>, g: nat, mem: PerformanceMemory, now: int, cfg: LessonConfig)
    requires |mem.llmCalibration| == 10
  {
    NoRepeats(out) && forall l :: l in out <==> Group(l.kind) < g && Taught(l, mem, now, cfg)
  }

  ghost predicate ListsGroup(part: seq<Lesson>, g: nat, mem: PerformanceMemory, now: int, cfg: LessonConfig)
    requires |mem.llmCalibration| == 10
  {
    NoRepeats(part) && forall l :: l in part <==> Group(l.kind) == g && Taught(l, mem, now, cfg)
  }

  lemma Append(out: seq<Lesson>, part: seq<Lesson>, g: nat, mem: PerformanceMemory, now: int, cfg: LessonConfig)
    requires |mem.llmCalibration| == 10
    requires ListsBefore(out, g, mem, now, cfg) && ListsGroup(part, g, mem, now, cfg)
    ensures ListsBefore(out + part, g + 1, mem, now, cfg)
  {
    hide Taught, Group;
    var both := out + part;
    forall i, j | 0 <= i < j < |both| ensures both[i] != both[j] {
      if i < |out| <= j {
        assert both[i] in out && both[j] in part;
      }
    }
  }

  method Extract(mem: PerformanceMemory, now: int, cfg: LessonConfig) returns (out: seq<Lesson>)
    requires |mem.llmCalibration| == 10
    ensures NoRepeats(out)
    ensures forall l :: l in out <==> Taught(l, mem, now, cfg)
  {
    hide Taught, NoRepeats, TellsApart, Fires;
    RulesTellApart(now, cfg);
    out := Listed(DrawdownRule(mem, now, cfg));
    SingleRules(mem, now, cfg);
    var streaks := Collect(mem.byStrategySymbol, StreakRuleOf(now, cfg));
    StreakGroup(streaks, mem, now, cfg);
    Append(out, streaks, 1, mem, now, cfg);
    out := out + streaks;
    var strategies := Collect(mem.byStrategy, StrategyRuleOf(now, cfg));
    StrategyGroup(strategies, mem, now, cfg);
    Append(out, strategies, 2, mem, now, cfg);
    out := out + strategies;
    var blacklist := Collect(mem.byStrategyRegime, BlacklistRuleOf(now, cfg));
    BlacklistGroup(blacklist, mem, now, cfg);
    Append(out, blacklist, 3, mem, now, cfg);
    out := out + blacklist;
    var high := Combine(mem.llmCalibration[8..]);
    var calibration := Listed(CalibrationRule(high, now, cfg));
    Append(out, calibration, 4, mem, now, cfg);
    out := out + calibration;
    var symbols := Collect(mem.bySymbol, SymbolRuleOf(now, cfg));
    SymbolGroup(symbols, mem, now, cfg);
    Append(out, symbols, 5, mem, now, cfg);
    out := out + symbols;
  }

  lemma RulesTellApart(now: int, cfg: LessonConfig)
    ensures TellsApart(StreakRuleOf(now, cfg)) && TellsApart(StrategyRuleOf(now, cfg))
    ensures TellsApart(BlacklistRuleOf(now, cfg)) && TellsApart(SymbolRuleOf(now, cfg))
  {
  }

  lemma SingleRules(mem: PerformanceMemory, now: int, cfg: LessonConfig)
    requires |mem.llmCalibration| == 10
    ensures ListsBefore(Listed(DrawdownRule(mem, now, cfg)), 1, mem, now, cfg)
    ensures ListsGroup(Listed(CalibrationRule(Combined(mem.llmCalibration[8..]), now, cfg)), 4, mem, now, cfg)
  {
    hide Combined, HourBelow, TotalsWinRate;
  }

  lemma StreakGroup(part: seq<Lesson>, mem: PerformanceMemory, now: int, cfg: LessonConfig)
    requires |mem.llmCalibration| == 10 && NoRepeats(part)
    requires forall l :: l in part <==> exists k :: Fires(mem.byStrategySymbol, k, StreakRuleOf(now, cfg), l)
    ensures ListsGroup(part, 1, mem, now, cfg)
  {
    forall l: Lesson | Group(l.kind) == 1 && Taught(l, mem, now, cfg) ensures l in part {
      assert Fires(mem.byStrategySymbol, (l.strategy.value, l.symbol.value), StreakRuleOf(now, cfg), l);
    }
  }

  lemma StrategyGroup(part: seq<Lesson>, mem: PerformanceMemory, now: int, cfg: LessonConfig)
    requires |mem.llmCalibration| == 10 && NoRepeats(part)
    requires forall l :: l in part <==> exists k :: Fires(mem.byStrategy, k, StrategyRuleOf(now, cfg), l)
    ensures ListsGroup(part, 2, mem, now, cfg)
  {
    hide StrategyStats.WinRate, StrategyStats.ProfitFactor;
    forall l: Lesson | Group(l.kind) == 2 && Taught(l, mem, now, cfg) ensures l in part {
      assert Fires(mem.byStrategy, l.strategy.value, StrategyRuleOf(now, cfg), l);
    }
  }

  lemma BlacklistGroup(part: seq<Lesson>, mem: PerformanceMemory, now: int, cfg: LessonConfig)
    requires |mem.llmCalibration| == 10 && NoRepeats(part)
    requires forall l :: l in part <==> exists k :: Fires(mem.byStrategyRegime, k, BlacklistRuleOf(now, cfg), l)
    ensures ListsGroup(part, 3, mem, now, cfg)
  {
    hide StrategyStats.WinRate;
    forall l: Lesson | Group(l.kind) == 3 && Taught(l, mem, now, cfg) ensures l in part {
      assert Fires(mem.byStrategyRegime, (l.strategy.value, l.regime.value), BlacklistRuleOf(now, cfg), l);
    }
  }

  lemma SymbolGroup(part: seq<Lesson>, mem: PerformanceMemory, now: int, cfg: LessonConfig)
    requires |mem.llmCalibration| == 10 && NoRepeats(part)
    requires forall l :: l in part <==> exists k :: Fires(mem.bySymbol, k, SymbolRuleOf(now, cfg), l)
    ensures ListsGroup(part, 5, mem, now, cfg)
  {
    hide StrategyStats.WinRate;
    forall l: Lesson | Group(l.kind) == 5 && Taught(l, mem, now, cfg) ensures l in part {
      assert Fires(mem.bySymbol, l.symbol.value, SymbolRuleOf(now, cfg), l);
    }
  }
}
