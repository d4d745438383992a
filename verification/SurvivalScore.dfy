/** The survival score and mode (src/agents/survival.rs, recompute): a running integer score over the
    account, the loss streak, the cooldown, the news and a Monte Carlo projection. */
module SurvivalScore {
  import opened Reals
  import Risk
  import MonteCarlo

  datatype SurvivalMode = Healthy | Cautious | Defensive | Frozen | Dead {
    /** The modes in which no entry is allowed. */
    predicate Halts() { Frozen? || Dead? }
  }

  datatype SurvivalCfg = SurvivalCfg(
    lossStreakShort: nat,
    shortCooldownMin: nat,
    lossStreakLong: nat,
    longWindowMin: nat,
    longCooldownMin: nat,
    dailyLossCount: nat,
    deathLinePct: real,
    autoFlatDrawdownPct: real,
    dailyPnlRatchetPct: real,
    newsPanic: real,
    newsEuphoria: real)

  /** What the score is computed from besides the account. */
  datatype Signs = Signs(consecutiveLosses: nat, inCooldown: bool, newsScore: real, pnlHistory: seq<real>)

  datatype SurvivalState = SurvivalState(
    score: int,
    mode: SurvivalMode,
    equity: real,
    deathLine: real,
    peakEquity: real,
    realizedToday: real,
    realizedPct: real,
    drawdownPct: real,
    openPositions: nat,
    consecutiveLosses: nat,
    sizeMultiplier: real,
    ts: int)

  function Truncate(x: real): int
    requires x >= 0.0
  {
    x.Floor
  }

  function LeastInt(a: int, b: int): int { if a <= b then a else b }

  function ClampInt(x: int, lo: int, hi: int): int { if x < lo then lo else if x > hi then hi else x }

  /** Points lost to drawdown, out of 60. */
  function DrawdownPenalty(drawdown: real, autoFlat: real): int {
    if drawdown > 0.0 then Truncate(Max(0.0, Min(drawdown / Max(autoFlat, 1.0) * 60.0, 60.0))) else 0
  }

  /** Points lost to the day's realized loss, out of 40. */
  function DailyPenalty(lossPct: real): int { if lossPct > 0.0 then Truncate(Min(lossPct * 6.0, 40.0)) else 0 }

  function StreakPenalty(losses: nat): int { if losses >= 2 then LeastInt((losses - 1) * 8, 30) else 0 }

  function NewsPenalty(score: real, cfg: SurvivalCfg): int {
    if score <= cfg.newsPanic then 25 else if score >= cfg.newsEuphoria then 10 else 0
  }

  /** Per cent of the initial equity between the equity and the death line. */
  function FloorDistance(equity: real, deathLine: real, initialEquity: real): real {
    if equity > 0.0 && initialEquity > 0.0 then Max((equity - deathLine) / initialEquity * 100.0, 0.0) else 0.0
  }

  function FloorPenalty(distance: real): int { if distance < 5.0 then 30 else if distance < 10.0 then 15 else 0 }

  function ProjectionPenalty(history: seq<real>, autoFlat: real): int {
    if |history| < 20 then 0 else ExcessPenalty(MonteCarlo.Intervals(history, 100), autoFlat)
  }

  function ExcessPenalty(ci: Option<MonteCarlo.MonteCarloDrawdown>, autoFlat: real): int {
    if ci != None && ci.value.p95 > autoFlat then Truncate(Min((ci.value.p95 - autoFlat) * 5.0, 20.0)) else 0
  }

  function DeathLine(initialEquity: real, cfg: SurvivalCfg): real { Times(initialEquity, cfg.deathLinePct) }

  function RealizedPct(realized: real, initialEquity: real): real {
    if initialEquity > 0.0 then realized / initialEquity * 100.0 else 0.0
  }

  predicate RatchetLocks(realized: real, initialEquity: real, cfg: SurvivalCfg) {
    RealizedPct(realized, initialEquity) >= cfg.dailyPnlRatchetPct && realized < realized * 0.5
  }

  /** The score before the floor test: cooldown caps what the account left, news comes after. */
  function BaseScore(account: Risk.RiskState, signs: Signs, cfg: SurvivalCfg): int {
    var s := 100 - DrawdownPenalty(account.DrawdownPct(), cfg.autoFlatDrawdownPct)
                 - DailyPenalty(account.DailyLossPct()) - StreakPenalty(signs.consecutiveLosses);
    (if signs.inCooldown then LeastInt(s, 20) else s) - NewsPenalty(signs.newsScore, cfg)
  }

  function Score(account: Risk.RiskState, signs: Signs, cfg: SurvivalCfg, initialEquity: real): int {
    var deathLine := DeathLine(initialEquity, cfg);
    var distance := FloorDistance(account.equity, deathLine, initialEquity);
    var s := if account.equity <= deathLine then 0 else BaseScore(account, signs, cfg) - FloorPenalty(distance);
    ClampInt(s - ProjectionPenalty(signs.pnlHistory, cfg.autoFlatDrawdownPct), 0, 100)
  }

  function Mode(dead: bool, halted: bool, score: int): SurvivalMode {
    if dead then Dead
    else if halted || score < 25 then Frozen
    else if score < 50 then Defensive
    else if score < 80 then Cautious
    else Healthy
  }

  function Multiplier(mode: SurvivalMode): real {
    match mode
    case Healthy => 1.0
    case Cautious => 0.6
    case Defensive => 0.3
    case Frozen => 0.0
    case Dead => 0.0
  }

  function StateOf(account: Risk.RiskState, signs: Signs, cfg: SurvivalCfg, initialEquity: real,
                   now: int): SurvivalState {
    var deathLine := DeathLine(initialEquity, cfg);
    var score := Score(account, signs, cfg, initialEquity);
    var halted := signs.inCooldown || RatchetLocks(account.realizedToday, initialEquity, cfg);
    var mode := Mode(account.equity <= deathLine, halted, score);
    SurvivalState(score, mode, account.equity, deathLine, account.peakEquity, account.realizedToday,
                  RealizedPct(account.realizedToday, initialEquity), account.DrawdownPct(), account.openPositions,
                  signs.consecutiveLosses, Multiplier(mode), now)
  }

  /** The running score of the source, against the composed form. */
  method Assess(account: Risk.RiskState, signs: Signs, cfg: SurvivalCfg, initialEquity: real,
                now: int) returns (state: SurvivalState)
    ensures state == StateOf(account, signs, cfg, initialEquity, now)
  {
    hide DrawdownPenalty, DailyPenalty, StreakPenalty, NewsPenalty, FloorDistance, FloorPenalty, ExcessPenalty,
         DeathLine, RealizedPct, Risk.RiskState.DrawdownPct, Risk.RiskState.DailyLossPct, MonteCarlo.Intervals;
    var deathLine := DeathLine(initialEquity, cfg);
    var score := 100;
    score := score - DrawdownPenalty(account.DrawdownPct(), cfg.autoFlatDrawdownPct);
    score := score - DailyPenalty(account.DailyLossPct());
    score := score - StreakPenalty(signs.consecutiveLosses);
    if signs.inCooldown { score := LeastInt(score, 20); }
    score := score - NewsPenalty(signs.newsScore, cfg);
    var distance := FloorDistance(account.equity, deathLine, initialEquity);
    if account.equity <= deathLine {
      score := 0;
    } else {
      score := score - FloorPenalty(distance);
    }
    var realizedPct := RealizedPct(account.realizedToday, initialEquity);
    var ratchetLocked := false;
    if realizedPct >= cfg.dailyPnlRatchetPct {
      var lockFloor := account.realizedToday * 0.5;
      if account.realizedToday < lockFloor { ratchetLocked := true; }
    }
    if |signs.pnlHistory| >= 20 {
      var ci := MonteCarlo.DrawdownConfidenceIntervals(signs.pnlHistory, 100);
      score := score - ExcessPenalty(ci, cfg.autoFlatDrawdownPct);
    }
    var clamped := ClampInt(score, 0, 100);
    var mode := Mode(account.equity <= deathLine, signs.inCooldown || ratchetLocked, clamped);
    state := SurvivalState(clamped, mode, account.equity, deathLine, account.peakEquity, account.realizedToday,
                           realizedPct, account.DrawdownPct(), account.openPositions,
                           signs.consecutiveLosses, Multiplier(mode), now);
  }

  // ---- What each sign costs ----

  lemma TruncatedReaches(x: real, k: int)
    requires x >= 0.0
    ensures Truncate(x) >= k <==> x >= k as real
  {
  }

  lemma ScaledReaches(x: real, y: real, points: real, k: real)
    requires y > 0.0
    ensures x / y * points >= k <==> points * x >= Times(k, y)
  {
    var q := x / y;
    assert q * y == x;
    assert (q * points) * y == points * x;
    if q * points >= k { MulMonotone(k, q * points, y); } else { MulPositive(k - q * points, y); }
  }

  /** A drawdown costs its first k points at k sixtieths of the auto-flat limit (at least one per cent), up to 60. */
  lemma DrawdownCosts(drawdown: real, autoFlat: real, k: int)
    requires 1 <= k <= 60
    ensures 0 <= DrawdownPenalty(drawdown, autoFlat) <= 60
    ensures DrawdownPenalty(drawdown, autoFlat) >= k <==> 60.0 * drawdown >= Times(k as real, Max(autoFlat, 1.0))
  {
    var limit := Max(autoFlat, 1.0);
    ScaledReaches(drawdown, limit, 60.0, k as real);
    TimesSigns(limit, k as real);
    assert Times(limit, k as real) == Times(k as real, limit);
    hide Times;
    if drawdown > 0.0 {
      var x := Max(0.0, Min(drawdown / limit * 60.0, 60.0));
      TruncatedReaches(x, k);
      assert x >= k as real <==> drawdown / limit * 60.0 >= k as real;
    }
  }

  /** A day's loss costs six points a per cent, up to 40. */
  lemma DailyCosts(lossPct: real, k: int)
    requires 1 <= k <= 40
    ensures 0 <= DailyPenalty(lossPct) <= 40
    ensures DailyPenalty(lossPct) >= k <==> 6.0 * lossPct >= k as real
  {
  }

  /** Every loss in a row after the first costs eight points, up to 30. */
  lemma StreakCosts(losses: nat, k: int)
    requires 1 <= k <= 30
    ensures 0 <= StreakPenalty(losses) <= 30
    ensures StreakPenalty(losses) >= k <==> 8 * losses >= k + 8
  {
  }

  /** A projected drawdown beyond the auto-flat limit costs five points a per cent, up to 20. */
  lemma ExcessCosts(ci: MonteCarlo.MonteCarloDrawdown, autoFlat: real, k: int)
    requires 1 <= k <= 20
    ensures 0 <= ExcessPenalty(Some(ci), autoFlat) <= 20 && ExcessPenalty(None, autoFlat) == 0
    ensures ExcessPenalty(Some(ci), autoFlat) >= k <==> 5.0 * (ci.p95 - autoFlat) >= k as real
  {
  }

  /** Within ten per cent of the initial equity above the death line 15 points are lost, within five 30. */
  lemma FloorCosts(equity: real, deathLine: real, initialEquity: real)
    requires equity > 0.0 && initialEquity > 0.0
    ensures var lost := FloorPenalty(FloorDistance(equity, deathLine, initialEquity));
      var above := 100.0 * (equity - deathLine);
      && (lost == 30 <==> above < 5.0 * initialEquity)
      && (lost == 15 <==> 5.0 * initialEquity <= above < 10.0 * initialEquity)
      && (lost == 0 <==> 10.0 * initialEquity <= above)
  {
    ScaledReaches(equity - deathLine, initialEquity, 100.0, 5.0);
    ScaledReaches(equity - deathLine, initialEquity, 100.0, 10.0);
  }

  /** Nothing is wrong with the account or the signs. */
  ghost predicate Spotless(account: Risk.RiskState, signs: Signs, cfg: SurvivalCfg, initialEquity: real) {
    && account.peakEquity == account.equity && account.realizedToday >= 0.0
    && initialEquity > 0.0 && account.equity > 0.0
    && 100.0 * (account.equity - DeathLine(initialEquity, cfg)) >= 10.0 * initialEquity
    && signs.consecutiveLosses <= 1 && !signs.inCooldown && cfg.newsPanic < signs.newsScore < cfg.newsEuphoria
    && |signs.pnlHistory| < 20 && cfg.dailyPnlRatchetPct >= 0.0
  }

  /** What one sign alone does to a spotless account: none leaves it Healthy at full size, euphoric news do too; five
      losses in a row or panic news make it Cautious at 0.6; a cooldown freezes it. */
  lemma OneSign(account: Risk.RiskState, signs: Signs, cfg: SurvivalCfg, initialEquity: real, now: int)
    requires Spotless(account, signs, cfg, initialEquity) && cfg.newsPanic < cfg.newsEuphoria
    ensures Verdict(account, signs, cfg, initialEquity, now) == (100, Healthy, 1.0)
    ensures Verdict(account, signs.(newsScore := cfg.newsEuphoria), cfg, initialEquity, now) == (90, Healthy, 1.0)
    ensures Verdict(account, signs.(newsScore := cfg.newsPanic), cfg, initialEquity, now) == (75, Cautious, 0.6)
    ensures Verdict(account, signs.(consecutiveLosses := 5), cfg, initialEquity, now) == (70, Cautious, 0.6)
    ensures Verdict(account, signs.(inCooldown := true), cfg, initialEquity, now) == (20, Frozen, 0.0)
  {
    FloorCosts(account.equity, DeathLine(initialEquity, cfg), initialEquity);
    RatchetNeverLocks(account.realizedToday, initialEquity, cfg);
    NoDrawdown(account);
    hide FloorDistance, FloorPenalty, RatchetLocks, RealizedPct, Risk.RiskState.DrawdownPct,
         Risk.RiskState.DailyLossPct, MonteCarlo.Intervals, DeathLine;
  }

  function Verdict(account: Risk.RiskState, signs: Signs, cfg: SurvivalCfg, initialEquity: real,
                   now: int): (int, SurvivalMode, real) {
    var s := StateOf(account, signs, cfg, initialEquity, now);
    (s.score, s.mode, s.sizeMultiplier)
  }

  lemma NoDrawdown(account: Risk.RiskState)
    requires account.peakEquity == account.equity > 0.0 && account.realizedToday >= 0.0
    ensures account.DrawdownPct() == 0.0 && account.DailyLossPct() == 0.0
  {
  }

  /** The other modes: a drawdown at the auto-flat limit alone makes the account Defensive at 0.3, together with panic
      news Frozen. */
  lemma DeepDrawdown(account: Risk.RiskState, signs: Signs, cfg: SurvivalCfg, initialEquity: real, now: int)
    requires Spotless(account.(peakEquity := account.equity), signs, cfg, initialEquity)
    requires account.DrawdownPct() == cfg.autoFlatDrawdownPct >= 1.0
    ensures Verdict(account, signs, cfg, initialEquity, now) == (40, Defensive, 0.3)
    ensures Verdict(account, signs.(newsScore := cfg.newsPanic), cfg, initialEquity, now) == (15, Frozen, 0.0)
  {
    FloorCosts(account.equity, DeathLine(initialEquity, cfg), initialEquity);
    RatchetNeverLocks(account.realizedToday, initialEquity, cfg);
    DrawdownCosts(account.DrawdownPct(), cfg.autoFlatDrawdownPct, 60);
    assert Times(60.0, cfg.autoFlatDrawdownPct) == 60.0 * cfg.autoFlatDrawdownPct;
    assert account.DailyLossPct() == 0.0;
    hide FloorDistance, FloorPenalty, RatchetLocks, RealizedPct, DrawdownPenalty, Risk.RiskState.DrawdownPct,
         Risk.RiskState.DailyLossPct, MonteCarlo.Intervals, DeathLine, Times;
  }

  // ---- Laws ----

  /** When each mode is reached, and that the size is cut to zero exactly in the two halting modes. */
  lemma ModeIff(account: Risk.RiskState, signs: Signs, cfg: SurvivalCfg, initialEquity: real, now: int)
    ensures var s := StateOf(account, signs, cfg, initialEquity, now);
      var locked := RatchetLocks(account.realizedToday, initialEquity, cfg);
      && 0 <= s.score <= 100
      && (s.mode == Dead <==> account.equity <= initialEquity * cfg.deathLinePct)
      && (s.mode == Frozen <==> s.mode != Dead && (signs.inCooldown || locked || s.score < 25))
      && (s.sizeMultiplier == 0.0 <==> s.mode == Dead || s.mode == Frozen)
      && (s.mode == Dead ==> s.score == 0)
  {
    hide BaseScore, FloorDistance, FloorPenalty, RealizedPct, Risk.RiskState.DrawdownPct, Risk.RiskState.DailyLossPct;
    PenaltiesNonNegative(signs.pnlHistory, cfg.autoFlatDrawdownPct);
    hide ProjectionPenalty;
  }

  lemma PenaltiesNonNegative(history: seq<real>, autoFlat: real)
    ensures ProjectionPenalty(history, autoFlat) >= 0
  {
    hide MonteCarlo.Intervals;
  }

  /** While a cooldown is active the mode is Frozen or Dead and nothing is sized. */
  lemma CooldownHalts(account: Risk.RiskState, signs: Signs, cfg: SurvivalCfg, initialEquity: real, now: int)
    requires signs.inCooldown
    ensures var s := StateOf(account, signs, cfg, initialEquity, now);
      (s.mode == Frozen || s.mode == Dead) && s.sizeMultiplier == 0.0
  {
    hide Score, DeathLine, RealizedPct, Risk.RiskState.DrawdownPct;
  }

  /** The daily profit ratchet locks only on a losing day that is still at or above the ratchet percentage... */
  lemma RatchetLocksIff(realized: real, initialEquity: real, cfg: SurvivalCfg)
    ensures RatchetLocks(realized, initialEquity, cfg)
        <==> realized < 0.0 && RealizedPct(realized, initialEquity) >= cfg.dailyPnlRatchetPct
  {
  }

  /** ...so with a non-negative setting and positive initial equity it never does. */
  lemma RatchetNeverLocks(realized: real, initialEquity: real, cfg: SurvivalCfg)
    requires initialEquity > 0.0 && cfg.dailyPnlRatchetPct >= 0.0
    ensures !RatchetLocks(realized, initialEquity, cfg)
  {
    RatchetLocksIff(realized, initialEquity, cfg);
    if realized < 0.0 { NegativeQuotient(realized, initialEquity); }
  }

  lemma NegativeQuotient(a: real, b: real)
    requires a < 0.0 && b > 0.0
    ensures a / b < 0.0 && a / b * 100.0 < 0.0
  {
    var q := a / b;
    assert q * b == a;
    if q >= 0.0 { MulNonNegative(q, b); }
  }

  /** The first account is in no respect better off than the second: less equity below the same peak, a
      worse day, and no fewer losses, cooldowns or projected drawdown. */
  ghost predicate NoBetter(a: Risk.RiskState, s: Signs, b: Risk.RiskState, t: Signs, cfg: SurvivalCfg) {
    && a.peakEquity == b.peakEquity && a.equity <= b.equity && a.realizedToday <= b.realizedToday
    && s.consecutiveLosses >= t.consecutiveLosses && (t.inCooldown ==> s.inCooldown) && s.newsScore == t.newsScore
    && ProjectionPenalty(s.pnlHistory, cfg.autoFlatDrawdownPct)
        >= ProjectionPenalty(t.pnlHistory, cfg.autoFlatDrawdownPct)
  }

  lemma DrawdownOrder(a: Risk.RiskState, b: Risk.RiskState)
    requires a.peakEquity == b.peakEquity && a.equity <= b.equity
    ensures a.DrawdownPct() >= b.DrawdownPct() >= 0.0
  {
    if a.peakEquity > 0.0 { PercentOrder(b.peakEquity - b.equity, a.peakEquity - a.equity, a.peakEquity); }
  }

  lemma PercentOrder(a: real, b: real, c: real)
    requires a <= b && c > 0.0
    ensures a / c <= b / c && a / c * 100.0 <= b / c * 100.0
  {
    DivMonotone(a, b, c);
  }

  lemma DailyLossOrder(a: Risk.RiskState, b: Risk.RiskState)
    requires 0.0 < a.equity <= b.equity && a.realizedToday <= b.realizedToday
    ensures a.DailyLossPct() >= b.DailyLossPct() >= 0.0
  {
    var x, y := 0.0 - a.realizedToday, 0.0 - b.realizedToday;
    if y > 0.0 {
      SmallerDivisor(x, y, a.equity, b.equity);
    } else if x > 0.0 {
      TimesInverse(a.equity, x);
    }
  }

  lemma SmallerDivisor(x: real, y: real, p: real, q: real)
    requires 0.0 < y <= x && 0.0 < p <= q
    ensures 0.0 <= y / q <= x / p && y / q * 100.0 <= x / p * 100.0
  {
    TimesInverse(q, y);
    PercentOrder(y, x, q);
    LargerDivisor(x, p, q);
  }

  lemma LargerDivisor(x: real, p: real, q: real)
    requires x >= 0.0 && 0.0 < p <= q
    ensures x / q <= x / p
  {
    var u := x / p;
    TimesInverse(p, x);
    assert u * p == x;
    MulMonotone(p, q, u);
    assert x <= u * q;
    DivBound(x, q, u);
  }

  lemma PenaltyOrder(d: real, e: real, autoFlat: real)
    requires d >= e >= 0.0
    ensures DrawdownPenalty(d, autoFlat) >= DrawdownPenalty(e, autoFlat) >= 0
    ensures DailyPenalty(d) >= DailyPenalty(e) >= 0
  {
    PercentOrder(e, d, Max(autoFlat, 1.0));
  }

  lemma StreakOrder(m: nat, n: nat)
    requires m >= n
    ensures StreakPenalty(m) >= StreakPenalty(n) >= 0
  {
  }

  lemma FloorOrder(a: real, b: real, deathLine: real, initialEquity: real)
    requires 0.0 < a <= b
    ensures FloorPenalty(FloorDistance(a, deathLine, initialEquity))
        >= FloorPenalty(FloorDistance(b, deathLine, initialEquity))
  {
    if initialEquity > 0.0 { PercentOrder(a - deathLine, b - deathLine, initialEquity); }
  }

  lemma BaseOrder(a: Risk.RiskState, s: Signs, b: Risk.RiskState, t: Signs, cfg: SurvivalCfg)
    requires NoBetter(a, s, b, t, cfg) && a.equity > 0.0
    ensures BaseScore(a, s, cfg) <= BaseScore(b, t, cfg)
  {
    hide Risk.RiskState.DrawdownPct, Risk.RiskState.DailyLossPct, DrawdownPenalty, DailyPenalty, StreakPenalty,
         NewsPenalty, ProjectionPenalty;
    DrawdownOrder(a, b);
    DailyLossOrder(a, b);
    PenaltyOrder(a.DrawdownPct(), b.DrawdownPct(), cfg.autoFlatDrawdownPct);
    PenaltyOrder(a.DailyLossPct(), b.DailyLossPct(), cfg.autoFlatDrawdownPct);
    StreakOrder(s.consecutiveLosses, t.consecutiveLosses);
  }

  /** A worse account never scores higher and is never given a larger size. */
  lemma WorseNeverScoresHigher(a: Risk.RiskState, s: Signs, b: Risk.RiskState, t: Signs, cfg: SurvivalCfg,
                               initialEquity: real, now: int)
    requires NoBetter(a, s, b, t, cfg)
    requires initialEquity > 0.0 && cfg.deathLinePct >= 0.0 && cfg.dailyPnlRatchetPct >= 0.0
    ensures Score(a, s, cfg, initialEquity) <= Score(b, t, cfg, initialEquity)
    ensures StateOf(a, s, cfg, initialEquity, now).sizeMultiplier
        <= StateOf(b, t, cfg, initialEquity, now).sizeMultiplier
  {
    TimesSign(initialEquity, cfg.deathLinePct);
    hide Times, BaseScore, FloorDistance, FloorPenalty, RatchetLocks, Risk.RiskState.DrawdownPct, RealizedPct;
    PenaltiesNonNegative(s.pnlHistory, cfg.autoFlatDrawdownPct);
    RatchetNeverLocks(a.realizedToday, initialEquity, cfg);
    RatchetNeverLocks(b.realizedToday, initialEquity, cfg);
    if a.equity > DeathLine(initialEquity, cfg) {
      BaseOrder(a, s, b, t, cfg);
      FloorOrder(a.equity, b.equity, DeathLine(initialEquity, cfg), initialEquity);
    }
    hide ProjectionPenalty;
  }
}
