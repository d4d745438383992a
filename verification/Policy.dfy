/** The learning policy (src/learning/policy.rs): every applying lesson is folded into one verdict. */
module Policy {
  import opened Reals
  import opened Memory
  import opened Lessons

  datatype PolicyVerdict = PolicyVerdict(
    allowed: bool,
    sizeMultiplier: real,
    taThresholdDelta: int,
    llmFloor: Option<nat>,
    matched: seq<Lesson>)

  /** What some lessons amount to, whatever order they came in. */
  datatype Effect = Effect(blocked: bool, factor: real, delta: int, floor: Option<nat>) {
    function Then(o: Effect): Effect {
      Effect(blocked || o.blocked, Times(factor, o.factor), delta + o.delta, Higher(floor, o.floor))
    }
  }

  function Higher(a: Option<nat>, b: Option<nat>): Option<nat> {
    if a == None then b else if b == None then a else if a.value >= b.value then a else b
  }

  const NEUTRAL := Effect(false, 1.0, 0, None)

  function EffectOf(l: Lesson): Effect {
    if l.IsBlock() then Effect(true, 1.0, 0, None) else Effect(false, l.sizeMultiplier, l.taThresholdDelta, l.llmFloor)
  }

  function TotalEffect(ls: seq<Lesson>): Effect
  {
    if |ls| == 0 then NEUTRAL else TotalEffect(ls[..|ls| - 1]).Then(EffectOf(ls[|ls| - 1]))
  }

  function Applying(ls: seq<Lesson>, strategy: string, regime: string, symbol: string, now: int): seq<Lesson>
  {
    if |ls| == 0 then []
    else
      var l := ls[|ls| - 1];
      Applying(ls[..|ls| - 1], strategy, regime, symbol, now)
          + (if l.Applies(strategy, regime, symbol, now) then [l] else [])
  }

  function VerdictOf(matched: seq<Lesson>): PolicyVerdict {
    var e := TotalEffect(matched);
    PolicyVerdict(!e.blocked, if e.blocked then 0.0 else e.factor, e.delta, e.floor, matched)
  }

  lemma ApplyingSnoc(ls: seq<Lesson>, l: Lesson, strategy: string, regime: string, symbol: string, now: int)
    ensures var front := Applying(ls, strategy, regime, symbol, now);
      Applying(ls + [l], strategy, regime, symbol, now)
      == if l.Applies(strategy, regime, symbol, now) then front + [l] else front
  {
    assert (ls + [l])[..|ls|] == ls;
  }

  lemma NoneApply(strategy: string, regime: string, symbol: string, now: int)
    ensures Applying([], strategy, regime, symbol, now) == []
  {
  }

  class LearningPolicy {
    var memory: Option<PerformanceMemory>
    var lessons: seq<Lesson>

    constructor ()
      ensures memory == None && lessons == []
    {
      memory, lessons := None, [];
    }

    method Update(memory: PerformanceMemory, lessons: seq<Lesson>)
      modifies this
      ensures this.memory == Some(memory) && this.lessons == lessons
    {
      this.memory, this.lessons := Some(memory), lessons;
    }

    /** A block anywhere in the list wins; the other lessons multiply, add and take the maximum. */
    method Evaluate(strategy: string, regime: string, symbol: string, now: int) returns (v: PolicyVerdict)
      ensures v == VerdictOf(Applying(lessons, strategy, regime, symbol, now))
    {
      hide Times, Applying, Lesson.Applies, Lesson.IsBlock;
      v := PolicyVerdict(true, 1.0, 0, None, []);
      assert Applying(lessons[..0], strategy, regime, symbol, now) == [] by {
        NoneApply(strategy, regime, symbol, now);
      }
      for i := 0 to |lessons|
        invariant v == VerdictOf(Applying(lessons[..i], strategy, regime, symbol, now))
      {
        var l := lessons[i];
        ghost var before := Applying(lessons[..i], strategy, regime, symbol, now);
        assert lessons[..i + 1] == lessons[..i] + [l];
        ApplyingSnoc(lessons[..i], l, strategy, regime, symbol, now);
        if !l.Applies(strategy, regime, symbol, now) { continue; }
        EffectSnoc(before, l);
        TimesZero(l.sizeMultiplier);
        TimesOne(TotalEffect(before).factor);
        v := v.(matched := v.matched + [l]);
        if l.IsBlock() {
          v := v.(allowed := false, sizeMultiplier := 0.0);
        } else {
          v := v.(sizeMultiplier := Times(v.sizeMultiplier, l.sizeMultiplier),
                  taThresholdDelta := v.taThresholdDelta + l.taThresholdDelta);
          if l.llmFloor != None {
            var floor := if v.llmFloor == None then 0 else v.llmFloor.value;
            v := v.(llmFloor := Some(if floor >= l.llmFloor.value then floor else l.llmFloor.value));
          }
        }
      }
      assert lessons[..|lessons|] == lessons;
    }
  }

  lemma EffectSnoc(ls: seq<Lesson>, l: Lesson)
    ensures TotalEffect(ls + [l]) == TotalEffect(ls).Then(EffectOf(l))
  {
    assert (ls + [l])[..|ls|] == ls;
  }

  // ---- The order of the lessons does not matter ----

  lemma HigherLaws(a: Option<nat>, b: Option<nat>, c: Option<nat>)
    ensures Higher(Higher(a, b), c) == Higher(Higher(a, c), b)
  {
  }

  lemma ThenSwaps(a: Effect, b: Effect, c: Effect)
    ensures a.Then(b).Then(c) == a.Then(c).Then(b)
  {
    hide Times, Higher;
    SwapFactors(a.factor, b.factor, c.factor);
    HigherLaws(a.floor, b.floor, c.floor);
  }

  /** Any one lesson may as well have come last. */
  lemma {:induction false} EffectRemove(ls: seq<Lesson>, k: nat)
    requires k < |ls|
    ensures TotalEffect(ls) == TotalEffect(ls[..k] + ls[k + 1..]).Then(EffectOf(ls[k]))
  {
    hide Effect.Then, EffectOf;
    var n := |ls| - 1;
    if k == n {
      assert ls[..k] + ls[k + 1..] == ls[..n];
    } else {
      EffectRemove(ls[..n], k);
      var less := ls[..n][..k] + ls[..n][k + 1..];
      assert ls[..k] + ls[k + 1..] == less + [ls[n]];
      EffectSnoc(less, ls[n]);
      ThenSwaps(TotalEffect(less), EffectOf(ls[k]), EffectOf(ls[n]));
    }
  }

  lemma {:induction false} EffectPermutation(s: seq<Lesson>, t: seq<Lesson>)
    requires multiset(s) == multiset(t)
    ensures TotalEffect(s) == TotalEffect(t)
    decreases |s|
  {
    assert |multiset(s)| == |s| && |multiset(t)| == |t|;
    if |s| > 0 {
      var k := RemoveCommon(s, t);
      EffectPermutation(s[..|s| - 1], t[..k] + t[k + 1..]);
      EffectRemove(t, k);
    }
  }

  function OnceIf(l: Lesson, applies: bool): multiset<Lesson> { if applies then multiset{l} else multiset{} }

  lemma {:induction false} ApplyingRemove(ls: seq<Lesson>, k: nat, strategy: string, regime: string, symbol: string,
                                          now: int)
    requires k < |ls|
    ensures multiset(Applying(ls, strategy, regime, symbol, now))
         == multiset(Applying(ls[..k] + ls[k + 1..], strategy, regime, symbol, now))
            + OnceIf(ls[k], ls[k].Applies(strategy, regime, symbol, now))
  {
    hide Lesson.Applies, Applying;
    var n := |ls| - 1;
    assert ls == ls[..n] + [ls[n]];
    ApplyingSnoc(ls[..n], ls[n], strategy, regime, symbol, now);
    if k == n {
      assert ls[..k] + ls[k + 1..] == ls[..n];
    } else {
      ApplyingRemove(ls[..n], k, strategy, regime, symbol, now);
      var less := ls[..n][..k] + ls[..n][k + 1..];
      assert ls[..k] + ls[k + 1..] == less + [ls[n]];
      ApplyingSnoc(less, ls[n], strategy, regime, symbol, now);
    }
  }

  lemma {:induction false} ApplyingPermutation(s: seq<Lesson>, t: seq<Lesson>, strategy: string, regime: string,
                                               symbol: string, now: int)
    requires multiset(s) == multiset(t)
    ensures multiset(Applying(s, strategy, regime, symbol, now)) == multiset(Applying(t, strategy, regime, symbol, now))
    decreases |s|
  {
    hide Lesson.Applies;
    assert |multiset(s)| == |s| && |multiset(t)| == |t|;
    if |s| > 0 {
      var k := RemoveCommon(s, t);
      ApplyingPermutation(s[..|s| - 1], t[..k] + t[k + 1..], strategy, regime, symbol, now);
      ApplyingRemove(s, |s| - 1, strategy, regime, symbol, now);
      ApplyingRemove(t, k, strategy, regime, symbol, now);
      assert s[..|s| - 1] + s[|s| - 1 + 1..] == s[..|s| - 1];
    }
  }

  /** Two lists of the same lessons give the same verdict but for the order of the matched list. */
  lemma VerdictIgnoresOrder(s: seq<Lesson>, t: seq<Lesson>, strategy: string, regime: string, symbol: string, now: int)
    requires multiset(s) == multiset(t)
    ensures var v := VerdictOf(Applying(s, strategy, regime, symbol, now));
      var w := VerdictOf(Applying(t, strategy, regime, symbol, now));
      v == w.(matched := v.matched) && multiset(v.matched) == multiset(w.matched)
  {
    ApplyingPermutation(s, t, strategy, regime, symbol, now);
    EffectPermutation(Applying(s, strategy, regime, symbol, now), Applying(t, strategy, regime, symbol, now));
  }

  // ---- Verdicts on one extraction ----

  /** The lessons are those one call of the extractor returns for a memory, in any order. */
  ghost predicate Extracted(ls: seq<Lesson>, mem: PerformanceMemory, made: int, cfg: LessonConfig) {
    && |mem.llmCalibration| == 10 && NoRepeats(ls)
    && forall l :: l in ls <==> Taught(l, mem, made, cfg)
  }

  /** The derating or boost of a strategy that is in force now, if there is one. */
  function StrategyLesson(mem: PerformanceMemory, strategy: string, made: int, cfg: LessonConfig,
                          now: int): Option<Lesson> {
    if strategy in mem.byStrategy && now <= made + 6 * HOUR
    then StrategyRule(strategy, mem.byStrategy[strategy], made, cfg)
    else None
  }

  ghost predicate ForStrategy(l: Lesson, strategy: string, now: int) {
    Group(l.kind) == 2 && l.strategy == Some(strategy) && l.validUntil >= now
  }

  lemma StrategyLessonUnique(mem: PerformanceMemory, made: int, cfg: LessonConfig, l: Lesson, strategy: string,
                             now: int)
    requires |mem.llmCalibration| == 10
    ensures Taught(l, mem, made, cfg) && ForStrategy(l, strategy, now)
       <==> StrategyLesson(mem, strategy, made, cfg, now) == Some(l)
  {
    hide StrategyStats.WinRate, StrategyStats.ProfitFactor;
  }

  /** Only the strategy's own derating or boost changes the size: every other lesson blocks or leaves it alone. */
  lemma EffectOfTaught(mem: PerformanceMemory, made: int, cfg: LessonConfig, l: Lesson,
                       strategy: string, regime: string, symbol: string, now: int)
    requires |mem.llmCalibration| == 10 && Taught(l, mem, made, cfg) && l.Applies(strategy, regime, symbol, now)
    ensures EffectOf(l).factor == if ForStrategy(l, strategy, now) then l.sizeMultiplier else 1.0
    ensures EffectOf(l).delta == if ForStrategy(l, strategy, now) then l.taThresholdDelta else 0
  {
    hide StrategyStats.WinRate, StrategyStats.ProfitFactor, HourBelow, Lessons.Combined, TotalsWinRate;
  }

  lemma {:induction false} FactorOfPrefix(ls: seq<Lesson>, mem: PerformanceMemory, made: int, cfg: LessonConfig,
                                          strategy: string, regime: string, symbol: string, now: int)
    requires |mem.llmCalibration| == 10 && NoRepeats(ls) && forall l :: l in ls ==> Taught(l, mem, made, cfg)
    ensures var own := StrategyLesson(mem, strategy, made, cfg, now);
      var e := TotalEffect(Applying(ls, strategy, regime, symbol, now));
      && e.factor == (if own != None && own.value in ls then own.value.sizeMultiplier else 1.0)
      && e.delta == if own != None && own.value in ls then own.value.taThresholdDelta else 0
  {
    if |ls| > 0 {
      hide Times, Lesson.Applies, StrategyLesson, Taught, EffectOf, Applying, TotalEffect, ForStrategy;
      var n := |ls| - 1;
      var l := ls[n];
      FactorOfPrefix(ls[..n], mem, made, cfg, strategy, regime, symbol, now);
      assert ls == ls[..n] + [l] && l in ls && l !in ls[..n];
      var front := Applying(ls[..n], strategy, regime, symbol, now);
      ApplyingSnoc(ls[..n], l, strategy, regime, symbol, now);
      StrategyLessonUnique(mem, made, cfg, l, strategy, now);
      OwnLessonApplies(l, strategy, regime, symbol, now, mem, made, cfg);
      if l.Applies(strategy, regime, symbol, now) {
        EffectSnoc(front, l);
        EffectOfTaught(mem, made, cfg, l, strategy, regime, symbol, now);
        TimesOne(EffectOf(l).factor);
        TimesOne(TotalEffect(front).factor);
      }
    }
  }

  lemma OwnLessonApplies(l: Lesson, strategy: string, regime: string, symbol: string, now: int,
                         mem: PerformanceMemory, made: int, cfg: LessonConfig)
    requires |mem.llmCalibration| == 10
    ensures Taught(l, mem, made, cfg) && ForStrategy(l, strategy, now) ==> l.Applies(strategy, regime, symbol, now)
  {
    hide StrategyStats.WinRate, StrategyStats.ProfitFactor;
  }

  ghost predicate Blocks(l: Lesson, strategy: string, regime: string, symbol: string, now: int) {
    l.IsBlock() && l.Applies(strategy, regime, symbol, now)
  }

  lemma BlockedSnoc(ls: seq<Lesson>, l: Lesson, strategy: string, regime: string, symbol: string, now: int)
    ensures TotalEffect(Applying(ls + [l], strategy, regime, symbol, now)).blocked
       <==> (TotalEffect(Applying(ls, strategy, regime, symbol, now)).blocked
             || Blocks(l, strategy, regime, symbol, now))
  {
    hide Applying, TotalEffect, Times, Higher, Lesson.Applies;
    ApplyingSnoc(ls, l, strategy, regime, symbol, now);
    EffectSnoc(Applying(ls, strategy, regime, symbol, now), l);
  }

  lemma {:induction false} BlockedIff(ls: seq<Lesson>, strategy: string, regime: string, symbol: string, now: int)
    ensures TotalEffect(Applying(ls, strategy, regime, symbol, now)).blocked
        <==> exists l :: l in ls && Blocks(l, strategy, regime, symbol, now)
  {
    hide Blocks;
    if |ls| > 0 {
      hide Applying, TotalEffect;
      var n := |ls| - 1;
      BlockedIff(ls[..n], strategy, regime, symbol, now);
      assert ls == ls[..n] + [ls[n]];
      BlockedSnoc(ls[..n], ls[n], strategy, regime, symbol, now);
    }
  }

  /** On the lessons of one extraction the multiplier is 0 exactly when blocked; otherwise it is that of the
      strategy's derating or boost, 0.5 or 1.2, or 1 when the strategy has neither in force. The TA threshold moves
      with it: ten points up for a derated strategy, five down for a boosted one. */
  lemma VerdictOnExtraction(ls: seq<Lesson>, mem: PerformanceMemory, made: int, cfg: LessonConfig,
                            strategy: string, regime: string, symbol: string, now: int)
    requires Extracted(ls, mem, made, cfg)
    ensures var v := VerdictOf(Applying(ls, strategy, regime, symbol, now));
      var own := StrategyLesson(mem, strategy, made, cfg, now);
      && (v.allowed <==> !exists l :: Taught(l, mem, made, cfg) && Blocks(l, strategy, regime, symbol, now))
      && (v.sizeMultiplier == 0.0 <==> !v.allowed)
      && (v.allowed ==> v.sizeMultiplier == if own == None then 1.0 else own.value.sizeMultiplier)
      && v.taThresholdDelta == (if own == None then 0 else own.value.taThresholdDelta)
      && (own != None ==> own.value.sizeMultiplier == 0.5 || own.value.sizeMultiplier == 1.2)
      && (own != None ==> own.value.taThresholdDelta == if own.value.sizeMultiplier == 0.5 then 10 else -5)
  {
    var own := StrategyLesson(mem, strategy, made, cfg, now);
    if own != None { StrategyLessonUnique(mem, made, cfg, own.value, strategy, now); }
    OwnFactor(mem, strategy, made, cfg, now);
    hide Taught, StrategyLesson, Applying, TotalEffect, Blocks, NoRepeats;
    FactorOfPrefix(ls, mem, made, cfg, strategy, regime, symbol, now);
    BlockedIff(ls, strategy, regime, symbol, now);
  }

  /** What the memory must show for the four kinds of pause, each as long as it lasts: an hour that lost too much, a
      losing streak of the strategy on the symbol, a regime the strategy rarely wins in, a losing symbol. */
  ghost predicate Paused(mem: PerformanceMemory, made: int, cfg: LessonConfig, strategy: string, regime: string,
                         symbol: string, now: int)
  {
    || (HourBelow(mem.recentHourPnl, cfg) && mem.recentHourTrades > 1
        && now <= made + 60_000 * cfg.drawdownCooldownMinutes)
    || ((strategy, symbol) in mem.byStrategySymbol
        && mem.byStrategySymbol[(strategy, symbol)].recentStreak <= cfg.loseStreakTrigger
        && now <= made + 60_000 * cfg.loseStreakCooldownMinutes)
    || ((strategy, regime) in mem.byStrategyRegime && now <= made + 12 * 3_600_000
        && var s := mem.byStrategyRegime[(strategy, regime)];
           s.trades >= cfg.blacklistMinTrades && s.WinRate() < cfg.blacklistWinRate)
    || (symbol in mem.bySymbol && now <= made + 24 * 3_600_000
        && var s := mem.bySymbol[symbol];
           s.trades >= cfg.minTrades && s.netPnl < 0.0 && s.WinRate() < cfg.derateWinRate)
  }

  lemma PausedByTaught(mem: PerformanceMemory, made: int, cfg: LessonConfig, l: Lesson, strategy: string,
                       regime: string, symbol: string, now: int)
    requires |mem.llmCalibration| == 10 && Taught(l, mem, made, cfg) && Blocks(l, strategy, regime, symbol, now)
    ensures Paused(mem, made, cfg, strategy, regime, symbol, now)
  {
    hide StrategyStats.WinRate, StrategyStats.ProfitFactor, HourBelow, Combined, TotalsWinRate;
  }

  lemma TaughtWhenPaused(mem: PerformanceMemory, made: int, cfg: LessonConfig, strategy: string, regime: string,
                         symbol: string, now: int) returns (l: Lesson)
    requires |mem.llmCalibration| == 10 && Paused(mem, made, cfg, strategy, regime, symbol, now)
    ensures Taught(l, mem, made, cfg) && Blocks(l, strategy, regime, symbol, now)
  {
    hide StrategyStats.WinRate, StrategyStats.ProfitFactor, HourBelow, Combined, TotalsWinRate;
    if DrawdownRule(mem, made, cfg) != None && DrawdownRule(mem, made, cfg).value.validUntil >= now {
      l := DrawdownRule(mem, made, cfg).value;
    } else if now <= made + 60_000 * cfg.loseStreakCooldownMinutes
              && Fires(mem.byStrategySymbol, (strategy, symbol), StreakRuleOf(made, cfg),
                       StreakPause(strategy, symbol, made, cfg)) {
      l := StreakPause(strategy, symbol, made, cfg);
    } else if now <= made + 12 * HOUR
              && Fires(mem.byStrategyRegime, (strategy, regime), BlacklistRuleOf(made, cfg),
                       Pause(RegimeBlacklist, Some(strategy), Some(regime), None, made + 12 * HOUR)) {
      l := Pause(RegimeBlacklist, Some(strategy), Some(regime), None, made + 12 * HOUR);
    } else {
      l := Pause(SymbolDerate, None, None, Some(symbol), made + 24 * HOUR);
    }
  }

  /** A signal is blocked exactly when the memory shows one of the four reasons for its strategy, regime and symbol,
      and the pause that follows from it is not over. */
  lemma BlockedOnMemory(ls: seq<Lesson>, mem: PerformanceMemory, made: int, cfg: LessonConfig,
                        strategy: string, regime: string, symbol: string, now: int)
    requires Extracted(ls, mem, made, cfg)
    ensures VerdictOf(Applying(ls, strategy, regime, symbol, now)).allowed
       <==> !Paused(mem, made, cfg, strategy, regime, symbol, now)
  {
    hide Taught, Applying, TotalEffect, Blocks, NoRepeats, Paused, StrategyLesson;
    VerdictOnExtraction(ls, mem, made, cfg, strategy, regime, symbol, now);
    if Paused(mem, made, cfg, strategy, regime, symbol, now) {
      var l := TaughtWhenPaused(mem, made, cfg, strategy, regime, symbol, now);
    } else if l :| Taught(l, mem, made, cfg) && Blocks(l, strategy, regime, symbol, now) {
      PausedByTaught(mem, made, cfg, l, strategy, regime, symbol, now);
    }
  }

  predicate AsksFloor(l: Lesson) { !l.IsBlock() && l.llmFloor != None }

  /** The confidence the verdict asks of the language model is the highest that any matched lesson asks. */
  lemma {:induction false} FloorIsHighest(matched: seq<Lesson>)
    ensures var floor := VerdictOf(matched).llmFloor;
      && (floor == None <==> forall l :: l in matched ==> !AsksFloor(l))
      && (floor != None ==> exists l :: l in matched && AsksFloor(l) && l.llmFloor == floor)
      && forall l :: l in matched && AsksFloor(l) ==> l.llmFloor.value <= floor.value
  {
    if |matched| > 0 {
      hide Times, Lesson.IsBlock;
      var n := |matched| - 1;
      var front, last := matched[..n], matched[n];
      FloorIsHighest(front);
      assert matched == front + [last] && last in matched;
      var before, floor := VerdictOf(front).llmFloor, VerdictOf(matched).llmFloor;
      assert floor == if AsksFloor(last) then Higher(before, last.llmFloor) else before;
      if before != None {
        var l :| l in front && AsksFloor(l) && l.llmFloor == before;
        assert l in matched;
      }
      if AsksFloor(last) && floor == last.llmFloor { assert last in matched && last.llmFloor == floor; }
    }
  }

  lemma OwnFactor(mem: PerformanceMemory, strategy: string, made: int, cfg: LessonConfig, now: int)
    ensures var own := StrategyLesson(mem, strategy, made, cfg, now);
      && (own != None ==> own.value.sizeMultiplier == 0.5 || own.value.sizeMultiplier == 1.2)
      && (own != None ==> own.value.taThresholdDelta == if own.value.sizeMultiplier == 0.5 then 10 else -5)
  {
    hide StrategyStats.WinRate, StrategyStats.ProfitFactor;
  }

  // ---- From the journal to the verdict ----

  /** Journal, memory, lessons, verdict: once the last n closed trades of a strategy on a symbol were all losses and
      n reaches the trigger (up to the five that are remembered), the pair is blocked until the cooldown is over. */
  lemma LosingRunBlocks(ts: seq<ClosedTrade>, since: int, mem: PerformanceMemory, ls: seq<Lesson>, made: int,
                        cfg: LessonConfig, strategy: string, regime: string, symbol: string, now: int, n: nat)
    requires Describes(mem, ts, since) && Extracted(ls, mem, made, cfg)
    requires var own := Select(ts, ByStrategySymbol, (strategy, symbol));
      n <= |own| && forall k :: |own| - n <= k < |own| ==> !own[k].IsWin()
    requires 0 < n <= 5 && 0 - n <= cfg.loseStreakTrigger
    requires now <= made + cfg.loseStreakCooldownMinutes * MINUTE
    ensures !VerdictOf(Applying(ls, strategy, regime, symbol, now)).allowed
  {
    var l := StreakPause(strategy, symbol, made, cfg);
    LosingRunTaught(ts, since, mem, made, cfg, strategy, symbol, n);
    assert Blocks(l, strategy, regime, symbol, now);
    hide Applying, TotalEffect, Taught, Describes, Select, StrategyLesson, Blocks, NoRepeats;
    VerdictOnExtraction(ls, mem, made, cfg, strategy, regime, symbol, now);
  }

  lemma LosingRunTaught(ts: seq<ClosedTrade>, since: int, mem: PerformanceMemory, made: int, cfg: LessonConfig,
                        strategy: string, symbol: string, n: nat)
    requires Describes(mem, ts, since)
    requires var own := Select(ts, ByStrategySymbol, (strategy, symbol));
      n <= |own| && forall k :: |own| - n <= k < |own| ==> !own[k].IsWin()
    requires 0 < n <= 5 && 0 - n <= cfg.loseStreakTrigger
    ensures |mem.llmCalibration| == 10
    ensures Taught(StreakPause(strategy, symbol, made, cfg), mem, made, cfg)
  {
    var own, key := Select(ts, ByStrategySymbol, (strategy, symbol)), (strategy, symbol);
    if key !in mem.byStrategySymbol { SelectAbsent(ts, ByStrategySymbol, key); }
    hide Select;
    assert mem.byStrategySymbol[key] == StatsOf(own);
    hide Describes, TotalsOf, Averaged, Streak;
    StreakAtMost(Outcomes(own), n);
    hide StatsOf, Taught;
    StreakTaught(mem, made, cfg, strategy, symbol);
  }

  predicate Confident(t: ClosedTrade) { t.llmConfidence != None && t.llmConfidence.value >= 80 }

  lemma CombinedPair(a: StrategyStats, b: StrategyStats)
    ensures Combined([a, b]) == Additive(a).Plus(Additive(b))
  {
    assert [a, b][..1] == [a] && [a][..0] == [] && Combined([a]) == Additive(a);
  }

  lemma TotalsOfPair(ts: seq<ClosedTrade>, key: ClosedTrade -> int, j: int, k: int)
    ensures TotalsByKey(ts, key, [j, k]) == TotalsOf(Select(ts, key, j)).Plus(TotalsOf(Select(ts, key, k)))
  {
    hide TotalsOf, Select;
    assert [j, k][..1] == [j] && [j][..0] == [] && TotalsByKey(ts, key, [j]) == TotalsOf(Select(ts, key, j));
  }

  lemma AdditivePart(ts: seq<ClosedTrade>)
    ensures Additive(StatsOf(ts)) == TotalsOf(ts)
  {
    hide TotalsOf, Averaged, Streak;
  }

  lemma HighBucketKeys(ts: seq<ClosedTrade>)
    ensures SelectAny(ts, ByConfidence, [8, 9]) == Select(ts, Confident, true)
  {
    hide Select, SelectAny;
    SelectedTogether(ts, ByConfidence, [8, 9], Confident, true);
  }

  /** The two highest confidence buckets together hold exactly the trades entered with a confidence of at least 80. */
  lemma HighBuckets(ts: seq<ClosedTrade>, since: int, mem: PerformanceMemory)
    requires Describes(mem, ts, since)
    ensures Combined(mem.llmCalibration[8..]) == TotalsOf(Select(ts, Confident, true))
  {
    hide Select, SelectAny, TotalsOf, TotalsByKey, Combined, StatsOf, Grouped, Confident, ByConfidence;
    assert mem.llmCalibration[8..] == [mem.llmCalibration[8], mem.llmCalibration[9]];
    CombinedPair(mem.llmCalibration[8], mem.llmCalibration[9]);
    AdditivePart(Select(ts, ByConfidence, 8));
    AdditivePart(Select(ts, ByConfidence, 9));
    TotalsOfPair(ts, ByConfidence, 8, 9);
    GroupsPartition(ts, ByConfidence, [8, 9]);
    HighBucketKeys(ts);
  }

  /** So high confidence is distrusted exactly when enough of the journal's trades were entered with it and too few of
      them won. */
  lemma DistrustedIff(ts: seq<ClosedTrade>, since: int, mem: PerformanceMemory, made: int, cfg: LessonConfig)
    requires Describes(mem, ts, since)
    ensures |mem.llmCalibration| == 10
    ensures var high := TotalsOf(Select(ts, Confident, true));
      (exists l :: Taught(l, mem, made, cfg) && l.kind.LlmCalibration?)
      <==> high.trades >= cfg.minTrades && TotalsWinRate(high) < cfg.overconfidentWinRate
  {
    HighBuckets(ts, since, mem);
    var calibration := CalibrationRule(Combined(mem.llmCalibration[8..]), made, cfg);
    if calibration != None { assert Taught(calibration.value, mem, made, cfg); }
    hide TotalsOf, Select, TotalsWinRate, Combined, StrategyStats.WinRate;
  }

  function StreakPause(strategy: string, symbol: string, made: int, cfg: LessonConfig): Lesson {
    Pause(LoseStreak, Some(strategy), None, Some(symbol), made + cfg.loseStreakCooldownMinutes * MINUTE)
  }

  lemma StreakTaught(mem: PerformanceMemory, made: int, cfg: LessonConfig, strategy: string, symbol: string)
    requires |mem.llmCalibration| == 10 && (strategy, symbol) in mem.byStrategySymbol
    requires mem.byStrategySymbol[(strategy, symbol)].recentStreak <= cfg.loseStreakTrigger
    ensures Taught(StreakPause(strategy, symbol, made, cfg), mem, made, cfg)
  {
    assert Fires(mem.byStrategySymbol, (strategy, symbol), StreakRuleOf(made, cfg),
                 StreakPause(strategy, symbol, made, cfg));
  }

  lemma StreakAtMost(os: seq<bool>, n: nat)
    requires 0 < n <= 5 && n <= |os| && forall k :: |os| - n <= k < |os| ==> !os[k]
    ensures Streak(os) <= 0 - n
  {
    hide Streak, TrailingRun;
    StreakMeaning(os);
    assert !os[|os| - 1];
  }
}
