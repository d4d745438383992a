/** The survival agent's memory and cooldown machine (src/agents/survival.rs). `Inner` is what its mutex
    guards; `SurvivalAgent` updates it in place. Times are milliseconds and are parameters of each call. */
module Survival {
  import opened Reals
  import opened SurvivalScore
  import opened Windows
  import Risk

  datatype Close = Close(at: int, pnl: real)

  datatype Inner = Inner(
    consecutiveLosses: nat,
    recentCloses: seq<Close>,
    cooldownUntil: Option<int>,
    lastFlatAt: Option<int>,
    currentDay: int,
    dailyLossCount: nat,
    newsScore: real,
    pnlHistory: seq<real>)

  datatype Op =
    | Closed(close: Close)
    | News(score: real)
    | ResetDaily(now: int)
    | ClearCooldown
    | FlatAsked(now: int)

  const MINUTE := 60 * 1000
  const DAY := 24 * 60 * MINUTE

  function Date(now: int): int { now / DAY }

  function Start(now: int): Inner { Inner(0, [], None, None, Date(now), 0, 0.0, []) }

  /** The deque without the closes more than 24 hours old at its front. */
  function Pruned(closes: seq<Close>, now: int): seq<Close>
  {
    if |closes| > 0 && now - closes[0].at > DAY then Pruned(closes[1..], now) else closes
  }

  /** Losses met walking the deque backwards until a close is older than the window. */
  function LossesInWindow(recent: seq<Close>, now: int, window: int): nat
  {
    if |recent| == 0 || now - recent[|recent| - 1].at > window then 0
    else LossesInWindow(recent[..|recent| - 1], now, window) + (if recent[|recent| - 1].pnl < 0.0 then 1 else 0)
  }

  function Later(c: Option<int>, until: int): Option<int> { if c == None || c.value < until then Some(until) else c }

  function LaterIf(c: Option<int>, due: bool, until: int): Option<int> { if due then Later(c, until) else c }

  function RolledOver(i: Inner, now: int): Inner {
    if Date(now) != i.currentDay then i.(currentDay := Date(now), dailyLossCount := 0) else i
  }

  function Remembered(i: Inner, c: Close): Inner {
    var history := i.pnlHistory + [c.pnl];
    i.(recentCloses := Pruned(i.recentCloses + [c], c.at),
       pnlHistory := if |history| > 200 then history[1..] else history)
  }

  function Cooled(i: Inner, now: int, cfg: SurvivalCfg): Option<int> {
    var short := LaterIf(i.cooldownUntil, i.consecutiveLosses >= cfg.lossStreakShort,
                         now + cfg.shortCooldownMin * MINUTE);
    var losses := LossesInWindow(i.recentCloses, now, cfg.longWindowMin * MINUTE);
    var long := LaterIf(short, losses >= cfg.lossStreakLong, now + cfg.longCooldownMin * MINUTE);
    LaterIf(long, i.dailyLossCount >= cfg.dailyLossCount, now + DAY)
  }

  function Counted(i: Inner, c: Close, cfg: SurvivalCfg): Inner {
    if c.pnl < 0.0 then
      var j := i.(consecutiveLosses := i.consecutiveLosses + 1, dailyLossCount := i.dailyLossCount + 1);
      j.(cooldownUntil := Cooled(j, c.at, cfg))
    else i.(consecutiveLosses := 0)
  }

  function Apply(i: Inner, op: Op, cfg: SurvivalCfg): Inner {
    match op
    case Closed(c) => Counted(Remembered(RolledOver(i, c.at), c), c, cfg)
    case News(score) => i.(newsScore := score)
    case ResetDaily(now) => i.(dailyLossCount := 0, currentDay := Date(now), cooldownUntil := None)
    case ClearCooldown => i.(cooldownUntil := None)
    case FlatAsked(now) => i.(lastFlatAt := Some(now))
  }

  function Replay(start: int, ops: seq<Op>, cfg: SurvivalCfg): Inner
  {
    if |ops| == 0 then Start(start) else Apply(Replay(start, ops[..|ops| - 1], cfg), ops[|ops| - 1], cfg)
  }

  function SignsAt(i: Inner, now: int): Signs {
    Signs(i.consecutiveLosses, i.cooldownUntil != None && i.cooldownUntil.value > now, i.newsScore, i.pnlHistory)
  }

  /** A flat-all asked for at `now` is sent unless one was sent less than 60 whole seconds before. */
  predicate FlatAllowed(last: Option<int>, now: int) { last == None || (now - last.value) / 1000 >= 60 }

  /** In milliseconds: a minute after the last one. */
  lemma FlatAllowedIff(last: int, now: int)
    ensures FlatAllowed(Some(last), now) <==> now >= last + 60_000
  {
    var since := now - last;
    assert since == 1000 * (since / 1000) + since % 1000;
  }

  /** Two moments are on one date exactly if one midnight begins the day of both. */
  lemma SameDate(a: int, b: int)
    ensures Date(a) == Date(b) <==> exists midnight: int {:trigger midnight % DAY} ::
              midnight % DAY == 0 && midnight <= a < midnight + DAY && midnight <= b < midnight + DAY
  {
    if Date(a) == Date(b) {
      var midnight := Date(a) * DAY;
      assert midnight % DAY == 0;
    }
  }

  datatype Published = FlatAll(now: int) | SurvivalUpdated(state: SurvivalState)

  function FlatTimes(log: seq<Published>): seq<int>
  {
    if |log| == 0 then []
    else FlatTimes(log[..|log| - 1]) + (if log[|log| - 1].FlatAll? then [log[|log| - 1].now] else [])
  }

  ghost predicate Spaced(times: seq<int>) { forall i :: 0 < i < |times| ==> times[i] - times[i - 1] >= 60_000 }

  /** What applying a state does to the risk manager: it sets the multiplier, and freezes or unfreezes whatever was
      frozen. */
  function AppliedOps(state: SurvivalState, frozen: bool): seq<Risk.RiskOp> {
    [Risk.SetMultiplier(state.sizeMultiplier)] +
    (if state.mode.Halts() then [Risk.Freeze] else if frozen then [Risk.Unfreeze] else [])
  }

  class SurvivalAgent {
    const cfg: SurvivalCfg
    const initialEquity: real
    const risk: Risk.RiskManager
    var consecutiveLosses: nat
    var recentCloses: seq<Close>
    var cooldownUntil: Option<int>
    var lastFlatAt: Option<int>
    var currentDay: int
    var dailyLossCount: nat
    var newsScore: real
    var pnlHistory: seq<real>
    var published: seq<Published>
    ghost const started: int
    ghost var history: seq<Op>

    function State(): Inner reads this {
      Inner(consecutiveLosses, recentCloses, cooldownUntil, lastFlatAt, currentDay, dailyLossCount, newsScore,
          pnlHistory)
    }

    ghost predicate Valid() reads this, risk {
      && risk.Valid()
      && State() == Replay(started, history, cfg)
      && Spaced(FlatTimes(published))
      && (lastFlatAt == None ==> FlatTimes(published) == [])
      && (lastFlatAt != None ==>
            |FlatTimes(published)| > 0 && FlatTimes(published)[|FlatTimes(published)| - 1] == lastFlatAt.value)
    }

    constructor (cfg: SurvivalCfg, initialEquity: real, risk: Risk.RiskManager, now: int)
      requires risk.Valid()
      ensures Valid() && history == [] && published == [] && started == now
      ensures this.cfg == cfg && this.initialEquity == initialEquity && this.risk == risk
    {
      this.cfg, this.initialEquity, this.risk := cfg, initialEquity, risk;
      consecutiveLosses, recentCloses, cooldownUntil, lastFlatAt := 0, [], None, None;
      currentDay, dailyLossCount, newsScore, pnlHistory := Date(now), 0, 0.0, [];
      published, started, history := [], now, [];
    }

    ghost method Record(op: Op)
      requires State() == Apply(Replay(started, history, cfg), op, cfg)
      modifies this`history
      ensures State() == Replay(started, history, cfg) && history == old(history) + [op]
    {
      assert (history + [op])[..|history|] == history;
      history := history + [op];
    }

    method OnPositionClosed(now: int, pnl: real)
      requires Valid()
      modifies this`consecutiveLosses, this`recentCloses, this`cooldownUntil, this`currentDay, this`dailyLossCount,
               this`pnlHistory, this`history
      ensures Valid() && history == old(history) + [Closed(Close(now, pnl))]
    {
      hide Pruned, LossesInWindow, Replay, Spaced, FlatTimes, Cooled, Risk.RiskManager.Valid, Remembered, RolledOver;
      ghost var c := Close(now, pnl);
      Remember(now, pnl);
      if pnl < 0.0 {
        consecutiveLosses := consecutiveLosses + 1;
        dailyLossCount := dailyLossCount + 1;
        CoolDown(now);
      } else {
        consecutiveLosses := 0;
      }
      hide Cooled;
      Record(Closed(c));
    }

    /** Rolls the day over and takes the close into both memories. */
    method Remember(now: int, pnl: real)
      modifies this`recentCloses, this`currentDay, this`dailyLossCount, this`pnlHistory
      ensures State() == Remembered(RolledOver(old(State()), now), Close(now, pnl))
    {
      hide Pruned;
      var today := Date(now);
      if today != currentDay {
        currentDay := today;
        dailyLossCount := 0;
      }
      recentCloses := recentCloses + [Close(now, pnl)];
      pnlHistory := pnlHistory + [pnl];
      if |pnlHistory| > 200 { pnlHistory := pnlHistory[1..]; }
      DropOld(now);
    }

    method DropOld(now: int)
      modifies this`recentCloses
      ensures recentCloses == Pruned(old(recentCloses), now)
    {
      while |recentCloses| > 0 && now - recentCloses[0].at > DAY
        invariant Pruned(recentCloses, now) == Pruned(old(recentCloses), now)
        decreases |recentCloses|
      {
        recentCloses := recentCloses[1..];
      }
    }

    method CoolDown(now: int)
      modifies this`cooldownUntil
      ensures cooldownUntil == Cooled(old(State()), now, cfg)
    {
      if consecutiveLosses >= cfg.lossStreakShort {
        var until := now + cfg.shortCooldownMin * MINUTE;
        if cooldownUntil == None || cooldownUntil.value < until { cooldownUntil := Some(until); }
      }
      var losses := CountLosses(recentCloses, now, cfg.longWindowMin * MINUTE);
      if losses >= cfg.lossStreakLong {
        var until := now + cfg.longCooldownMin * MINUTE;
        if cooldownUntil == None || cooldownUntil.value < until { cooldownUntil := Some(until); }
      }
      if dailyLossCount >= cfg.dailyLossCount {
        var until := now + DAY;
        if cooldownUntil == None || cooldownUntil.value < until { cooldownUntil := Some(until); }
      }
    }

    method OnNews(score: real)
      requires Valid()
      modifies this`newsScore, this`history
      ensures Valid() && history == old(history) + [News(score)]
    {
      newsScore := score;
      Record(News(score));
    }

    method OnResetDaily(now: int)
      requires Valid()
      modifies this`dailyLossCount, this`currentDay, this`cooldownUntil, this`history
      ensures Valid() && history == old(history) + [ResetDaily(now)]
    {
      dailyLossCount := 0;
      currentDay := Date(now);
      cooldownUntil := None;
      Record(ResetDaily(now));
    }

    method OnUnfreeze()
      requires Valid()
      modifies this`cooldownUntil, this`history, risk
      ensures Valid() && history == old(history) + [ClearCooldown]
      ensures risk.history == old(risk.history) + [Risk.Unfreeze] && !risk.frozen
    {
      hide Replay, Spaced, FlatTimes, Risk.Replay, Counted, Remembered, RolledOver;
      cooldownUntil := None;
      Record(ClearCooldown);
      risk.Unfreeze();
    }

    method Recompute(now: int) returns (state: SurvivalState)
      ensures state == StateOf(risk.State(), SignsAt(State(), now), cfg, initialEquity, now)
    {
      var inCooldown := match cooldownUntil case None => false case Some(t) => t > now;
      state := Assess(risk.State(), Signs(consecutiveLosses, inCooldown, newsScore, pnlHistory), cfg, initialEquity,
          now);
    }

    /** Afterwards the account is frozen exactly in the halting modes: an operator's freeze does not survive. */
    method ApplyState(state: SurvivalState)
      requires risk.Valid() && 0.0 <= state.sizeMultiplier <= 2.0
      modifies risk
      ensures risk.Valid() && risk.history == old(risk.history) + AppliedOps(state, old(risk.frozen))
      ensures risk.sizeMultiplier == state.sizeMultiplier
      ensures risk.frozen <==> state.mode.Halts()
    {
      hide Risk.Replay;
      risk.SetSizeMultiplier(state.sizeMultiplier);
      if state.mode.Halts() {
        risk.Freeze();
      } else if risk.frozen {
        risk.Unfreeze();
      }
    }

    method MaybePublishFlatAll(now: int)
      requires Valid()
      modifies this`lastFlatAt, this`published, this`history
      ensures Valid()
      ensures FlatAllowed(old(lastFlatAt), now) ==>
                published == old(published) + [FlatAll(now)] && history == old(history) + [FlatAsked(now)]
      ensures !FlatAllowed(old(lastFlatAt), now) ==> published == old(published) && history == old(history)
    {
      hide Replay, FlatTimes, Risk.Replay, Risk.RiskManager.Valid, Counted, Remembered, RolledOver;
      if lastFlatAt != None && (now - lastFlatAt.value) / 1000 < 60 { return; }
      lastFlatAt := Some(now);
      Record(FlatAsked(now));
      FlatTimesSnoc(published, FlatAll(now));
      published := published + [FlatAll(now)];
    }

    /** Death, or a drawdown past the auto-flat limit, asks for a flat-all. */
    method FlatIfNeeded(state: SurvivalState, now: int)
      requires Valid()
      modifies this`lastFlatAt, this`published, this`history
      ensures Valid()
      ensures var asked := state.mode.Dead? || state.drawdownPct >= cfg.autoFlatDrawdownPct;
        var sent := asked && FlatAllowed(old(lastFlatAt), now);
        && history == old(history) + (if sent then [FlatAsked(now)] else [])
        && published == old(published) + (if sent then [FlatAll(now)] else [])
    {
      hide Replay, Spaced, FlatTimes;
      if state.mode.Dead? {
        MaybePublishFlatAll(now);
      } else if state.drawdownPct >= cfg.autoFlatDrawdownPct {
        MaybePublishFlatAll(now);
      }
    }

    method Publish(state: SurvivalState)
      requires Valid()
      modifies this`published
      ensures Valid() && published == old(published) + [SurvivalUpdated(state)]
    {
      FlatTimesSnoc(published, SurvivalUpdated(state));
      published := published + [SurvivalUpdated(state)];
    }

    /** The refresh task: recompute, apply, publish. It never asks for a flat-all. */
    method Refresh(now: int) returns (state: SurvivalState)
      requires Valid()
      modifies this`published, risk
      ensures Valid() && history == old(history)
      ensures state == StateOf(old(risk.State()), SignsAt(State(), now), cfg, initialEquity, now)
      ensures published == old(published) + [SurvivalUpdated(state)]
      ensures risk.history == old(risk.history) + AppliedOps(state, old(risk.frozen))
      ensures risk.sizeMultiplier == state.sizeMultiplier && (risk.frozen <==> state.mode.Halts())
    {
      hide Replay, Spaced, FlatTimes, Risk.Replay;
      state := Recompute(now);
      MultiplierRange(risk.State(), SignsAt(State(), now), cfg, initialEquity, now);
      hide StateOf;
      ApplyState(state);
      Publish(state);
    }

    /** The handler of a published close. The state published is computed after the close is remembered, and a
        flat-all is asked for on death or past the auto-flat drawdown. */
    method OnClosedEvent(now: int, pnl: real) returns (state: SurvivalState)
      requires Valid()
      modifies this, risk
      ensures Valid()
      ensures state == StateOf(old(risk.State()), SignsAt(State(), now), cfg, initialEquity, now)
      ensures var asked := state.mode.Dead? || state.drawdownPct >= cfg.autoFlatDrawdownPct;
        var sent := asked && FlatAllowed(old(lastFlatAt), now);
        && history == old(history) + [Closed(Close(now, pnl))] + (if sent then [FlatAsked(now)] else [])
        && published == old(published) + (if sent then [FlatAll(now)] else []) + [SurvivalUpdated(state)]
      ensures risk.history == old(risk.history) + AppliedOps(state, old(risk.frozen))
      ensures risk.sizeMultiplier == state.sizeMultiplier && (risk.frozen <==> state.mode.Halts())
    {
      hide Replay, Spaced, FlatTimes, Risk.Replay;
      OnPositionClosed(now, pnl);
      state := Recompute(now);
      MultiplierRange(risk.State(), SignsAt(State(), now), cfg, initialEquity, now);
      hide StateOf, AppliedOps;
      FlatIfNeeded(state, now);
      ApplyState(state);
      Publish(state);
    }
  }

  /** Walking the deque backwards, stopping at the first close that is too old. */
  method CountLosses(recent: seq<Close>, now: int, window: int) returns (losses: nat)
    ensures losses == LossesInWindow(recent, now, window)
  {
    losses := 0;
    var i := |recent|;
    assert recent[..i] == recent;
    while i > 0 && now - recent[i - 1].at <= window
      invariant 0 <= i <= |recent|
      invariant losses + LossesInWindow(recent[..i], now, window) == LossesInWindow(recent, now, window)
      decreases i
    {
      assert recent[..i][..i - 1] == recent[..i - 1];
      if recent[i - 1].pnl < 0.0 { losses := losses + 1; }
      i := i - 1;
    }
  }

  lemma FlatTimesSnoc(log: seq<Published>, p: Published)
    ensures FlatTimes(log + [p]) == if p.FlatAll? then FlatTimes(log) + [p.now] else FlatTimes(log)
  {
    assert (log + [p])[..|log|] == log;
  }

  lemma MultiplierRange(account: Risk.RiskState, signs: Signs, cfg: SurvivalCfg, initialEquity: real, now: int)
    ensures 0.0 <= StateOf(account, signs, cfg, initialEquity, now).sizeMultiplier <= 2.0
  {
    hide Score, RealizedPct, Risk.RiskState.DrawdownPct;
  }

  // ---- What the fields mean, over any history under a clock that does not go back ----

  function Closes(ops: seq<Op>): seq<Close>
  {
    if |ops| == 0 then []
    else Closes(ops[..|ops| - 1]) + (if ops[|ops| - 1].Closed? then [ops[|ops| - 1].close] else [])
  }

  /** The clock reading of an operation that has one. */
  function TimeOf(op: Op, before: int): int {
    match op
    case Closed(c) => c.at
    case ResetDaily(now) => now
    case _ => before
  }

  function ClockAfter(start: int, ops: seq<Op>): int
  {
    if |ops| == 0 then start else TimeOf(ops[|ops| - 1], ClockAfter(start, ops[..|ops| - 1]))
  }

  ghost predicate Forward(start: int, ops: seq<Op>)
  {
    |ops| > 0 ==>
      && Forward(start, ops[..|ops| - 1])
      && ClockAfter(start, ops[..|ops| - 1]) <= ClockAfter(start, ops)
  }

  /** The length of the run of losses the list ends with. */
  function TrailingLosses(cs: seq<Close>): (n: nat)
    ensures n <= |cs|
  {
    if |cs| == 0 || cs[|cs| - 1].pnl >= 0.0 then 0 else TrailingLosses(cs[..|cs| - 1]) + 1
  }

  lemma {:induction false} TrailingLossesMeaning(cs: seq<Close>)
    ensures forall k :: |cs| - TrailingLosses(cs) <= k < |cs| ==> cs[k].pnl < 0.0
    ensures TrailingLosses(cs) < |cs| ==> cs[|cs| - 1 - TrailingLosses(cs)].pnl >= 0.0
  {
    if |cs| > 0 && cs[|cs| - 1].pnl < 0.0 { TrailingLossesMeaning(cs[..|cs| - 1]); }
  }

  /** All losses at most `window` old. */
  function LossesWithin(cs: seq<Close>, now: int, window: int): nat
  {
    if |cs| == 0 then 0
    else
      var c := cs[|cs| - 1];
      LossesWithin(cs[..|cs| - 1], now, window) + (if c.pnl < 0.0 && now - c.at <= window then 1 else 0)
  }

  /** Losses closed on a date, since the last daily reset. */
  function LossesOn(ops: seq<Op>, day: int): nat
  {
    if |ops| == 0 || ops[|ops| - 1].ResetDaily? then 0
    else
      var op := ops[|ops| - 1];
      LossesOn(ops[..|ops| - 1], day) + (if op.Closed? && op.close.pnl < 0.0 && Date(op.close.at) == day then 1 else 0)
  }

  lemma ApplyStreak(i: Inner, op: Op, cfg: SurvivalCfg)
    ensures Apply(i, op, cfg).consecutiveLosses
         == if !op.Closed? then i.consecutiveLosses else if op.close.pnl < 0.0 then i.consecutiveLosses + 1 else 0
  {
    hide Pruned, Cooled;
  }

  /** consecutive_losses is the length of the trailing run of negative pnls. */
  lemma {:induction false} StreakIsTrailingLosses(start: int, ops: seq<Op>, cfg: SurvivalCfg)
    ensures Replay(start, ops, cfg).consecutiveLosses == TrailingLosses(Closes(ops))
  {
    if |ops| > 0 {
      hide Apply;
      var n := |ops| - 1;
      StreakIsTrailingLosses(start, ops[..n], cfg);
      ApplyStreak(Replay(start, ops[..n], cfg), ops[n], cfg);
      if ops[n].Closed? {
        assert (Closes(ops[..n]) + [ops[n].close])[..|Closes(ops[..n])|] == Closes(ops[..n]);
      } else {
        assert Closes(ops) == Closes(ops[..n]);
      }
    }
  }

  ghost predicate Ordered(cs: seq<Close>) { forall i, j :: 0 <= i <= j < |cs| ==> cs[i].at <= cs[j].at }

  lemma {:induction false} ClosesOrdered(start: int, ops: seq<Op>)
    requires Forward(start, ops)
    ensures Ordered(Closes(ops))
    ensures forall k :: 0 <= k < |Closes(ops)| ==> Closes(ops)[k].at <= ClockAfter(start, ops)
    ensures start <= ClockAfter(start, ops)
  {
    if |ops| > 0 { ClosesOrdered(start, ops[..|ops| - 1]); }
  }

  /** recent is what is left of all closes once those more than 24 hours before `now` are gone. */
  ghost predicate KeepsDay(recent: seq<Close>, all: seq<Close>, now: int) {
    exists d :: SplitsDay(all, d, now) && recent == all[d..]
  }

  ghost predicate SplitsDay(all: seq<Close>, d: int, now: int) {
    && 0 <= d <= |all|
    && (forall j :: 0 <= j < d ==> now - all[j].at > DAY)
    && (forall j :: d <= j < |all| ==> now - all[j].at <= DAY)
  }

  lemma {:induction false} PrunedKeepsDay(all: seq<Close>, d: nat, now: int)
    requires d <= |all| && Ordered(all)
    requires forall j :: 0 <= j < d ==> now - all[j].at > DAY
    ensures KeepsDay(Pruned(all[d..], now), all, now)
    decreases |all| - d
  {
    if d < |all| && now - all[d].at > DAY {
      assert all[d..][1..] == all[d + 1..];
      PrunedKeepsDay(all, d + 1, now);
    } else {
      assert Pruned(all[d..], now) == all[d..] && SplitsDay(all, d, now);
    }
  }

  lemma NextClose(recent: seq<Close>, all: seq<Close>, last: int, c: Close)
    requires KeepsDay(recent, all, last) && (last <= c.at || |all| == 0)
    requires Ordered(all + [c])
    ensures KeepsDay(Pruned(recent + [c], c.at), all + [c], c.at)
  {
    if |all| == 0 {
      assert recent == [] && (all + [c])[0..] == [c] == recent + [c];
      PrunedKeepsDay(all + [c], 0, c.at);
    } else {
      hide Pruned, Ordered;
      var d :| SplitsDay(all, d, last) && recent == all[d..];
      assert recent + [c] == (all + [c])[d..];
      assert forall j :: 0 <= j < d ==> (all + [c])[j] == all[j];
      PrunedKeepsDay(all + [c], d, c.at);
    }
  }

  lemma ApplyRecent(i: Inner, op: Op, cfg: SurvivalCfg)
    ensures Apply(i, op, cfg).recentCloses
         == if op.Closed? then Pruned(i.recentCloses + [op.close], op.close.at) else i.recentCloses
  {
    hide Pruned, Cooled;
  }

  function LastClose(ops: seq<Op>): int { if |Closes(ops)| == 0 then 0 else Closes(ops)[|Closes(ops)| - 1].at }

  /** The deque holds exactly the closes of the 24 hours before the last one. */
  lemma {:induction false} RecentIsLastDay(start: int, ops: seq<Op>, cfg: SurvivalCfg)
    requires Forward(start, ops)
    ensures KeepsDay(Replay(start, ops, cfg).recentCloses, Closes(ops), LastClose(ops))
  {
    if |ops| == 0 {
      assert Closes(ops)[0..] == [] && SplitsDay(Closes(ops), 0, LastClose(ops));
    } else {
      hide Apply, Pruned, KeepsDay;
      var n := |ops| - 1;
      var was, all := Replay(start, ops[..n], cfg).recentCloses, Closes(ops[..n]);
      RecentIsLastDay(start, ops[..n], cfg);
      ApplyRecent(Replay(start, ops[..n], cfg), ops[n], cfg);
      ClosesOrdered(start, ops);
      if ops[n].Closed? {
        assert Closes(ops) == all + [ops[n].close];
        assert |all| > 0 ==> Closes(ops)[|all| - 1].at <= Closes(ops)[|all|].at;
        NextClose(was, all, LastClose(ops[..n]), ops[n].close);
      } else {
        assert Closes(ops) == all;
      }
    }
  }

  function Pnls(cs: seq<Close>): seq<real> { seq(|cs|, i requires 0 <= i < |cs| => cs[i].pnl) }

  lemma ApplyHistory(i: Inner, op: Op, cfg: SurvivalCfg)
    ensures var longer := if op.Closed? then i.pnlHistory + [op.close.pnl] else i.pnlHistory;
      |i.pnlHistory| <= 200 ==> Apply(i, op, cfg).pnlHistory == if |longer| > 200 then longer[1..] else longer
  {
    hide Pruned, Cooled;
  }

  /** pnl_history, from which drawdowns are projected, holds the results of the last 200 closes. */
  lemma {:induction false} HistoryIsLast200(start: int, ops: seq<Op>, cfg: SurvivalCfg)
    ensures Replay(start, ops, cfg).pnlHistory == Window(Pnls(Closes(ops)), 200)
  {
    if |ops| > 0 {
      hide Apply, Window;
      var n := |ops| - 1;
      var before := Pnls(Closes(ops[..n]));
      HistoryIsLast200(start, ops[..n], cfg);
      ApplyHistory(Replay(start, ops[..n], cfg), ops[n], cfg);
      if ops[n].Closed? {
        assert Pnls(Closes(ops)) == before + [ops[n].close.pnl];
        Slide(before, ops[n].close.pnl, 200);
      } else {
        assert Closes(ops) == Closes(ops[..n]);
      }
    }
  }

  lemma {:induction false} WindowCount(cs: seq<Close>, now: int, window: int)
    requires Ordered(cs)
    ensures LossesInWindow(cs, now, window) == LossesWithin(cs, now, window)
  {
    if |cs| > 0 {
      if now - cs[|cs| - 1].at > window {
        NoneWithin(cs, now, window);
      } else {
        WindowCount(cs[..|cs| - 1], now, window);
      }
    }
  }

  lemma {:induction false} NoneWithin(cs: seq<Close>, now: int, window: int)
    requires forall j :: 0 <= j < |cs| ==> now - cs[j].at > window
    ensures LossesWithin(cs, now, window) == 0
  {
    if |cs| > 0 { NoneWithin(cs[..|cs| - 1], now, window); }
  }

  lemma {:induction false} DroppedNotWithin(all: seq<Close>, d: nat, now: int, window: int)
    requires SplitsDay(all, d, now)
    ensures LossesWithin(all[d..], now, window) == LossesWithin(all, now, if window < DAY then window else DAY)
    decreases |all|
  {
    if d == |all| {
      NoneWithin(all, now, if window < DAY then window else DAY);
    } else {
      var n := |all| - 1;
      assert all[d..][..n - d] == all[..n][d..];
      DroppedNotWithin(all[..n], d, now, window);
    }
  }

  /** The backward take_while count over the deque is the true number of losses in the window (24 hours at most). */
  lemma LossesCounted(start: int, ops: seq<Op>, cfg: SurvivalCfg, window: int)
    requires Forward(start, ops)
    ensures LossesInWindow(Replay(start, ops, cfg).recentCloses, LastClose(ops), window)
         == LossesWithin(Closes(ops), LastClose(ops), if window < DAY then window else DAY)
  {
    hide Replay, LossesInWindow, LossesWithin;
    RecentIsLastDay(start, ops, cfg);
    ClosesOrdered(start, ops);
    var all, now := Closes(ops), LastClose(ops);
    var d :| SplitsDay(all, d, now) && Replay(start, ops, cfg).recentCloses == all[d..];
    hide SplitsDay;
    WindowCount(all[d..], now, window);
    DroppedNotWithin(all, d, now, window);
  }

  lemma DateMonotone(a: int, b: int)
    requires a <= b
    ensures Date(a) <= Date(b)
  {
  }

  lemma ApplyDay(i: Inner, op: Op, cfg: SurvivalCfg)
    ensures var j := Apply(i, op, cfg);
      match op
      case Closed(c) =>
        && j.currentDay == Date(c.at)
        && j.dailyLossCount == (if Date(c.at) == i.currentDay then i.dailyLossCount else 0)
                             + (if c.pnl < 0.0 then 1 else 0)
      case ResetDaily(now) => j.currentDay == Date(now) && j.dailyLossCount == 0
      case _ => j.currentDay == i.currentDay && j.dailyLossCount == i.dailyLossCount
  {
    hide Pruned, Cooled, Date;
  }

  lemma {:induction false} NoLossesLater(start: int, ops: seq<Op>, cfg: SurvivalCfg, day: int)
    requires Forward(start, ops) && day > Replay(start, ops, cfg).currentDay
    ensures LossesOn(ops, day) == 0
  {
    if |ops| > 0 {
      hide Apply, Date;
      var n := |ops| - 1;
      CurrentDay(start, ops, cfg);
      CurrentDay(start, ops[..n], cfg);
      ApplyDay(Replay(start, ops[..n], cfg), ops[n], cfg);
      DateMonotone(ClockAfter(start, ops[..n]), ClockAfter(start, ops));
      NoLossesLater(start, ops[..n], cfg, day);
    }
  }

  lemma {:induction false} CurrentDay(start: int, ops: seq<Op>, cfg: SurvivalCfg)
    requires Forward(start, ops)
    ensures Replay(start, ops, cfg).currentDay == Date(ClockAfter(start, ops))
  {
    if |ops| > 0 {
      hide Apply, Date;
      var n := |ops| - 1;
      CurrentDay(start, ops[..n], cfg);
      ApplyDay(Replay(start, ops[..n], cfg), ops[n], cfg);
    }
  }

  /** daily_loss_count is the number of losses closed on the current day since the last reset. */
  lemma {:induction false} DailyCount(start: int, ops: seq<Op>, cfg: SurvivalCfg)
    requires Forward(start, ops)
    ensures Replay(start, ops, cfg).dailyLossCount == LossesOn(ops, Replay(start, ops, cfg).currentDay)
  {
    if |ops| > 0 {
      hide Apply, Date;
      var n := |ops| - 1;
      DailyCount(start, ops[..n], cfg);
      ApplyDay(Replay(start, ops[..n], cfg), ops[n], cfg);
      CurrentDay(start, ops, cfg);
      CurrentDay(start, ops[..n], cfg);
      DateMonotone(ClockAfter(start, ops[..n]), ClockAfter(start, ops));
      var day := Replay(start, ops, cfg).currentDay;
      if day > Replay(start, ops[..n], cfg).currentDay { NoLossesLater(start, ops[..n], cfg, day); }
    }
  }

  // ---- The cooldown ----

  predicate Clears(op: Op) { op.ResetDaily? || op.ClearCooldown? }

  predicate Losing(op: Op) { op.Closed? && op.close.pnl < 0.0 }

  function Shorter(window: int): int { if window < DAY then window else DAY }

  /** What the last operation alone calls for: the latest of the three cooldowns whose trigger, counted over the
      whole history, is met by a losing close. */
  function Due(ops: seq<Op>, cfg: SurvivalCfg): Option<int> {
    if |ops| == 0 || !Losing(ops[|ops| - 1]) then None
    else
      var now := ops[|ops| - 1].close.at;
      var short := LaterIf(None, TrailingLosses(Closes(ops)) >= cfg.lossStreakShort,
                           now + cfg.shortCooldownMin * MINUTE);
      var within := LossesWithin(Closes(ops), now, Shorter(cfg.longWindowMin * MINUTE));
      var long := LaterIf(short, within >= cfg.lossStreakLong, now + cfg.longCooldownMin * MINUTE);
      LaterIf(long, LossesOn(ops, Date(now)) >= cfg.dailyLossCount, now + DAY)
  }

  function Latest(a: Option<int>, b: Option<int>): Option<int> { if b == None then a else Later(a, b.value) }

  lemma LaterIfLatest(c: Option<int>, short: bool, s: int, long: bool, l: int, daily: bool, d: int)
    ensures LaterIf(LaterIf(LaterIf(c, short, s), long, l), daily, d)
         == Latest(c, LaterIf(LaterIf(LaterIf(None, short, s), long, l), daily, d))
  {
  }

  lemma ApplyCooldown(i: Inner, op: Op, cfg: SurvivalCfg)
    ensures var j := Apply(i, op, cfg);
      j.cooldownUntil == if Clears(op) then None
                         else if Losing(op) then Cooled(j.(cooldownUntil := i.cooldownUntil), op.close.at, cfg)
                         else i.cooldownUntil
  {
    hide Pruned, LossesInWindow, Date;
  }

  lemma CooldownStep(start: int, ops: seq<Op>, cfg: SurvivalCfg)
    requires Forward(start, ops) && |ops| > 0
    ensures var before := Replay(start, ops[..|ops| - 1], cfg).cooldownUntil;
      Replay(start, ops, cfg).cooldownUntil == if Clears(ops[|ops| - 1]) then None else Latest(before, Due(ops, cfg))
  {
    hide Apply, LossesInWindow, LossesWithin, LossesOn, TrailingLosses, LaterIf;
    var n := |ops| - 1;
    var i, j := Replay(start, ops[..n], cfg), Replay(start, ops, cfg);
    ApplyCooldown(i, ops[n], cfg);
    if Losing(ops[n]) {
      var now := ops[n].close.at;
      StreakIsTrailingLosses(start, ops, cfg);
      assert LastClose(ops) == now;
      LossesCounted(start, ops, cfg, cfg.longWindowMin * MINUTE);
      DailyCount(start, ops, cfg);
      ApplyDay(i, ops[n], cfg);
      var counted := LossesWithin(Closes(ops), now, Shorter(cfg.longWindowMin * MINUTE));
      LaterIfLatest(i.cooldownUntil,
                    TrailingLosses(Closes(ops)) >= cfg.lossStreakShort, now + cfg.shortCooldownMin * MINUTE,
                    counted >= cfg.lossStreakLong, now + cfg.longCooldownMin * MINUTE,
                    LossesOn(ops, Date(now)) >= cfg.dailyLossCount, now + DAY);
    }
  }

  predicate AtLeast(a: Option<int>, b: Option<int>) { b == None || (a != None && a.value >= b.value) }

  /** Operation k was not followed by one that clears the cooldown. */
  ghost predicate Standing(ops: seq<Op>, k: int) {
    0 <= k < |ops| && forall j :: k <= j < |ops| ==> !Clears(ops[j])
  }

  lemma StandingStep(ops: seq<Op>, k: int)
    requires |ops| > 0 && k < |ops| - 1
    ensures Standing(ops, k) <==> Standing(ops[..|ops| - 1], k) && !Clears(ops[|ops| - 1])
    ensures 0 <= k ==> ops[..|ops| - 1][..k + 1] == ops[..k + 1]
  {
  }

  lemma LatestLaws(a: Option<int>, b: Option<int>, c: Option<int>)
    ensures AtLeast(Latest(a, b), a) && AtLeast(Latest(a, b), b)
    ensures Latest(a, b) == a || Latest(a, b) == b
    ensures AtLeast(a, c) ==> AtLeast(Latest(a, b), c)
  {
  }

  /** cooldown_until is the maximum over what every close since the last clearing called for. */
  lemma {:induction false} CooldownIsMaximum(start: int, ops: seq<Op>, cfg: SurvivalCfg)
    requires Forward(start, ops)
    ensures forall k :: Standing(ops, k) ==> AtLeast(Replay(start, ops, cfg).cooldownUntil, Due(ops[..k + 1], cfg))
    ensures Replay(start, ops, cfg).cooldownUntil != None ==>
              exists k :: Standing(ops, k) && Due(ops[..k + 1], cfg) == Replay(start, ops, cfg).cooldownUntil
  {
    if |ops| > 0 {
      hide Apply, Due, Latest, AtLeast, Clears;
      var n := |ops| - 1;
      CooldownIsMaximum(start, ops[..n], cfg);
      CooldownStep(start, ops, cfg);
      hide Replay;
      assert ops[..n + 1] == ops;
      var before, due := Replay(start, ops[..n], cfg).cooldownUntil, Due(ops, cfg);
      LatestLaws(before, due, None);
      assert !Clears(ops[n]) ==> Standing(ops, n);
      forall k | Standing(ops, k) ensures AtLeast(Replay(start, ops, cfg).cooldownUntil, Due(ops[..k + 1], cfg)) {
        if k < n {
          StandingStep(ops, k);
          LatestLaws(before, due, Due(ops[..k + 1], cfg));
        }
      }
      if Replay(start, ops, cfg).cooldownUntil != None && Replay(start, ops, cfg).cooldownUntil == before {
        var k :| Standing(ops[..n], k) && Due(ops[..n][..k + 1], cfg) == before;
        StandingStep(ops, k);
      }
    }
  }

  /** The last operation is a losing close that calls for a cooldown beyond moment t: for the short one after a streak,
      the long one after losses within the window (24 hours at most), or a whole day after too many on one date. */
  ghost predicate CallsPast(ops: seq<Op>, cfg: SurvivalCfg, t: int) {
    && |ops| > 0 && Losing(ops[|ops| - 1])
    && var now, cs := ops[|ops| - 1].close.at, Closes(ops);
       || (TrailingLosses(cs) >= cfg.lossStreakShort && now + 60_000 * cfg.shortCooldownMin > t)
       || (LossesWithin(cs, now, Shorter(60_000 * cfg.longWindowMin)) >= cfg.lossStreakLong
           && now + 60_000 * cfg.longCooldownMin > t)
       || (LossesOn(ops, Date(now)) >= cfg.dailyLossCount && now + 86_400_000 > t)
  }

  lemma DuePast(ops: seq<Op>, cfg: SurvivalCfg, t: int)
    ensures CallsPast(ops, cfg, t) <==> Due(ops, cfg) != None && Due(ops, cfg).value > t
  {
  }

  /** A cooldown is in force at a moment exactly when some losing close since the last clearing calls for one beyond
      that moment. */
  lemma InCooldownIff(start: int, ops: seq<Op>, cfg: SurvivalCfg, now: int)
    requires Forward(start, ops)
    ensures SignsAt(Replay(start, ops, cfg), now).inCooldown
       <==> exists k :: Standing(ops, k) && CallsPast(ops[..k + 1], cfg, now)
  {
    hide Replay, Due, CallsPast;
    CooldownIsMaximum(start, ops, cfg);
    var until := Replay(start, ops, cfg).cooldownUntil;
    if SignsAt(Replay(start, ops, cfg), now).inCooldown {
      var k :| Standing(ops, k) && Due(ops[..k + 1], cfg) == until;
      DuePast(ops[..k + 1], cfg, now);
    }
    if k :| Standing(ops, k) && CallsPast(ops[..k + 1], cfg, now) { DuePast(ops[..k + 1], cfg, now); }
  }

  /** It never moves earlier, except by being cleared. */
  lemma {:induction false} CooldownNeverEarlier(start: int, ops: seq<Op>, cfg: SurvivalCfg, k: nat)
    requires Forward(start, ops) && k <= |ops| && forall j :: k <= j < |ops| ==> !Clears(ops[j])
    ensures AtLeast(Replay(start, ops, cfg).cooldownUntil, Replay(start, ops[..k], cfg).cooldownUntil)
  {
    hide Apply, Due, Latest;
    if k == |ops| {
      assert ops[..k] == ops;
    } else {
      var n := |ops| - 1;
      CooldownNeverEarlier(start, ops[..n], cfg, k);
      assert ops[..n][..k] == ops[..k];
      CooldownStep(start, ops, cfg);
      LatestLaws(Replay(start, ops[..n], cfg).cooldownUntil, Due(ops, cfg), Replay(start, ops[..k], cfg).cooldownUntil);
    }
  }

  /** Until a cooldown expires, and unless it is cleared, every recompute at any account gives Frozen or Dead
      with multiplier 0, whatever else happened since. */
  lemma CooldownHolds(start: int, ops: seq<Op>, cfg: SurvivalCfg, k: nat, now: int, account: Risk.RiskState,
                      initialEquity: real)
    requires Forward(start, ops) && k <= |ops| && forall j :: k <= j < |ops| ==> !Clears(ops[j])
    requires Replay(start, ops[..k], cfg).cooldownUntil != None
    requires now < Replay(start, ops[..k], cfg).cooldownUntil.value
    ensures var s := StateOf(account, SignsAt(Replay(start, ops, cfg), now), cfg, initialEquity, now);
      (s.mode == Frozen || s.mode == Dead) && s.sizeMultiplier == 0.0
  {
    CooldownNeverEarlier(start, ops, cfg, k);
    hide Replay, StateOf;
    CooldownHalts(account, SignsAt(Replay(start, ops, cfg), now), cfg, initialEquity, now);
  }

  // ---- A run of the agent under a cooldown ----

  datatype Input = PositionClosed(now: int, pnl: real) | FeedsSnapshot(news: real) | RefreshTick(now: int)

  ghost predicate Before(inputs: seq<Input>, until: int) {
    forall k :: 0 <= k < |inputs| && !inputs[k].FeedsSnapshot? ==> inputs[k].now < until
  }

  ghost predicate Halting(log: seq<Published>, from: nat) {
    forall k :: from <= k < |log| && log[k].SurvivalUpdated? ==>
      (log[k].state.mode == Frozen || log[k].state.mode == Dead) && log[k].state.sizeMultiplier == 0.0
  }

  lemma AppliedCooldown(i: Inner, op: Op, cfg: SurvivalCfg)
    ensures !Clears(op) ==> AtLeast(Apply(i, op, cfg).cooldownUntil, i.cooldownUntil)
  {
    ApplyCooldown(i, op, cfg);
    hide Apply, LossesInWindow;
  }

  /** Any inputs before the cooldown ends leave it standing; every state published meanwhile is a halting one, and
      once one was, the account is frozen with multiplier 0. */
  method Drive(agent: SurvivalAgent, inputs: seq<Input>)
    requires agent.Valid() && agent.cooldownUntil != None && Before(inputs, agent.cooldownUntil.value)
    modifies agent, agent.risk
    ensures agent.Valid() && AtLeast(agent.cooldownUntil, old(agent.cooldownUntil))
    ensures |old(agent.published)| <= |agent.published| && Halting(agent.published, |old(agent.published)|)
    ensures |agent.published| > |old(agent.published)| ==> agent.risk.frozen && agent.risk.sizeMultiplier == 0.0
  {
    hide StateOf, Apply, Replay, Spaced, FlatTimes, AppliedOps, Risk.Replay, Halting;
    ghost var from := |agent.published|;
    assert Halting(agent.published, from) by { NothingYet(agent.published); }
    for i := 0 to |inputs|
      invariant agent.Valid() && AtLeast(agent.cooldownUntil, old(agent.cooldownUntil))
      invariant from <= |agent.published| && Halting(agent.published, from)
      invariant |agent.published| > from ==> agent.risk.frozen && agent.risk.sizeMultiplier == 0.0
    {
      ghost var log := agent.published;
      match inputs[i] {
        case PositionClosed(now, pnl) =>
          var state := Closing(agent, now, pnl);
          HaltingMore(log, agent.published, state, from);
        case FeedsSnapshot(news) =>
          agent.OnNews(news);
        case RefreshTick(now) =>
          CooldownHalts(agent.risk.State(), SignsAt(agent.State(), now), agent.cfg, agent.initialEquity, now);
          var state := agent.Refresh(now);
          HaltingMore(log, agent.published, state, from);
      }
    }
  }

  method Closing(agent: SurvivalAgent, now: int, pnl: real) returns (state: SurvivalState)
    requires agent.Valid() && agent.cooldownUntil != None && now < agent.cooldownUntil.value
    modifies agent, agent.risk
    ensures agent.Valid() && AtLeast(agent.cooldownUntil, old(agent.cooldownUntil))
    ensures (state.mode == Frozen || state.mode == Dead) && state.sizeMultiplier == 0.0
    ensures agent.risk.frozen && agent.risk.sizeMultiplier == 0.0
    ensures agent.published == old(agent.published) + [SurvivalUpdated(state)]
         || agent.published == old(agent.published) + [FlatAll(now)] + [SurvivalUpdated(state)]
  {
    hide StateOf, Apply, Replay, Spaced, FlatTimes, AppliedOps, Risk.Replay;
    ghost var ops := agent.history;
    state := agent.OnClosedEvent(now, pnl);
    CooldownAfter(agent.started, ops, Closed(Close(now, pnl)), agent.cfg);
    CooldownAfter(agent.started, ops + [Closed(Close(now, pnl))], FlatAsked(now), agent.cfg);
    assert ops + [Closed(Close(now, pnl))] + [] == ops + [Closed(Close(now, pnl))];
    CooldownHalts(old(agent.risk.State()), SignsAt(agent.State(), now), agent.cfg, agent.initialEquity, now);
  }

  lemma CooldownAfter(start: int, ops: seq<Op>, op: Op, cfg: SurvivalCfg)
    requires !Clears(op)
    ensures AtLeast(Replay(start, ops + [op], cfg).cooldownUntil, Replay(start, ops, cfg).cooldownUntil)
  {
    hide Apply;
    assert (ops + [op])[..|ops|] == ops;
    AppliedCooldown(Replay(start, ops, cfg), op, cfg);
  }

  lemma NothingYet(log: seq<Published>)
    ensures Halting(log, |log|)
  {
  }

  lemma HaltingMore(log: seq<Published>, more: seq<Published>, state: SurvivalState, from: nat)
    requires Halting(log, from) && from <= |log|
    requires (state.mode == Frozen || state.mode == Dead) && state.sizeMultiplier == 0.0
    requires
      || more == log + [SurvivalUpdated(state)]
      || exists now :: more == log + [FlatAll(now)] + [SurvivalUpdated(state)]
    ensures Halting(more, from)
  {
  }
}
