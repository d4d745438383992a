/** The freeze over whole runs of the protocol: who wins when tasks race, what a freeze guarantees, what the
    agents' caches guarantee, and what does not hold (src/agents/survival.rs, control.rs, execution.rs). */
module Freeze {
  import opened Pipeline
  import opened Protocol
  import opened Reals
  import opened Sight
  import Risk
  import SurvivalScore

  // ---- The flag ----

  /** No interleaving dispatches an entry while frozen: from a frozen moment on, nothing is dispatched until a
      step that clears the flag. */
  lemma {:induction false} FrozenUntilUnfrozen(run: seq<World>, actions: seq<Action>, c: Config, i: nat, j: nat)
    requires IsRun(run, actions, c) && i <= j < |run| && run[i].risk.frozen
    requires forall k :: i <= k < j ==> !Unfreezes(run[k], actions[k])
    ensures run[j].risk.frozen && run[j].dispatched == run[i].dispatched
    decreases j - i
  {
    hide Enabled, Do, Unfreezes, Freezes;
    if i < j {
      var w, a := run[j - 1], actions[j - 1];
      FrozenUntilUnfrozen(run, actions, c, i, j - 1);
      FrozenStep(w, a, c);
      DispatchStep(w, a, c);
      NoDispatchWhenFrozen(w, a, c);
    }
  }

  lemma NoDispatchWhenFrozen(w: World, a: Action, c: Config)
    requires Enabled(w, a) && w.risk.frozen
    ensures Dispatches(w, a, c) == []
  {
    hide Enabled, NextEvent;
  }

  /** Step k set the flag, and no later step before moment j cleared it. */
  ghost predicate LastFroze(run: seq<World>, actions: seq<Action>, j: nat, k: int)
    requires j <= |actions| < |run|
  {
    0 <= k < j && Freezes(run[k], actions[k]) && forall m :: k < m < j ==> !Unfreezes(run[m], actions[m])
  }

  /** The account is frozen exactly when the last step that touched the flag was a freezing one: whoever acts last
      wins. */
  lemma {:induction false} FrozenIff(run: seq<World>, actions: seq<Action>, c: Config, j: nat)
    requires IsRun(run, actions, c) && j <= |actions| && !run[0].risk.frozen
    ensures run[j].risk.frozen <==> exists k :: LastFroze(run, actions, j, k)
  {
    hide Enabled, Do, Unfreezes, Freezes;
    if j > 0 {
      FrozenIff(run, actions, c, j - 1);
      FrozenStep(run[j - 1], actions[j - 1], c);
      if Freezes(run[j - 1], actions[j - 1]) { assert LastFroze(run, actions, j, j - 1); }
      forall k | LastFroze(run, actions, j, k) && k < j - 1 ensures LastFroze(run, actions, j - 1, k) {}
      if run[j - 1].risk.frozen && !Unfreezes(run[j - 1], actions[j - 1]) {
        var k :| LastFroze(run, actions, j - 1, k);
        assert LastFroze(run, actions, j, k);
      }
    }
  }

  // ---- The multiplier ----

  /** Step k set the multiplier, and no later step before moment j did. */
  ghost predicate LastScaled(run: seq<World>, actions: seq<Action>, i: nat, j: nat, k: int)
    requires j <= |actions| < |run|
  {
    i <= k < j && Scales(run[k], actions[k]) && forall m :: k < m < j ==> !Scales(run[m], actions[m])
  }

  /** The mode of the state that an apply step carries. */
  function ModeApplied(w: World, a: Action): Mode
    requires Scales(w, a)
  {
    Pending(w, a.refreshing).mode
  }

  /** The multiplier is that of the state scaled last. */
  lemma {:induction false} MultiplierIsLast(run: seq<World>, actions: seq<Action>, c: Config, i: nat, j: nat, k: int)
    requires IsRun(run, actions, c) && i <= j <= |actions| && LastScaled(run, actions, i, j, k)
    ensures run[j].risk.sizeMultiplier == SurvivalScore.Multiplier(ModeApplied(run[k], actions[k]))
    decreases j
  {
    hide Enabled, Do, Scales, SurvivalScore.Multiplier;
    MultiplierStep(run[j - 1], actions[j - 1], c);
    if k < j - 1 { MultiplierIsLast(run, actions, c, i, j - 1, k); }
  }

  lemma {:induction false} MultiplierKept(run: seq<World>, actions: seq<Action>, c: Config, i: nat, j: nat)
    requires IsRun(run, actions, c) && i <= j <= |actions|
    requires forall k :: i <= k < j ==> !Scales(run[k], actions[k])
    ensures run[j].risk.sizeMultiplier == run[i].risk.sizeMultiplier
    decreases j
  {
    hide Enabled, Do, Scales, SurvivalScore.Multiplier;
    if i < j {
      MultiplierStep(run[j - 1], actions[j - 1], c);
      MultiplierKept(run, actions, c, i, j - 1);
    }
  }

  /** If any step of a stretch scales, one does so last. */
  lemma {:induction false} SomeLastScaled(run: seq<World>, actions: seq<Action>, i: nat, j: nat, k: nat)
    returns (l: int)
    requires j <= |actions| < |run| && i <= k < j && Scales(run[k], actions[k])
    ensures LastScaled(run, actions, i, j, l)
    decreases j
  {
    hide Scales;
    if Scales(run[j - 1], actions[j - 1]) { l := j - 1; } else { l := SomeLastScaled(run, actions, i, j - 1, k); }
  }

  lemma ZeroExactlyWhenHalting(mode: Mode)
    ensures SurvivalScore.Multiplier(mode) == 0.0 <==> mode.Halts()
  {
  }

  /** From a moment with multiplier 0 on, the multiplier is 0 exactly when the state scaled last since then, if any,
      was a halting one. */
  lemma MultiplierIff(run: seq<World>, actions: seq<Action>, c: Config, i: nat, j: nat)
    requires IsRun(run, actions, c) && i <= j <= |actions| && run[i].risk.sizeMultiplier == 0.0
    ensures run[j].risk.sizeMultiplier == 0.0
       <==> forall k :: LastScaled(run, actions, i, j, k) ==> ModeApplied(run[k], actions[k]).Halts()
  {
    hide Enabled, Do, Scales, SurvivalScore.Multiplier;
    if k :| i <= k < j && Scales(run[k], actions[k]) {
      var l := SomeLastScaled(run, actions, i, j, k);
      MultiplierIsLast(run, actions, c, i, j, l);
      ZeroExactlyWhenHalting(ModeApplied(run[l], actions[l]));
      assert forall k :: LastScaled(run, actions, i, j, k) ==> k == l;
    } else {
      MultiplierKept(run, actions, c, i, j);
    }
  }

  // ---- What a freeze guarantees ----

  /** A task applies a state: it scales at step i, and at step m it freezes, or looks whether to thaw. */
  ghost predicate StateApplied(run: seq<World>, actions: seq<Action>, i: nat, m: nat, refreshing: bool, mode: Mode) {
    && i < m < |actions| < |run|
    && actions[i] == ApplyStep(refreshing) && Pending(run[i], refreshing) == Computed(mode)
    && actions[m] == ApplyStep(refreshing) && Pending(run[m], refreshing) == Scaled(mode)
  }

  /** A task applies a halting state: it scales at step i and freezes at step m. */
  ghost predicate HaltApplied(run: seq<World>, actions: seq<Action>, i: nat, m: nat, refreshing: bool, mode: Mode) {
    mode.Halts() && StateApplied(run, actions, i, m, refreshing, mode)
  }

  /** Whatever happens between the two steps, the account then is frozen; its multiplier is 0 exactly when the
      state scaled last in between, if any, was a halting one too. */
  lemma HaltAppliedEnds(run: seq<World>, actions: seq<Action>, c: Config, i: nat, m: nat, refreshing: bool, mode: Mode)
    requires IsRun(run, actions, c) && HaltApplied(run, actions, i, m, refreshing, mode)
    ensures run[i + 1].risk.sizeMultiplier == 0.0 && run[m + 1].risk.frozen
    ensures run[m + 1].risk.sizeMultiplier == 0.0
       <==> forall k :: LastScaled(run, actions, i + 1, m, k) ==> ModeApplied(run[k], actions[k]).Halts()
  {
    hide Enabled, Do, SurvivalScore.Multiplier;
    MultiplierStep(run[i], actions[i], c);
    ZeroExactlyWhenHalting(mode);
    FrozenStep(run[m], actions[m], c);
    MultiplierStep(run[m], actions[m], c);
    MultiplierIff(run, actions, c, i + 1, m);
  }

  /** Freeze safety, whoever else steps while a halting state is applied. Unless the other survival task scales
      sizes up after the first step, the account ends frozen at multiplier 0; from then on nothing is dispatched
      until a step clears the flag; and, until sizes are scaled up, whatever clears the flag, every entry
      dispatched was sized before the first step and at most the orders then in flight are dispatched. */
  lemma FreezeSafety(run: seq<World>, actions: seq<Action>, c: Config, i: nat, m: nat, j: nat, refreshing: bool,
                     mode: Mode)
    requires IsRun(run, actions, c) && AtStart(run[0]) && m < j < |run|
    requires HaltApplied(run, actions, i, m, refreshing, mode) && NoScaleUp(run, actions, i + 1, j)
    ensures run[m + 1].risk.frozen && run[m + 1].risk.sizeMultiplier == 0.0
    ensures (forall k :: m < k < j ==> !Unfreezes(run[k], actions[k])) ==> run[j].dispatched == run[m + 1].dispatched
    ensures forall n :: |run[i + 1].dispatched| <= n < |run[j].dispatched| ==> run[j].dispatched[n].order.sizedAt <= i
    ensures |run[j].dispatched| <= |run[i + 1].dispatched| + InFlight(run[i + 1])
  {
    HaltAppliedEnds(run, actions, c, i, m, refreshing, mode);
    hide IsRun, HaltApplied, ScalesUp, Unfreezes, InFlight;
    MultiplierStaysZero(run, actions, c, i + 1, m + 1);
    if forall k :: m < k < j ==> !Unfreezes(run[k], actions[k]) {
      FrozenUntilUnfrozen(run, actions, c, m + 1, j);
    }
    forall n | |run[i + 1].dispatched| <= n < |run[j].dispatched| ensures run[j].dispatched[n].order.sizedAt <= i {
      OnlyStaleSizes(run, actions, c, i + 1, j, n);
    }
    LeakageBound(run, actions, c, i + 1, j);
  }

  // ---- What an agent has seen ----

  /** With honor_survival set, nothing is dispatched while the last survival state among the events the execution
      agent has consumed is a halting one. */
  lemma DispatchSeesNoHalt(run: seq<World>, actions: seq<Action>, c: Config, j: nat)
    requires IsRun(run, actions, c) && AtStart(run[0]) && c.honorSurvival
    requires j < |actions| && run[j + 1].dispatched != run[j].dispatched
    ensures Cursor(run[j], ExecAgent) <= |run[j].log|
    ensures var seen := LastMode(run[j].log[..Cursor(run[j], ExecAgent)]); seen != None ==> !seen.value.Halts()
  {
    hide Enabled, Do, LastMode;
    CacheIsLastConsumed(run, actions, c, j, ExecAgent);
    DispatchStep(run[j], actions[j], c);
    assert run[j].dispatched + [] == run[j].dispatched;
  }

  /** The steps behind what a task has scaled or applied so far. */
  lemma {:induction false} StepsBehind(run: seq<World>, actions: seq<Action>, c: Config, j: nat, refreshing: bool)
    returns (i: nat, m: nat)
    requires IsRun(run, actions, c) && AtStart(run[0]) && j < |run|
    requires var p := Pending(run[j], refreshing); !p.Idle? && !p.Computed?
    ensures var p := Pending(run[j], refreshing);
      && i < j && actions[i] == ApplyStep(refreshing) && Pending(run[i], refreshing) == Computed(p.mode)
      && (!p.Scaled? ==> m < j && StateApplied(run, actions, i, m, refreshing, p.mode))
  {
    hide Enabled, Do, Pending;
    StartsIdle(run[0], refreshing);
    var w, a := run[j - 1], actions[j - 1];
    PendingStep(w, a, c, refreshing);
    if a == ApplyStep(refreshing) && Pending(w, refreshing).Computed? {
      i, m := j - 1, 0;
    } else {
      i, m := StepsBehind(run, actions, c, j - 1, refreshing);
      if a == ApplyStep(refreshing) && Pending(w, refreshing).Scaled? { m := j - 1; }
    }
  }

  lemma StartsIdle(w: World, refreshing: bool)
    requires AtStart(w)
    ensures Pending(w, refreshing).Idle?
  {
  }

  lemma PublishesApplied(w: World, a: Action, c: Config, e: Event)
    requires Enabled(w, a) && Emits(w, a, c) == [e] && e.SurvivalUpdated?
    ensures a.ApplyStep? && Pending(w, a.refreshing) == Applied(e.mode)
  {
    hide CanReceive, AfterGate, SizedOrder, Pending;
  }

  /** A survival state is published only after it was applied to the end: the survival loop that publishes it first
      scaled for it, and then froze or looked whether to thaw, before the event was on the log. */
  lemma PublishedIsApplied(run: seq<World>, actions: seq<Action>, c: Config, j: nat, k: nat)
    returns (i: nat, m: nat, refreshing: bool)
    requires IsRun(run, actions, c) && AtStart(run[0]) && j < |run|
    requires k < |run[j].log| && run[j].log[k].SurvivalUpdated?
    ensures m < j && StateApplied(run, actions, i, m, refreshing, run[j].log[k].mode) && |run[m + 1].log| <= k
  {
    hide Enabled, Do, Emits, Pending;
    var p := EmittedAt(run, actions, c, j, k);
    PublishesApplied(run[p], actions[p], c, run[j].log[k]);
    refreshing := actions[p].refreshing;
    i, m := StepsBehind(run, actions, c, p, refreshing);
    LogGrows(run, actions, c, m + 1, p);
  }

  lemma {:induction false} LastModeAt(log: seq<Event>) returns (k: nat)
    requires LastMode(log) != None
    ensures k < |log| && log[k].SurvivalUpdated? && Some(log[k].mode) == LastMode(log)
  {
    if log[|log| - 1].SurvivalUpdated? { k := |log| - 1; } else { k := LastModeAt(log[..|log| - 1]); }
  }

  /** So when a gate refuses for the sake of a halting state, the account was already frozen for that state. */
  lemma HaltSeenIsApplied(run: seq<World>, actions: seq<Action>, c: Config, j: nat, agent: Agent)
    returns (i: nat, m: nat, refreshing: bool)
    requires IsRun(run, actions, c) && AtStart(run[0]) && j < |run| && Caches(agent) && CacheHalts(run[j], agent)
    ensures m < j && HaltApplied(run, actions, i, m, refreshing, run[j].caches[agent]) && run[m + 1].risk.frozen
  {
    hide Enabled, Do, LastMode, Pending;
    CacheIsLastConsumed(run, actions, c, j, agent);
    var k := LastModeAt(run[j].log[..Cursor(run[j], agent)]);
    i, m, refreshing := PublishedIsApplied(run, actions, c, j, k);
    HaltAppliedEnds(run, actions, c, i, m, refreshing, run[j].caches[agent]);
  }

  // ---- What does not hold ----

  ghost predicate NoUnfreezeCommand(actions: seq<Action>) {
    forall k :: 0 <= k < |actions| ==> actions[k] != Publish(UnfreezeCommand)
  }

  function Last(run: seq<World>): World
    requires |run| > 0
  {
    run[|run| - 1]
  }

  /** A run, one action longer. */
  lemma Extend(run: seq<World>, actions: seq<Action>, c: Config, a: Action)
    returns (longer: seq<World>, more: seq<Action>)
    requires IsRun(run, actions, c) && Enabled(Last(run), a)
    ensures longer == run + [Do(Last(run), a, c)] && more == actions + [a] && IsRun(longer, more, c)
  {
    hide Enabled, Do;
    longer, more := run + [Do(Last(run), a, c)], actions + [a];
    forall k | 0 <= k < |more| ensures Enabled(longer[k], more[k]) && longer[k + 1] == Do(longer[k], more[k], c) {
      if k < |actions| { assert longer[k] == run[k] && longer[k + 1] == run[k + 1] && more[k] == actions[k]; }
    }
  }

  /** One of the first three steps of a task's apply. */
  lemma Apply(run: seq<World>, actions: seq<Action>, c: Config, refreshing: bool)
    returns (longer: seq<World>, more: seq<Action>)
    requires IsRun(run, actions, c)
    requires var p := Pending(Last(run), refreshing); p.Computed? || p.Scaled? || p.Thawing?
    ensures IsRun(longer, more, c) && |longer| == |run| + 1 && run == longer[..|run|]
    ensures more == actions + [ApplyStep(refreshing)]
    ensures var w, v, p := Last(run), Last(longer), Pending(Last(run), refreshing);
      && Pending(v, refreshing) == AfterStep(p, w.risk.frozen) && Pending(v, !refreshing) == Pending(w, !refreshing)
      && v.risk.frozen == (if p.Scaled? && p.mode.Halts() then true else if p.Thawing? then false else w.risk.frozen)
      && v.risk.sizeMultiplier == if p.Computed? then SurvivalScore.Multiplier(p.mode) else w.risk.sizeMultiplier
  {
    hide IsRun, OnRiskEvent, OnGate, AfterGate, OnCalculate, Outcome, OnBrainEvent, OnBrainDecision, OnManagerEvent,
         OnExecEvent, OnSurvivalEvent, OnControlEvent;
    longer, more := Extend(run, actions, c, ApplyStep(refreshing));
  }

  /** The refresh task computes a state. */
  lemma Compute(run: seq<World>, actions: seq<Action>, c: Config, mode: Mode)
    returns (longer: seq<World>, more: seq<Action>)
    requires IsRun(run, actions, c) && Last(run).refresh.Idle?
    ensures IsRun(longer, more, c) && |longer| == |run| + 1 && run == longer[..|run|]
    ensures more == actions + [RefreshCompute(mode)]
    ensures Last(longer).refresh == Computed(mode) && Last(longer).closing == Last(run).closing
    ensures Last(longer).risk == Last(run).risk
  {
    hide IsRun;
    longer, more := Extend(run, actions, c, RefreshCompute(mode));
  }

  /** An operator's freeze reaches the account through the control agent. */
  lemma OperatorFreezes(risk: Risk.RiskState, c: Config) returns (run: seq<World>, actions: seq<Action>)
    ensures IsRun(run, actions, c) && |run| == 3 && run[0] == Init(risk) && run[2].risk.frozen && run[2].refresh.Idle?
    ensures actions == [Publish(FreezeCommand), ControlReceive]
  {
    hide OnRiskEvent, OnGate, AfterGate, OnCalculate, Outcome, OnBrainEvent, OnBrainDecision, OnManagerEvent,
         OnExecEvent, OnSurvivalEvent, OnApply;
    var w1 := Do(Init(risk), Publish(FreezeCommand), c);
    assert w1.log == [FreezeCommand] && Cursor(w1, ControlAgent) == 0;
    var w2 := Do(w1, ControlReceive, c);
    run, actions := [Init(risk), w1, w2], [Publish(FreezeCommand), ControlReceive];
  }

  /** A close makes the event task compute Healthy. */
  lemma CloseComputesHealthy(risk: Risk.RiskState, c: Config) returns (run: seq<World>, actions: seq<Action>)
    ensures IsRun(run, actions, c) && |run| == 3 && run[0] == Init(risk)
    ensures Last(run).closing == Computed(SurvivalScore.Healthy) && Last(run).refresh.Idle? && Last(run).risk == risk
    ensures |actions| == 2 && NoUnfreezeCommand(actions)
  {
    hide OnRiskEvent, OnGate, AfterGate, OnCalculate, Outcome, OnBrainEvent, OnBrainDecision, OnManagerEvent,
         OnExecEvent, OnControlEvent, OnApply;
    var w1 := Do(Init(risk), Publish(Other), c);
    assert w1.log == [Other] && Cursor(w1, SurvivalEvents) == 0;
    var w2 := Do(w1, SurvivalReceive(Computed(SurvivalScore.Healthy)), c);
    run, actions := [Init(risk), w1, w2], [Publish(Other), SurvivalReceive(Computed(SurvivalScore.Healthy))];
  }

  /** An operator's freeze is not kept: from any account, a refresh that finds it healthy clears the flag although
      nobody asked for an unfreeze. (FrozenIff says exactly when it is kept.) */
  lemma OperatorFreezeNotKept(risk: Risk.RiskState, c: Config) returns (run: seq<World>, actions: seq<Action>)
    ensures IsRun(run, actions, c) && run[0] == Init(risk) && NoUnfreezeCommand(actions)
    ensures |run| == 7 && actions[0] == Publish(FreezeCommand) && run[2].risk.frozen && !run[6].risk.frozen
  {
    hide IsRun;
    run, actions := OperatorFreezes(risk, c);
    run, actions := Compute(run, actions, c, SurvivalScore.Healthy);
    run, actions := Apply(run, actions, c, true);
    run, actions := Apply(run, actions, c, true);
    run, actions := Apply(run, actions, c, true);
  }

  /** The event task has scaled for Healthy when the refresh task applies Frozen to its end. */
  lemma FrozenInBetween(risk: Risk.RiskState, c: Config) returns (run: seq<World>, actions: seq<Action>)
    ensures IsRun(run, actions, c) && run[0] == Init(risk) && NoUnfreezeCommand(actions) && |run| == 7
    ensures run[6].refresh == Applied(SurvivalScore.Frozen) && run[6].closing == Scaled(SurvivalScore.Healthy)
    ensures run[6].risk.frozen && run[6].risk.sizeMultiplier == 0.0
  {
    hide IsRun;
    run, actions := CloseComputesHealthy(risk, c);
    run, actions := Apply(run, actions, c, false);
    run, actions := Compute(run, actions, c, SurvivalScore.Frozen);
    run, actions := Apply(run, actions, c, true);
    run, actions := Apply(run, actions, c, true);
  }

  /** The two survival tasks race. The refresh task applies Frozen completely, yet a state the event task computed
      earlier and was still applying clears the flag afterwards, with no later state computed and no unfreeze
      command. */
  lemma StaleStateThaws(risk: Risk.RiskState, c: Config) returns (run: seq<World>, actions: seq<Action>)
    ensures IsRun(run, actions, c) && run[0] == Init(risk) && NoUnfreezeCommand(actions) && |run| == 9
    ensures run[6].refresh == Applied(SurvivalScore.Frozen) && run[6].risk.frozen && run[6].risk.sizeMultiplier == 0.0
    ensures actions[6] == ApplyStep(false) && actions[7] == ApplyStep(false) && !run[8].risk.frozen
  {
    hide Enabled, Do;
    run, actions := FrozenInBetween(risk, c);
    run, actions := Apply(run, actions, c, false);
    run, actions := Apply(run, actions, c, false);
  }

  /** The same race can leave the account frozen with a live multiplier: the case that HaltAppliedEnds names, in
      which the other task scales up between the two steps of a halting apply. */
  lemma FrozenWithLiveMultiplier(risk: Risk.RiskState, c: Config) returns (run: seq<World>, actions: seq<Action>)
    ensures IsRun(run, actions, c) && run[0] == Init(risk) && |run| == 7
    ensures HaltApplied(run, actions, 3, 5, true, SurvivalScore.Frozen)
    ensures run[6].risk.frozen && run[6].risk.sizeMultiplier == 1.0
  {
    hide IsRun;
    run, actions := CloseComputesHealthy(risk, c);
    run, actions := Compute(run, actions, c, SurvivalScore.Frozen);
    run, actions := Apply(run, actions, c, true);
    run, actions := Apply(run, actions, c, false);
    assert Pending(run[3], true) == Computed(SurvivalScore.Frozen);
    assert Pending(run[5], true) == Scaled(SurvivalScore.Frozen);
    run, actions := Apply(run, actions, c, true);
  }
}
