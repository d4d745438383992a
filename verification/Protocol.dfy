/** The capital-protection protocol as a transition system: one append-only bus log with a cursor per
    agent (src/agents/bus.rs), the shared risk manager, and the survival, risk, brain, manager, execution
    and control agents as interleaved steps. A step is what one task does between two points where
    another task can run: every lock acquisition of `apply_state` and of the risk agent's gate sequence
    is a step of its own. This module defines the steps and says what each does to every part of the
    world; Pipeline and Freeze prove what holds over whole runs. */
module Protocol {
  import opened Reals
  import opened Execution
  import opened Signals
  import Lessons
  import Memory
  import Policy
  import Quant
  import Risk
  import RiskGate
  import SurvivalScore

  /** What the broadcast channel keeps for a slow reader; a reader further behind gets an error and its loop ends. */
  const CAPACITY := 4096

  type Mode = SurvivalScore.SurvivalMode

  /** What the agents are configured with. */
  datatype Config = Config(honorSurvival: bool, gates: RiskGate.GateConfig, entry: RiskGate.EntryLimits)

  /** A signal the risk agent allowed: the size it gave, the entry price as it now stands, and, for the proofs,
      what the risk manager calculated for the signal and at which moment. */
  datatype Order = Order(signal: PreSignal, entry: real, size: real, base: real, sizedAt: nat) {
    function AsProposal(): Proposal {
      Proposal(signal.symbol, signal.side, entry, signal.stop, signal.target, size)
    }
  }

  /** `Other` is every event that none of the steps below reacts to, refusals and closes included: the effect of
      a close on the survival agent is the state it computes. */
  datatype Event =
    | PreSignalEmitted(signal: PreSignal, regime: string)
    | Allowed(order: Order)
    | BrainGo(order: Order)
    | Decided(order: Order, action: ManagerAction)
    | SurvivalUpdated(mode: Mode)
    | FreezeCommand
    | UnfreezeCommand
    | Other

  datatype Agent = RiskAgent | BrainAgent | ManagerAgent | ExecAgent | ControlAgent | SurvivalEvents

  /** Where a survival task stands between recomputing a state and publishing it. */
  datatype Applying = Idle | Computed(mode: Mode) | Scaled(mode: Mode) | Thawing(mode: Mode) | Applied(mode: Mode)

  /** How far the risk agent is with the signal it works on; `factor` is the policy's multiplier. */
  datatype RiskStage =
    | Waiting
    | Checking(signal: PreSignal, regime: string)
    | Consulted(signal: PreSignal, factor: real)
    | Admitted(signal: PreSignal, factor: real)
    | Validated(signal: PreSignal, factor: real)
    | Calculated(signal: PreSignal, factor: real, base: real, at: nat)

  /** What the learning policy holds when it is asked: no lessons yet, or those of one extraction. */
  datatype Consultation = Consultation(
    lessons: seq<Lessons.Lesson>,
    memory: Memory.PerformanceMemory,
    made: int,
    cfg: Lessons.LessonConfig,
    now: int)
  {
    ghost predicate Sound() { lessons == [] || Policy.Extracted(lessons, memory, made, cfg) }

    function Verdict(s: PreSignal, regime: string): Policy.PolicyVerdict {
      Policy.VerdictOf(Policy.Applying(lessons, s.strategy, regime, s.symbol, now))
    }
  }

  /** What the quant engine makes of the signal: its VaR veto, and the factors of its multiplier. */
  datatype QuantReply = QuantReply(rejected: bool, enabled: bool, factors: Quant.Factors) {
    function Answer(): RiskGate.QuantAnswer {
      RiskGate.QuantAnswer(enabled && rejected, Quant.SizeMultiplier(enabled, factors))
    }
  }

  function AnswerOf(q: Option<QuantReply>): Option<RiskGate.QuantAnswer> {
    if q == None then None else Some(q.value.Answer())
  }

  /** An entry sent to the exchange: the order, and the manager's answer to it. */
  datatype Dispatch = Dispatch(at: nat, order: Order, answer: ManagerAction) {
    function Request(): OrderRequest { BuildEntryRequest(ManagerVerdict(order.AsProposal(), answer), "") }
  }

  datatype World = World(
    clock: nat,
    log: seq<Event>,
    cursors: map<Agent, nat>,
    ended: set<Agent>,
    risk: Risk.RiskState,
    caches: map<Agent, Mode>,
    refresh: Applying,
    closing: Applying,
    stage: RiskStage,
    brain: Option<Order>,
    manager: Option<Order>,
    executing: bool,
    dispatched: seq<Dispatch>)

  datatype Action =
    | Publish(event: Event)
    | Lag(agent: Agent)
    | RiskReceive
    | RiskConsult(consultation: Consultation)
    | RiskAdmit
    | RiskValidate(spread: Option<real>, rate: real)
    | RiskCalculate
    | RiskPublish(quant: Option<QuantReply>)
    | BrainReceive
    | BrainDecide(go: bool, entry: real)
    | ManagerReceive
    | ManagerDecide(action: ManagerAction)
    | ExecReceive
    | ExecDone
    | ControlReceive
    | SurvivalReceive(computed: Applying)
    | RefreshCompute(mode: Mode)
    | ApplyStep(refreshing: bool)
    | Account(op: Risk.RiskOp)

  function Cursor(w: World, a: Agent): nat { if a in w.cursors then w.cursors[a] else 0 }

  /** The agent's loop is running and its next event is still in the channel. */
  predicate CanReceive(w: World, a: Agent) {
    a !in w.ended && Cursor(w, a) < |w.log| <= Cursor(w, a) + CAPACITY
  }

  function NextEvent(w: World, a: Agent): Event
    requires CanReceive(w, a)
  {
    w.log[Cursor(w, a)]
  }

  predicate CacheHalts(w: World, a: Agent) { a in w.caches && w.caches[a].Halts() }

  /** What the manager's reply can be after its clamps. */
  predicate ManagerAnswer(a: ManagerAction) {
    a.Adjust? ==> 0.1 <= a.sizeMultiplier <= 1.5 && -50.0 <= a.slOffsetBps <= 50.0 && -50.0 <= a.tpOffsetBps <= 50.0
  }

  /** The manager's reply after its clamps; missing fields are neutral. */
  function ManagerReply(multiplier: Option<real>, slOffset: Option<real>, tpOffset: Option<real>): (a: ManagerAction)
    ensures a.Adjust? && ManagerAnswer(a)
    ensures multiplier == slOffset == tpOffset == None ==> a == Adjust(1.0, 0.0, 0.0)
    ensures multiplier != None && 0.1 <= multiplier.value <= 1.5 ==> a.sizeMultiplier == multiplier.value
    ensures slOffset != None && Abs(slOffset.value) <= 50.0 ==> a.slOffsetBps == slOffset.value
    ensures tpOffset != None && Abs(tpOffset.value) <= 50.0 ==> a.tpOffsetBps == tpOffset.value
  {
    Adjust(Clamp(if multiplier == None then 1.0 else multiplier.value, 0.1, 1.5),
           Clamp(if slOffset == None then 0.0 else slOffset.value, -50.0, 50.0),
           Clamp(if tpOffset == None then 0.0 else tpOffset.value, -50.0, 50.0))
  }

  /** The tests between a verdict and its dispatch, made without an await in between. */
  predicate Passes(w: World, o: Order, action: ManagerAction, c: Config) {
    && !action.Veto? && o.entry > 0.0 && o.size > 0.0
    && !(c.honorSurvival && CacheHalts(w, ExecAgent))
    && !w.risk.IsBlocked()
  }

  function Pending(w: World, refreshing: bool): Applying { if refreshing then w.refresh else w.closing }

  /** The other tasks' effects on the account that leave the freeze and the multiplier alone. */
  predicate AccountOp(op: Risk.RiskOp) { op.Opened? || op.Closed? || op.SetEquity? || op.ResetDaily? }

  ghost predicate Enabled(w: World, a: Action) {
    match a
    case Publish(e) => e.PreSignalEmitted? || e.FreezeCommand? || e.UnfreezeCommand? || e.Other?
    case Lag(agent) => agent !in w.ended && |w.log| > Cursor(w, agent) + CAPACITY
    case RiskReceive => w.stage.Waiting? && CanReceive(w, RiskAgent)
    case RiskConsult(x) => w.stage.Checking? && x.Sound()
    case RiskAdmit => w.stage.Consulted?
    case RiskValidate(_, _) => w.stage.Admitted?
    case RiskCalculate => w.stage.Validated?
    case RiskPublish(_) => w.stage.Calculated?
    case BrainReceive => w.brain == None && CanReceive(w, BrainAgent)
    case BrainDecide(_, _) => w.brain != None
    case ManagerReceive => w.manager == None && CanReceive(w, ManagerAgent)
    case ManagerDecide(action) => w.manager != None && ManagerAnswer(action)
    case ExecReceive => !w.executing && CanReceive(w, ExecAgent)
    case ExecDone => w.executing
    case ControlReceive => CanReceive(w, ControlAgent)
    case SurvivalReceive(next) => w.closing.Idle? && CanReceive(w, SurvivalEvents) && (next.Idle? || next.Computed?)
    case RefreshCompute(_) => w.refresh.Idle?
    case ApplyStep(refreshing) => !Pending(w, refreshing).Idle?
    case Account(op) => AccountOp(op)
  }

  function Append(w: World, e: Event): World { w.(log := w.log + [e]) }

  function Advance(w: World, a: Agent): World { w.(cursors := w.cursors[a := Cursor(w, a) + 1]) }

  function Remember(w: World, a: Agent, e: Event): World {
    if e.SurvivalUpdated? then w.(caches := w.caches[a := e.mode]) else w
  }

  /** The survival gate: a signal is taken up, or refused while the cached state is a halting one. */
  function OnRiskEvent(w: World, e: Event): (r: World)
    ensures r == w.(stage := r.stage, caches := r.caches, log := r.log)
    ensures r.caches == Remember(w, RiskAgent, e).caches
  {
    if e.PreSignalEmitted? then
      if CacheHalts(w, RiskAgent) then Append(w, Other) else w.(stage := Checking(e.signal, e.regime))
    else Remember(w, RiskAgent, e)
  }

  /** Where the gate that the risk agent is at sends the signal; Waiting is a refusal. */
  function AfterGate(w: World, a: Action, c: Config): RiskStage
    requires Enabled(w, a)
  {
    match a
    case RiskConsult(x) =>
      var v := x.Verdict(w.stage.signal, w.stage.regime);
      if RiskGate.PolicyAdmits(c.gates, w.stage.signal, v) then Consulted(w.stage.signal, v.sizeMultiplier) else Waiting
    case RiskAdmit =>
      if w.risk.CanOpen() == None then Admitted(w.stage.signal, w.stage.factor) else Waiting
    case RiskValidate(spread, rate) =>
      var s := w.stage.signal;
      if RiskGate.ValidSignal(w.risk, c.entry, c.gates, s, spread) && !RiskGate.FundingBlocks(c.gates, s.side, rate)
      then Validated(s, w.stage.factor) else Waiting
    case _ => Waiting
  }

  /** A refusal publishes a blocked verdict. */
  function OnGate(w: World, next: RiskStage): (r: World)
    ensures r == w.(stage := next, log := r.log)
  {
    var v := w.(stage := next);
    if next.Waiting? then Append(v, Other) else v
  }

  function SizedOrder(st: RiskStage, q: Option<QuantReply>): Order
    requires st.Calculated?
  {
    Order(st.signal, st.signal.entry, RiskGate.Composed(st.base, st.factor, AnswerOf(q)), st.base, st.at)
  }

  /** The verdict on a calculated size. */
  function Outcome(st: RiskStage, q: Option<QuantReply>): Event
    requires st.Calculated?
  {
    var o := SizedOrder(st, q);
    if RiskGate.QuantRejects(AnswerOf(q)) || o.size <= 0.0 then Other else Allowed(o)
  }

  function OnCalculate(w: World): (r: World)
    requires w.stage.Validated?
    ensures r == w.(stage := r.stage)
  {
    var s := w.stage.signal;
    w.(stage := Calculated(s, w.stage.factor, w.risk.CalculateSize(s.entry, s.stop), w.clock))
  }

  function OnBrainEvent(w: World, e: Event): (r: World)
    ensures r == w.(brain := r.brain)
  {
    if e.Allowed? then w.(brain := Some(e.order)) else w
  }

  /** The brain's own entry price, when it gives a positive one. */
  function Repriced(o: Order, entry: real): Order {
    o.(entry := if entry > 0.0 then entry else o.entry)
  }

  function OnBrainDecision(w: World, o: Order, go: bool, entry: real): (r: World)
    ensures r == w.(brain := r.brain, log := r.log)
  {
    var v := w.(brain := None);
    if go then Append(v, BrainGo(Repriced(o, entry))) else v
  }

  function OnManagerEvent(w: World, e: Event): (r: World)
    ensures r == w.(log := r.log, manager := r.manager, caches := r.caches)
    ensures r.caches == Remember(w, ManagerAgent, e).caches
  {
    if e.BrainGo? then
      if CacheHalts(w, ManagerAgent) then Append(w, Decided(e.order, Veto)) else w.(manager := Some(e.order))
    else Remember(w, ManagerAgent, e)
  }

  function OnExecEvent(w: World, e: Event, c: Config): (r: World)
    ensures r == w.(executing := r.executing, dispatched := r.dispatched, caches := r.caches)
    ensures r.caches == Remember(w, ExecAgent, e).caches
  {
    if e.Decided? then
      if Passes(w, e.order, e.action, c)
      then w.(executing := true, dispatched := w.dispatched + [Dispatch(w.clock, e.order, e.action)])
      else w
    else Remember(w, ExecAgent, e)
  }

  function OnControlEvent(w: World, e: Event): (r: World)
    ensures r == w.(risk := r.risk)
  {
    if e.FreezeCommand? then w.(risk := Risk.Apply(w.risk, Risk.Freeze))
    else if e.UnfreezeCommand? then w.(risk := Risk.Apply(w.risk, Risk.Unfreeze))
    else w
  }

  /** The event task reacts to an unfreeze command itself, and to a close by recomputing. */
  function OnSurvivalEvent(w: World, e: Event, next: Applying): (r: World)
    ensures r == w.(risk := r.risk, closing := r.closing)
  {
    if e.UnfreezeCommand? then w.(risk := Risk.Apply(w.risk, Risk.Unfreeze))
    else if e.Other? then w.(closing := next)
    else w
  }

  function SetPending(w: World, refreshing: bool, p: Applying): World {
    if refreshing then w.(refresh := p) else w.(closing := p)
  }

  /** One step of apply_state and of the publication after it. */
  function OnApply(w: World, refreshing: bool): (r: World)
    ensures r == w.(refresh := r.refresh, closing := r.closing, risk := r.risk, log := r.log)
  {
    match Pending(w, refreshing)
    case Idle => w
    case Computed(m) =>
      var scaled := Risk.Apply(w.risk, Risk.SetMultiplier(SurvivalScore.Multiplier(m)));
      SetPending(w, refreshing, Scaled(m)).(risk := scaled)
    case Scaled(m) =>
      if m.Halts() then SetPending(w, refreshing, Applied(m)).(risk := Risk.Apply(w.risk, Risk.Freeze))
      else SetPending(w, refreshing, if w.risk.frozen then Thawing(m) else Applied(m))
    case Thawing(m) => SetPending(w, refreshing, Applied(m)).(risk := Risk.Apply(w.risk, Risk.Unfreeze))
    case Applied(m) => Append(SetPending(w, refreshing, Idle), Event.SurvivalUpdated(m))
  }

  function Effect(w: World, a: Action, c: Config): World
    requires Enabled(w, a)
  {
    match a
    case Publish(e) => Append(w, e)
    case Lag(agent) => w.(ended := w.ended + {agent})
    case RiskReceive => OnRiskEvent(Advance(w, RiskAgent), NextEvent(w, RiskAgent))
    case RiskConsult(_) => OnGate(w, AfterGate(w, a, c))
    case RiskAdmit => OnGate(w, AfterGate(w, a, c))
    case RiskValidate(_, _) => OnGate(w, AfterGate(w, a, c))
    case RiskCalculate => OnCalculate(w)
    case RiskPublish(q) => Append(w.(stage := Waiting), Outcome(w.stage, q))
    case BrainReceive => OnBrainEvent(Advance(w, BrainAgent), NextEvent(w, BrainAgent))
    case BrainDecide(go, entry) => OnBrainDecision(w, w.brain.value, go, entry)
    case ManagerReceive => OnManagerEvent(Advance(w, ManagerAgent), NextEvent(w, ManagerAgent))
    case ManagerDecide(action) => Append(w.(manager := None), Decided(w.manager.value, action))
    case ExecReceive => OnExecEvent(Advance(w, ExecAgent), NextEvent(w, ExecAgent), c)
    case ExecDone => w.(executing := false)
    case ControlReceive => OnControlEvent(Advance(w, ControlAgent), NextEvent(w, ControlAgent))
    case SurvivalReceive(next) => OnSurvivalEvent(Advance(w, SurvivalEvents), NextEvent(w, SurvivalEvents), next)
    case RefreshCompute(m) => w.(refresh := Computed(m))
    case ApplyStep(refreshing) => OnApply(w, refreshing)
    case Account(op) => w.(risk := Risk.Apply(w.risk, op))
  }

  function Do(w: World, a: Action, c: Config): World
    requires Enabled(w, a)
  {
    var v := Effect(w, a, c);
    v.(clock := w.clock + 1)
  }

  /** A run: a world for every moment, each obtained from the one before by an enabled action. */
  ghost predicate IsRun(run: seq<World>, actions: seq<Action>, c: Config) {
    && |run| == |actions| + 1
    && forall k :: 0 <= k < |actions| ==> Enabled(run[k], actions[k]) && run[k + 1] == Do(run[k], actions[k], c)
  }

  function Init(risk: Risk.RiskState): World {
    World(0, [], map[], {}, risk, map[], Idle, Idle, Waiting, None, None, false, [])
  }

  ghost predicate AtStart(w: World) { w == Init(w.risk) }

  lemma {:induction false} ClockIsIndex(run: seq<World>, actions: seq<Action>, c: Config, j: nat)
    requires IsRun(run, actions, c) && AtStart(run[0]) && j < |run|
    ensures run[j].clock == j
  {
    hide Enabled, Effect;
    if j > 0 { ClockIsIndex(run, actions, c, j - 1); }
  }

  // ---- What one step does to each part of the world ----

  /** The steps that clear the frozen flag. */
  predicate Unfreezes(w: World, a: Action) {
    match a
    case ControlReceive => CanReceive(w, ControlAgent) && NextEvent(w, ControlAgent).UnfreezeCommand?
    case SurvivalReceive(_) => CanReceive(w, SurvivalEvents) && NextEvent(w, SurvivalEvents).UnfreezeCommand?
    case ApplyStep(refreshing) => Pending(w, refreshing).Thawing?
    case _ => false
  }

  /** The steps that set it. */
  predicate Freezes(w: World, a: Action) {
    match a
    case ControlReceive => CanReceive(w, ControlAgent) && NextEvent(w, ControlAgent).FreezeCommand?
    case ApplyStep(refreshing) => Pending(w, refreshing).Scaled? && Pending(w, refreshing).mode.Halts()
    case _ => false
  }

  lemma FlagsAfter(s: Risk.RiskState)
    ensures forall op {:trigger Risk.Apply(s, op)} ::
              var t := Risk.Apply(s, op);
              && t.frozen == (op.Freeze? || (s.frozen && !op.Unfreeze?))
              && t.sizeMultiplier == if op.SetMultiplier? then Clamp(op.m, 0.0, 2.0) else s.sizeMultiplier
  {
    hide Risk.RiskState.LimitMet;
  }

  lemma FrozenStep(w: World, a: Action, c: Config)
    requires Enabled(w, a)
    ensures Do(w, a, c).risk.frozen <==> Freezes(w, a) || (w.risk.frozen && !Unfreezes(w, a))
  {
    FlagsAfter(w.risk);
    hide OnRiskEvent, OnGate, AfterGate, OnCalculate, Outcome, OnBrainEvent, OnBrainDecision, OnManagerEvent,
         OnExecEvent, Risk.RiskState.CanOpen, Risk.Apply, SurvivalScore.Multiplier;
  }

  /** Whoever reads an operator's command obeys it: the control agent freezes and unfreezes, and the survival event
      task unfreezes too. */
  lemma CommandsObeyed(w: World, a: Action, c: Config)
    requires Enabled(w, a)
    ensures a.ControlReceive? ==>
              var e := w.log[Cursor(w, ControlAgent)];
              (e.FreezeCommand? ==> Do(w, a, c).risk.frozen) && (e.UnfreezeCommand? ==> !Do(w, a, c).risk.frozen)
    ensures a.SurvivalReceive? ==>
              w.log[Cursor(w, SurvivalEvents)].UnfreezeCommand? ==> !Do(w, a, c).risk.frozen
  {
    FrozenStep(w, a, c);
    hide Do;
  }

  /** The steps that set the size multiplier. */
  predicate Scales(w: World, a: Action) { a.ApplyStep? && Pending(w, a.refreshing).Computed? }

  lemma MultiplierStep(w: World, a: Action, c: Config)
    requires Enabled(w, a)
    ensures Do(w, a, c).risk.sizeMultiplier
         == if Scales(w, a) then SurvivalScore.Multiplier(Pending(w, a.refreshing).mode) else w.risk.sizeMultiplier
  {
    FlagsAfter(w.risk);
    hide OnRiskEvent, OnGate, AfterGate, OnCalculate, Outcome, OnBrainEvent, OnBrainDecision, OnManagerEvent,
         OnExecEvent, Risk.RiskState.CanOpen, Risk.Apply, CanReceive;
  }

  /** What remains of a task's apply after one of its first three steps. */
  function AfterStep(p: Applying, frozen: bool): Applying {
    match p
    case Computed(m) => Scaled(m)
    case Scaled(m) => if !m.Halts() && frozen then Thawing(m) else Applied(m)
    case Thawing(m) => Applied(m)
    case _ => Idle
  }

  function NextPending(w: World, a: Action, refreshing: bool): Applying
    requires Enabled(w, a)
  {
    match a
    case ApplyStep(r) =>
      if r == refreshing then AfterStep(Pending(w, r), w.risk.frozen) else Pending(w, refreshing)
    case RefreshCompute(m) => if refreshing then Computed(m) else Pending(w, refreshing)
    case SurvivalReceive(next) =>
      if !refreshing && NextEvent(w, SurvivalEvents).Other? then next else Pending(w, refreshing)
    case _ => Pending(w, refreshing)
  }

  lemma PendingStep(w: World, a: Action, c: Config, refreshing: bool)
    requires Enabled(w, a)
    ensures Pending(Do(w, a, c), refreshing) == NextPending(w, a, refreshing)
    ensures a.SurvivalReceive? ==> a.computed.Idle? || a.computed.Computed?
  {
    hide OnRiskEvent, OnGate, AfterGate, OnCalculate, Outcome, OnBrainEvent, OnBrainDecision, OnManagerEvent,
         OnExecEvent, OnControlEvent, Risk.RiskState.CanOpen, Risk.Apply, CanReceive;
  }

  /** An entry is dispatched exactly where the execution agent reads a verdict that passes its tests. */
  lemma DispatchStep(w: World, a: Action, c: Config)
    requires Enabled(w, a)
    ensures Do(w, a, c).dispatched == w.dispatched + Dispatches(w, a, c)
  {
    hide OnRiskEvent, OnGate, AfterGate, OnCalculate, Outcome, OnBrainEvent, OnBrainDecision, OnManagerEvent,
         OnControlEvent, OnSurvivalEvent, OnApply, Risk.RiskState.CanOpen, Risk.Apply;
    assert w.dispatched + [] == w.dispatched;
  }

  function Dispatches(w: World, a: Action, c: Config): (ds: seq<Dispatch>)
    requires Enabled(w, a)
    ensures |ds| <= 1
  {
    if a.ExecReceive? then
      match NextEvent(w, ExecAgent)
      case Decided(o, answer) => (if Passes(w, o, answer, c) then [Dispatch(w.clock, o, answer)] else [])
      case _ => []
    else []
  }

  /** What an action adds to the log. */
  function Emits(w: World, a: Action, c: Config): (es: seq<Event>)
    requires Enabled(w, a)
    ensures |es| <= 1
  {
    match a
    case Publish(e) => [e]
    case RiskReceive =>
      if NextEvent(w, RiskAgent).PreSignalEmitted? && CacheHalts(w, RiskAgent) then [Other] else []
    case RiskConsult(_) => if AfterGate(w, a, c).Waiting? then [Other] else []
    case RiskAdmit => if AfterGate(w, a, c).Waiting? then [Other] else []
    case RiskValidate(_, _) => if AfterGate(w, a, c).Waiting? then [Other] else []
    case RiskPublish(q) => [Outcome(w.stage, q)]
    case BrainDecide(go, entry) => if go then [BrainGo(Repriced(w.brain.value, entry))] else []
    case ManagerReceive =>
      var e := NextEvent(w, ManagerAgent);
      if e.BrainGo? && CacheHalts(w, ManagerAgent) then [Decided(e.order, Veto)] else []
    case ManagerDecide(action) => [Decided(w.manager.value, action)]
    case ApplyStep(refreshing) =>
      if Pending(w, refreshing).Applied? then [Event.SurvivalUpdated(Pending(w, refreshing).mode)] else []
    case _ => []
  }

  lemma LogStep(w: World, a: Action, c: Config)
    requires Enabled(w, a)
    ensures Do(w, a, c).log == w.log + Emits(w, a, c)
  {
    hide AfterGate, Outcome, OnCalculate, OnBrainEvent, OnExecEvent, OnControlEvent, OnSurvivalEvent,
         Risk.RiskState.CanOpen, Risk.Apply, SizedOrder, CanReceive, Repriced;
    assert w.log + [] == w.log;
  }

  function NextBrain(w: World, a: Action): Option<Order>
    requires Enabled(w, a)
  {
    match a
    case BrainReceive => (match NextEvent(w, BrainAgent) case Allowed(o) => Some(o) case _ => None)
    case BrainDecide(_, _) => None
    case _ => w.brain
  }

  function NextManager(w: World, a: Action): Option<Order>
    requires Enabled(w, a)
  {
    match a
    case ManagerReceive =>
      (match NextEvent(w, ManagerAgent)
       case BrainGo(o) => (if CacheHalts(w, ManagerAgent) then None else Some(o))
       case _ => None)
    case ManagerDecide(_) => None
    case _ => w.manager
  }

  lemma SlotStep(w: World, a: Action, c: Config)
    requires Enabled(w, a)
    ensures Do(w, a, c).brain == NextBrain(w, a) && Do(w, a, c).manager == NextManager(w, a)
  {
    hide OnRiskEvent, OnGate, AfterGate, OnCalculate, Outcome, OnExecEvent, OnControlEvent, OnSurvivalEvent, OnApply,
         Risk.RiskState.CanOpen, Risk.Apply, Repriced, CanReceive;
  }

  function NextStage(w: World, a: Action, c: Config): RiskStage
    requires Enabled(w, a)
  {
    match a
    case RiskReceive =>
      (match NextEvent(w, RiskAgent)
       case PreSignalEmitted(s, regime) => (if CacheHalts(w, RiskAgent) then Waiting else Checking(s, regime))
       case _ => Waiting)
    case RiskConsult(_) => AfterGate(w, a, c)
    case RiskAdmit => AfterGate(w, a, c)
    case RiskValidate(_, _) => AfterGate(w, a, c)
    case RiskCalculate => OnCalculate(w).stage
    case RiskPublish(_) => Waiting
    case _ => w.stage
  }

  lemma StageStep(w: World, a: Action, c: Config)
    requires Enabled(w, a)
    ensures Do(w, a, c).stage == NextStage(w, a, c)
  {
    hide AfterGate, Outcome, OnCalculate, OnBrainEvent, OnBrainDecision, OnManagerEvent, OnExecEvent, OnControlEvent,
         OnSurvivalEvent, OnApply, Risk.RiskState.CanOpen, Risk.Apply, SizedOrder, CanReceive;
  }

  /** How far an action moves an agent's cursor. */
  function Reads(a: Action, agent: Agent): (n: nat)
    ensures n <= 1
  {
    match a
    case RiskReceive => (if agent.RiskAgent? then 1 else 0)
    case BrainReceive => (if agent.BrainAgent? then 1 else 0)
    case ManagerReceive => (if agent.ManagerAgent? then 1 else 0)
    case ExecReceive => (if agent.ExecAgent? then 1 else 0)
    case ControlReceive => (if agent.ControlAgent? then 1 else 0)
    case SurvivalReceive(_) => (if agent.SurvivalEvents? then 1 else 0)
    case _ => 0
  }

  lemma CursorStep(w: World, a: Action, c: Config, agent: Agent)
    requires Enabled(w, a)
    ensures Cursor(Do(w, a, c), agent) == Cursor(w, agent) + Reads(a, agent)
    ensures Reads(a, agent) > 0 ==> CanReceive(w, agent)
  {
    hide OnRiskEvent, OnGate, AfterGate, OnCalculate, Outcome, OnBrainEvent, OnBrainDecision, OnManagerEvent,
         OnExecEvent, OnControlEvent, OnSurvivalEvent, OnApply, Risk.RiskState.CanOpen, Risk.Apply, CanReceive,
         AccountOp, Remember, CacheHalts, Passes, ManagerAnswer, Consultation.Sound, Consultation.Verdict, NextEvent;
  }

  function CacheOf(w: World, a: Agent): Option<Mode> { if a in w.caches then Some(w.caches[a]) else None }

  predicate Caches(a: Agent) { a.RiskAgent? || a.ManagerAgent? || a.ExecAgent? }

  lemma CacheStep(w: World, a: Action, c: Config, agent: Agent)
    requires Enabled(w, a) && Caches(agent)
    ensures CacheOf(Do(w, a, c), agent)
         == if Reads(a, agent) > 0 && CanReceive(w, agent) && NextEvent(w, agent).SurvivalUpdated?
            then Some(NextEvent(w, agent).mode) else CacheOf(w, agent)
  {
    hide OnRiskEvent, OnGate, AfterGate, OnCalculate, Outcome, OnBrainEvent, OnBrainDecision, OnManagerEvent,
         OnExecEvent, OnControlEvent, OnSurvivalEvent, OnApply, Risk.RiskState.CanOpen, Risk.Apply;
  }
}
