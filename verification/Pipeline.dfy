/** What an order has behind it (src/agents/risk.rs, brain.rs, manager.rs, execution.rs): the gates its signal
    passed, the agents it went through, the request it ends in, and what a zero multiplier leaves of the pipeline. */
module Pipeline {
  import opened Counting
  import opened Execution
  import opened Protocol
  import opened Reals
  import opened Sight
  import opened Signals
  import Lessons
  import Memory
  import Policy
  import Positions
  import Quant
  import Risk
  import RiskGate
  import SurvivalScore

  // ---- The gates behind a signal ----

  /** The moments at which one signal passed the risk agent's gates and its order the agents after it, and what the
      policy gave it. */
  datatype Trail = Trail(
    regime: string,
    factor: real,
    taken: nat,
    consulted: nat,
    admitted: nat,
    validated: nat,
    calculated: nat,
    published: nat,
    heard: nat,
    sent: nat,
    reviewed: nat,
    answered: nat)

  const NOWHERE := Trail("", 0.0, 0, 0, 0, 0, 0, 0, 0, 0, 0, 0)

  /** Step i took the signal up: the last survival state the risk agent had read was not a halting one. */
  ghost predicate TakenUp(run: seq<World>, actions: seq<Action>, i: nat, s: PreSignal, regime: string) {
    && i < |actions| < |run| && actions[i].RiskReceive? && CanReceive(run[i], RiskAgent)
    && NextEvent(run[i], RiskAgent) == PreSignalEmitted(s, regime) && SeesNoHalt(run[i], RiskAgent)
  }

  /** Step i asked the learning policy, which allowed the signal, whose confidence reaches the threshold the policy
      names, and gave it its factor. */
  ghost predicate ConsultedAt(run: seq<World>, actions: seq<Action>, c: Config, i: nat, s: PreSignal, regime: string,
                              factor: real)
  {
    && i < |actions| < |run| && actions[i].RiskConsult? && actions[i].consultation.Sound()
    && var v := actions[i].consultation.Verdict(s, regime);
       v.allowed && s.taConfidence >= RiskGate.TaThreshold(c.gates, v.taThresholdDelta) && factor == v.sizeMultiplier
  }

  /** Step i asked the risk manager, which was neither tripped nor frozen, had a free slot and met no limit. */
  ghost predicate AdmittedAt(run: seq<World>, actions: seq<Action>, i: nat) {
    i < |actions| < |run| && actions[i].RiskAdmit? && run[i].risk.CanOpen() == None
  }

  /** Step i validated the signal: reward, spread, edge and funding rate. */
  ghost predicate ValidatedAt(run: seq<World>, actions: seq<Action>, c: Config, i: nat, s: PreSignal) {
    && i < |actions| < |run| && actions[i].RiskValidate?
    && RiskGate.ValidSignal(run[i].risk, c.entry, c.gates, s, actions[i].spread)
    && !RiskGate.FundingBlocks(c.gates, s.side, actions[i].rate)
  }

  /** Step i calculated the base size from the account as it then stood. */
  ghost predicate CalculatedAt(run: seq<World>, actions: seq<Action>, i: nat, s: PreSignal, base: real) {
    i < |actions| < |run| && actions[i].RiskCalculate? && base == run[i].risk.CalculateSize(s.entry, s.stop)
  }

  ghost predicate PastSurvival(run: seq<World>, actions: seq<Action>, t: Trail, s: PreSignal, j: nat) {
    t.taken < j && TakenUp(run, actions, t.taken, s, t.regime)
  }

  ghost predicate PastPolicy(run: seq<World>, actions: seq<Action>, c: Config, t: Trail, s: PreSignal, j: nat) {
    && PastSurvival(run, actions, t, s, t.consulted)
    && t.consulted < j && ConsultedAt(run, actions, c, t.consulted, s, t.regime, t.factor)
  }

  ghost predicate PastAccount(run: seq<World>, actions: seq<Action>, c: Config, t: Trail, s: PreSignal, j: nat) {
    PastPolicy(run, actions, c, t, s, t.admitted) && t.admitted < j && AdmittedAt(run, actions, t.admitted)
  }

  ghost predicate PastValidation(run: seq<World>, actions: seq<Action>, c: Config, t: Trail, s: PreSignal, j: nat) {
    PastAccount(run, actions, c, t, s, t.validated) && t.validated < j && ValidatedAt(run, actions, c, t.validated, s)
  }

  ghost predicate PastCalculation(run: seq<World>, actions: seq<Action>, c: Config, t: Trail, s: PreSignal, base: real,
                                  j: nat)
  {
    && PastValidation(run, actions, c, t, s, t.calculated)
    && t.calculated < j && CalculatedAt(run, actions, t.calculated, s, base)
  }

  /** The trail leads to this stage: every gate before it was passed, one after the other, before moment j. */
  ghost predicate Behind(run: seq<World>, actions: seq<Action>, c: Config, t: Trail, st: RiskStage, j: nat) {
    match st
    case Waiting => true
    case Checking(s, regime) => t.regime == regime && PastSurvival(run, actions, t, s, j)
    case Consulted(s, factor) => t.factor == factor && PastPolicy(run, actions, c, t, s, j)
    case Admitted(s, factor) => t.factor == factor && PastAccount(run, actions, c, t, s, j)
    case Validated(s, factor) => t.factor == factor && PastValidation(run, actions, c, t, s, j)
    case Calculated(s, factor, base, at) =>
      t.factor == factor && t.calculated == at && PastCalculation(run, actions, c, t, s, base, j)
  }

  /** Only the last gate of a trail is compared with the present, so a trail stays one as time goes on. */
  lemma BehindLater(run: seq<World>, actions: seq<Action>, c: Config, t: Trail, st: RiskStage, j: nat)
    requires j > 0 && Behind(run, actions, c, t, st, j - 1)
    ensures Behind(run, actions, c, t, st, j)
  {
    hide TakenUp, ConsultedAt, AdmittedAt, ValidatedAt, CalculatedAt;
  }

  /** A stage that one step leads to has a trail if the stage before it had one. */
  lemma TrailStep(run: seq<World>, actions: seq<Action>, c: Config, j: nat, t: Trail) returns (u: Trail)
    requires 0 < j <= |actions| < |run| && Enabled(run[j - 1], actions[j - 1]) && run[j - 1].clock == j - 1
    requires SeesNoHalt(run[j - 1], RiskAgent) <==> !CacheHalts(run[j - 1], RiskAgent)
    requires Behind(run, actions, c, t, run[j - 1].stage, j - 1)
    ensures Behind(run, actions, c, u, NextStage(run[j - 1], actions[j - 1], c), j)
  {
    var w, a, i := run[j - 1], actions[j - 1], j - 1;
    hide Risk.RiskState.CanOpen, Risk.RiskState.CalculateSize, RiskGate.ValidSignal, RiskGate.FundingBlocks,
         RiskGate.TaThreshold, Consultation.Sound, Consultation.Verdict, CanReceive, SeesNoHalt, CacheHalts;
    u := t;
    match a {
      case RiskReceive =>
        ReceivesAs(w, a);
        if NextStage(w, a, c).Checking? { u := t.(regime := NextStage(w, a, c).regime, taken := i); }
      case RiskConsult(_) =>
        if NextStage(w, a, c).Consulted? { u := t.(factor := NextStage(w, a, c).factor, consulted := i); }
      case RiskAdmit => u := t.(admitted := i);
      case RiskValidate(_, _) => u := t.(validated := i);
      case RiskCalculate => u := t.(calculated := i);
      case RiskPublish(_) =>
      case _ => BehindLater(run, actions, c, t, w.stage, j);
    }
  }

  lemma ReceivesAs(w: World, a: Action)
    requires Enabled(w, a)
    ensures a.RiskReceive? ==> CanReceive(w, RiskAgent)
    ensures a.BrainReceive? ==> CanReceive(w, BrainAgent)
    ensures a.ManagerReceive? ==> CanReceive(w, ManagerAgent)
    ensures a.ExecReceive? ==> CanReceive(w, ExecAgent)
  {
  }

  /** Behind every signal the risk agent works on stand the gates it has passed. */
  lemma {:induction false} StageTrail(run: seq<World>, actions: seq<Action>, c: Config, j: nat) returns (t: Trail)
    requires IsRun(run, actions, c) && AtStart(run[0]) && j < |run|
    ensures Behind(run, actions, c, t, run[j].stage, j)
  {
    hide Enabled, Do, NextStage, Behind, SeesNoHalt, CacheHalts;
    if j == 0 {
      t := NOWHERE;
      WaitingHasTrail(run, actions, c, t);
    } else {
      t := StageTrail(run, actions, c, j - 1);
      ClockIsIndex(run, actions, c, j - 1);
      StageStep(run[j - 1], actions[j - 1], c);
      GateSees(run, actions, c, j - 1, RiskAgent);
      t := TrailStep(run, actions, c, j, t);
    }
  }

  lemma WaitingHasTrail(run: seq<World>, actions: seq<Action>, c: Config, t: Trail)
    ensures Behind(run, actions, c, t, Waiting, 0)
  {
  }

  // ---- The orders in the pipeline ----

  /** The order as the risk agent published it: the brain changes the entry price and nothing else. */
  function Original(o: Order): Order { o.(entry := o.signal.entry) }

  predicate Bears(e: Event, o: Order) { (e.Allowed? || e.BrainGo? || e.Decided?) && Original(e.order) == o }

  /** The order is somewhere in the pipeline, or already on the log. */
  ghost predicate Carries(w: World, o: Order) {
    || (exists k :: 0 <= k < |w.log| && Bears(w.log[k], o))
    || (w.brain != None && Original(w.brain.value) == o)
    || (w.manager != None && Original(w.manager.value) == o)
  }

  /** The action is the risk agent publishing the order. */
  predicate PublishedNow(w: World, a: Action, o: Order) {
    && a.RiskPublish? && w.stage.Calculated? && o == SizedOrder(w.stage, a.quant) && o.size > 0.0
    && !RiskGate.QuantRejects(AnswerOf(a.quant))
  }

  lemma EmitsCarried(w: World, a: Action, c: Config, o: Order)
    requires Enabled(w, a) && |Emits(w, a, c)| == 1 && Bears(Emits(w, a, c)[0], o)
    ensures Carries(w, o) || PublishedNow(w, a, o)
  {
    hide Risk.RiskState.CanOpen, AfterGate, RiskGate.Composed;
    if a.ManagerReceive? { assert w.log[Cursor(w, ManagerAgent)] == NextEvent(w, ManagerAgent); }
  }

  lemma SlotsCarried(w: World, a: Action, o: Order)
    requires Enabled(w, a)
    ensures NextBrain(w, a) != None && Original(NextBrain(w, a).value) == o ==> Carries(w, o)
    ensures NextManager(w, a) != None && Original(NextManager(w, a).value) == o ==> Carries(w, o)
  {
    hide Risk.RiskState.CanOpen;
    if a.BrainReceive? { assert w.log[Cursor(w, BrainAgent)] == NextEvent(w, BrainAgent); }
    if a.ManagerReceive? { assert w.log[Cursor(w, ManagerAgent)] == NextEvent(w, ManagerAgent); }
  }

  /** Orders enter the pipeline only where the risk agent publishes them. */
  lemma CarriesStep(w: World, a: Action, c: Config, o: Order)
    requires Enabled(w, a) && Carries(Do(w, a, c), o)
    ensures Carries(w, o) || PublishedNow(w, a, o)
  {
    hide Enabled, Do, Emits, NextBrain, NextManager, SizedOrder, Original, Bears, PublishedNow;
    LogStep(w, a, c);
    SlotStep(w, a, c);
    SlotsCarried(w, a, o);
    var v := Do(w, a, c);
    if k :| 0 <= k < |v.log| && Bears(v.log[k], o) {
      if k < |w.log| { assert w.log[k] == v.log[k]; } else { EmitsCarried(w, a, c, o); }
    }
  }

  /** Before moment j the risk agent published the order, after its signal had passed every gate on the trail;
      its base is what the risk manager calculated for that signal, and its size the composed one. */
  ghost predicate Published(run: seq<World>, actions: seq<Action>, c: Config, t: Trail, o: Order, j: nat) {
    && t.published < j && t.published < |actions| && actions[t.published].RiskPublish?
    && var q := AnswerOf(actions[t.published].quant);
       && !RiskGate.QuantRejects(q)
       && PastCalculation(run, actions, c, t, o.signal, o.base, t.published)
       && t.calculated == o.sizedAt && o.entry == o.signal.entry
       && o.size == Times(Times(o.base, t.factor), if q == None then 1.0 else q.value.multiplier) && o.size > 0.0
  }

  lemma TrailOfPublished(run: seq<World>, actions: seq<Action>, c: Config, j: nat, o: Order, t: Trail)
    returns (u: Trail)
    requires 0 < j <= |actions| < |run| && PublishedNow(run[j - 1], actions[j - 1], o)
    requires Behind(run, actions, c, t, run[j - 1].stage, j - 1)
    ensures Published(run, actions, c, u, o, j)
  {
    hide TakenUp, ConsultedAt, AdmittedAt, ValidatedAt, CalculatedAt, RiskGate.Composed, RiskGate.QuantRejects,
         AnswerOf, Times;
    u := t.(published := j - 1);
    RiskGate.ComposedProduct(o.base, t.factor, AnswerOf(actions[j - 1].quant));
  }

  lemma PublishedLater(run: seq<World>, actions: seq<Action>, c: Config, t: Trail, o: Order, i: nat, j: nat)
    requires Published(run, actions, c, t, o, i) && i <= j
    ensures Published(run, actions, c, t, o, j)
  {
    hide PastCalculation, RiskGate.QuantRejects, AnswerOf, Times;
  }

  /** Every order in the pipeline, at every moment of every run, was published with such a trail behind it. */
  lemma {:induction false} OrdersAccounted(run: seq<World>, actions: seq<Action>, c: Config, j: nat, o: Order)
    returns (t: Trail)
    requires IsRun(run, actions, c) && AtStart(run[0]) && j < |run| && Carries(run[j], o)
    ensures Published(run, actions, c, t, o, j)
  {
    hide Enabled, Do, SizedOrder, Published, PublishedNow, Behind;
    if j > 0 {
      var w, a := run[j - 1], actions[j - 1];
      CarriesStep(w, a, c, o);
      if Carries(w, o) {
        t := OrdersAccounted(run, actions, c, j - 1, o);
        PublishedLater(run, actions, c, t, o, j - 1, j);
      } else {
        t := StageTrail(run, actions, c, j - 1);
        t := TrailOfPublished(run, actions, c, j, o, t);
      }
    }
  }

  // ---- What size an entry can have ----

  /** The policy allows a signal at a half, the whole or six fifths of the size. */
  lemma PolicyGivesFactor(x: Consultation, s: PreSignal, regime: string)
    requires x.Sound() && x.Verdict(s, regime).allowed
    ensures x.Verdict(s, regime).sizeMultiplier in {0.5, 1.0, 1.2}
  {
    if x.lessons == [] {
      Policy.NoneApply(s.strategy, regime, s.symbol, x.now);
    } else {
      hide Policy.Extracted, Policy.VerdictOf, Policy.Applying, Policy.StrategyLesson, Policy.Blocks;
      Policy.VerdictOnExtraction(x.lessons, x.memory, x.made, x.cfg, s.strategy, regime, s.symbol, x.now);
    }
  }

  lemma TimesUpTo(a: real, b: real, c: real)
    requires a >= 0.0 && b <= c
    ensures Times(a, b) <= c * a
  {
    MulMonotone(b, c, a);
  }

  /** 1.2 by the policy times 3 by the quant engine. */
  lemma ComposedBound(base: real, factor: real, q: Option<QuantReply>)
    requires base >= 0.0 && factor in {0.5, 1.0, 1.2}
    ensures RiskGate.Composed(base, factor, AnswerOf(q)) <= 3.6 * base
    ensures RiskGate.Composed(base, factor, AnswerOf(q)) > 0.0 ==> base > 0.0
  {
    hide Times, Quant.SizeMultiplier;
    TimesSign(base, factor);
    TimesUpTo(base, factor, 1.2);
    if q != None {
      var m := q.value.Answer().multiplier;
      assert 0.1 <= m <= 3.0;
      TimesSign(Times(base, factor), m);
      TimesUpTo(Times(base, factor), m, 3.0);
    }
  }

  lemma PublishedBound(run: seq<World>, actions: seq<Action>, c: Config, t: Trail, o: Order, j: nat)
    requires Published(run, actions, c, t, o, j)
    ensures t.factor in {0.5, 1.0, 1.2}
    ensures o.base == run[o.sizedAt].risk.CalculateSize(o.signal.entry, o.signal.stop)
    ensures o.base > 0.0 && 0.0 < o.size <= 3.6 * o.base
  {
    hide Risk.RiskState.CalculateSize, Risk.RiskState.CanOpen, RiskGate.ValidSignal, RiskGate.FundingBlocks,
         RiskGate.Composed, Consultation.Sound, Consultation.Verdict, Times;
    PolicyGivesFactor(actions[t.consulted].consultation, o.signal, t.regime);
    Risk.SizeNonNegative(run[o.sizedAt].risk, o.signal.entry, o.signal.stop);
    ComposedBound(o.base, t.factor, actions[t.published].quant);
    RiskGate.ComposedProduct(o.base, t.factor, AnswerOf(actions[t.published].quant));
  }

  // ---- From the risk agent to the exchange ----

  /** Step i is the brain taking up the order the risk agent published. */
  ghost predicate HeardAt(run: seq<World>, actions: seq<Action>, i: nat, o: Order) {
    && i < |actions| < |run| && actions[i].BrainReceive? && CanReceive(run[i], BrainAgent)
    && NextEvent(run[i], BrainAgent) == Allowed(o)
  }

  /** Step i is the brain letting it go on, at its own entry price if that is positive. */
  ghost predicate SentAt(run: seq<World>, actions: seq<Action>, i: nat, o: Order) {
    && i < |actions| < |run| && actions[i].BrainDecide? && actions[i].go
    && o.entry == if actions[i].entry > 0.0 then actions[i].entry else o.signal.entry
  }

  /** Step i is the manager taking it up: the last survival state he had read was not a halting one. */
  ghost predicate ReviewedAt(run: seq<World>, actions: seq<Action>, i: nat, o: Order) {
    && i < |actions| < |run| && actions[i].ManagerReceive? && CanReceive(run[i], ManagerAgent)
    && NextEvent(run[i], ManagerAgent) == BrainGo(o) && SeesNoHalt(run[i], ManagerAgent)
  }

  /** Step i is the manager's answer. */
  ghost predicate AnsweredAt(run: seq<World>, actions: seq<Action>, i: nat, answer: ManagerAction) {
    i < |actions| < |run| && actions[i] == ManagerDecide(answer) && ManagerAnswer(answer)
  }

  /** Step d.at is the execution agent reading that answer, no veto, with the account unblocked and, if survival is
      honoured, no halting state among the last it has read. */
  ghost predicate EnteredAt(run: seq<World>, actions: seq<Action>, c: Config, d: Dispatch) {
    && d.at < |actions| < |run| && actions[d.at].ExecReceive? && CanReceive(run[d.at], ExecAgent)
    && NextEvent(run[d.at], ExecAgent) == Decided(d.order, d.answer) && !d.answer.Veto?
    && !run[d.at].risk.tripped && !run[d.at].risk.frozen && d.order.entry > 0.0 && d.order.size > 0.0
    && (c.honorSurvival ==> SeesNoHalt(run[d.at], ExecAgent))
  }

  ghost predicate HeardBy(run: seq<World>, actions: seq<Action>, c: Config, t: Trail, o: Order, j: nat) {
    Published(run, actions, c, t, o, t.heard) && t.heard < j && HeardAt(run, actions, t.heard, o)
  }

  ghost predicate SentBy(run: seq<World>, actions: seq<Action>, c: Config, t: Trail, o: Order, j: nat) {
    HeardBy(run, actions, c, t, Original(o), t.sent) && t.sent < j && SentAt(run, actions, t.sent, o)
  }

  ghost predicate ReviewedBy(run: seq<World>, actions: seq<Action>, c: Config, t: Trail, o: Order, j: nat) {
    SentBy(run, actions, c, t, o, t.reviewed) && t.reviewed < j && ReviewedAt(run, actions, t.reviewed, o)
  }

  ghost predicate AnsweredBy(run: seq<World>, actions: seq<Action>, c: Config, t: Trail, o: Order,
                             answer: ManagerAction, j: nat)
  {
    && ReviewedBy(run, actions, c, t, o, t.answered)
    && t.answered < j && AnsweredAt(run, actions, t.answered, answer)
  }

  /** Every event on the log was added by one step. */
  lemma {:induction false} EmittedAt(run: seq<World>, actions: seq<Action>, c: Config, j: nat, k: nat)
    returns (m: nat)
    requires IsRun(run, actions, c) && AtStart(run[0]) && j < |run| && k < |run[j].log|
    ensures m < j && |run[m].log| == k && Emits(run[m], actions[m], c) == [run[j].log[k]]
  {
    hide Enabled, Do, Emits;
    if j > 0 {
      LogStep(run[j - 1], actions[j - 1], c);
      if k < |run[j - 1].log| { m := EmittedAt(run, actions, c, j - 1, k); } else { m := j - 1; }
    }
  }

  /** What the brain works on it has read. */
  lemma {:induction false} BrainRead(run: seq<World>, actions: seq<Action>, c: Config, j: nat) returns (m: nat)
    requires IsRun(run, actions, c) && AtStart(run[0]) && j < |run| && run[j].brain != None
    ensures m < j && HeardAt(run, actions, m, run[j].brain.value)
  {
    hide Enabled, Do, CanReceive, AfterGate;
    if j > 0 {
      var w, a := run[j - 1], actions[j - 1];
      SlotStep(w, a, c);
      ReceivesAs(w, a);
      if a.BrainReceive? { m := j - 1; } else { m := BrainRead(run, actions, c, j - 1); }
    }
  }

  /** What the manager works on he has read, past his survival gate. */
  lemma {:induction false} ManagerRead(run: seq<World>, actions: seq<Action>, c: Config, j: nat) returns (m: nat)
    requires IsRun(run, actions, c) && AtStart(run[0]) && j < |run| && run[j].manager != None
    ensures m < j && ReviewedAt(run, actions, m, run[j].manager.value)
  {
    hide Enabled, Do, CanReceive, AfterGate, SeesNoHalt, CacheHalts;
    if j > 0 {
      var w, a := run[j - 1], actions[j - 1];
      SlotStep(w, a, c);
      ReceivesAs(w, a);
      GateSees(run, actions, c, j - 1, ManagerAgent);
      if a.ManagerReceive? { m := j - 1; } else { m := ManagerRead(run, actions, c, j - 1); }
    }
  }

  /** What an emission of each kind comes from. */
  lemma EmitsFrom(w: World, a: Action, c: Config)
    requires Enabled(w, a) && |Emits(w, a, c)| == 1
    ensures match Emits(w, a, c)[0]
            case Allowed(o) => PublishedNow(w, a, o)
            case BrainGo(o) => a.BrainDecide? && a.go && w.brain != None && w.brain.value.signal == o.signal
                               && o == w.brain.value.(entry := if a.entry > 0.0 then a.entry else w.brain.value.entry)
            case Decided(o, answer) =>
              answer == Veto || (a == ManagerDecide(answer) && ManagerAnswer(answer) && w.manager == Some(o))
            case _ => true
  {
    hide AfterGate, RiskGate.Composed, RiskGate.QuantRejects, AnswerOf, CacheHalts, CanReceive;
  }

  lemma AllowedTrail(run: seq<World>, actions: seq<Action>, c: Config, j: nat, k: nat) returns (t: Trail)
    requires IsRun(run, actions, c) && AtStart(run[0]) && j < |run| && k < |run[j].log| && run[j].log[k].Allowed?
    ensures Published(run, actions, c, t, run[j].log[k].order, j)
  {
    hide Enabled, Do, Emits, Behind, PublishedNow, Published;
    var m := EmittedAt(run, actions, c, j, k);
    EmitsFrom(run[m], actions[m], c);
    t := StageTrail(run, actions, c, m);
    t := TrailOfPublished(run, actions, c, m + 1, run[j].log[k].order, t);
    PublishedLater(run, actions, c, t, run[j].log[k].order, m + 1, j);
  }

  lemma GoTrail(run: seq<World>, actions: seq<Action>, c: Config, j: nat, k: nat) returns (t: Trail)
    requires IsRun(run, actions, c) && AtStart(run[0]) && j < |run| && k < |run[j].log| && run[j].log[k].BrainGo?
    ensures SentBy(run, actions, c, t, run[j].log[k].order, j)
  {
    hide Enabled, Do, Emits, Published, CanReceive;
    var m := EmittedAt(run, actions, c, j, k);
    EmitsFrom(run[m], actions[m], c);
    var h := BrainRead(run, actions, c, m);
    Inside(run[h], BrainAgent);
    t := AllowedTrail(run, actions, c, h, Cursor(run[h], BrainAgent));
    t := Renamed(run, actions, c, t, run[m].brain.value, h, t.(heard := h, sent := m));
  }

  lemma Inside(w: World, a: Agent)
    requires CanReceive(w, a)
    ensures Cursor(w, a) < |w.log| && NextEvent(w, a) == w.log[Cursor(w, a)]
  {
  }

  /** A trail's later moments do not matter to what was published. */
  lemma Renamed(run: seq<World>, actions: seq<Action>, c: Config, t: Trail, o: Order, j: nat, u: Trail)
    returns (v: Trail)
    requires Published(run, actions, c, t, o, j)
    requires u == t.(heard := u.heard, sent := u.sent, reviewed := u.reviewed, answered := u.answered)
    ensures v == u && Published(run, actions, c, u, o, j) && o.entry == o.signal.entry
  {
    hide TakenUp, ConsultedAt, AdmittedAt, ValidatedAt, CalculatedAt, RiskGate.Composed, RiskGate.QuantRejects,
         AnswerOf, Times;
    v := u;
  }

  lemma AnswerTrail(run: seq<World>, actions: seq<Action>, c: Config, j: nat, k: nat) returns (t: Trail)
    requires IsRun(run, actions, c) && AtStart(run[0]) && j < |run| && k < |run[j].log|
    requires run[j].log[k].Decided? && run[j].log[k].action != Veto
    ensures AnsweredBy(run, actions, c, t, run[j].log[k].order, run[j].log[k].action, j)
  {
    hide Enabled, Do, Emits, Published, CanReceive, SeesNoHalt, ManagerAnswer;
    var o := run[j].log[k].order;
    var m := EmittedAt(run, actions, c, j, k);
    EmitsFrom(run[m], actions[m], c);
    var r := ManagerRead(run, actions, c, m);
    Inside(run[r], ManagerAgent);
    t := GoTrail(run, actions, c, r, Cursor(run[r], ManagerAgent));
    t := Renamed(run, actions, c, t, Original(o), t.heard, t.(reviewed := r, answered := m));
  }

  /** The manager's own factor is at most 1.5. */
  lemma EntryWithinBounds(d: Dispatch)
    requires 0.0 < d.order.size <= 3.6 * d.order.base && ManagerAnswer(d.answer)
    ensures 0.0 < d.Request().size <= 5.4 * d.order.base
  {
    EntryRequested(ManagerVerdict(d.order.AsProposal(), d.answer), "");
    hide BuildEntryRequest, MovedBy;
    if d.answer.Adjust? {
      hide Times;
      TimesSign(d.order.size, d.answer.sizeMultiplier);
      TimesUpTo(d.order.size, d.answer.sizeMultiplier, 1.5);
    }
  }

  /** The levels of the sent request: the signal's own, or within half a per cent of the entry price of them. */
  lemma RequestLevels(d: Dispatch)
    requires ManagerAnswer(d.answer) && d.order.entry > 0.0
    ensures d.answer.Approve? ==> d.Request().stop == d.order.signal.stop && d.Request().target == d.order.signal.target
    ensures Abs(d.Request().stop - d.order.signal.stop) <= 0.005 * d.order.entry
    ensures Abs(d.Request().target - d.order.signal.target) <= 0.005 * d.order.entry
  {
    var req := d.Request();
    EntryRequested(ManagerVerdict(d.order.AsProposal(), d.answer), "");
    hide BuildEntryRequest;
    if d.answer.Adjust? {
      HalfPerCent(req.side, d.order.signal.stop, req.stop, d.order.entry, d.answer.slOffsetBps);
      HalfPerCent(req.side, d.order.signal.target, req.target, d.order.entry, d.answer.tpOffsetBps);
    }
    hide MovedBy, Times;
  }

  lemma HalfPerCent(side: Positions.Side, before: real, after: real, entry: real, bps: real)
    requires MovedBy(side, before, after, entry, bps) && entry > 0.0 && -50.0 <= bps <= 50.0
    ensures Abs(after - before) <= 0.005 * entry
  {
    TimesMonotone(bps, 50.0, entry);
    TimesMonotone(-50.0, bps, entry);
    assert Times(entry, bps) == Times(bps, entry) && Times(-50.0, entry) == -50.0 * entry;
    assert Times(50.0, entry) == 50.0 * entry;
    hide Times;
  }

  /** The whole way of a dispatched entry: gates, brain, manager, execution, each at its own moment. */
  ghost predicate Travelled(run: seq<World>, actions: seq<Action>, c: Config, t: Trail, d: Dispatch) {
    AnsweredBy(run, actions, c, t, d.order, d.answer, d.at) && EnteredAt(run, actions, c, d)
  }

  /** The step that dispatched it. */
  lemma {:induction false} DispatchedAt(run: seq<World>, actions: seq<Action>, c: Config, j: nat, n: nat)
    requires IsRun(run, actions, c) && AtStart(run[0]) && j < |run| && n < |run[j].dispatched|
    ensures var d := run[j].dispatched[n]; d.at < j && EnteredAt(run, actions, c, d)
  {
    hide Enabled, Do, CanReceive, SeesNoHalt, CacheHalts;
    if j > 0 {
      var w, a := run[j - 1], actions[j - 1];
      DispatchStep(w, a, c);
      if n < |w.dispatched| {
        DispatchedAt(run, actions, c, j - 1, n);
      } else {
        ClockIsIndex(run, actions, c, j - 1);
        ReceivesAs(w, a);
        GateSees(run, actions, c, j - 1, ExecAgent);
      }
    }
  }

  /** The end-to-end theorem. Behind every dispatched entry stands one signal that, in this order, was taken up by
      the risk agent with no halting survival state read last, allowed by the learning policy, admitted by the risk
      manager, validated, sized and published; that the brain read and let go on; that the manager read with no
      halting survival state read last, and answered; and that the execution agent entered on an unblocked account.
      The request it sends has the signal's symbol and side, its stop and target (exactly, if approved; within half a
      per cent of the entry price, if adjusted), and a positive size of at most 1.2 * 3.0 * 1.5 = 5.4 times what the
      risk manager calculated for that signal. */
  lemma DispatchBound(run: seq<World>, actions: seq<Action>, c: Config, j: nat, n: nat) returns (t: Trail)
    requires IsRun(run, actions, c) && AtStart(run[0]) && j < |run| && n < |run[j].dispatched|
    ensures var d := run[j].dispatched[n];
      var s, req := d.order.signal, d.Request();
      && d.at < j && Travelled(run, actions, c, t, d)
      && d.order.base == run[d.order.sizedAt].risk.CalculateSize(s.entry, s.stop)
      && req.symbol == s.symbol && req.side == s.side && req.price == d.order.entry
      && (d.answer.Approve? ==> req.stop == s.stop && req.target == s.target && req.size == d.order.size)
      && Abs(req.stop - s.stop) <= 0.005 * d.order.entry && Abs(req.target - s.target) <= 0.005 * d.order.entry
      && 0.0 < req.size <= 5.4 * d.order.base
  {
    var d := run[j].dispatched[n];
    EntryRequested(ManagerVerdict(d.order.AsProposal(), d.answer), "");
    hide Enabled, Do, Published, CanReceive, SeesNoHalt, BuildEntryRequest, Risk.RiskState.CalculateSize, Abs,
         ManagerAnswer, MovedBy;
    DispatchedAt(run, actions, c, j, n);
    Inside(run[d.at], ExecAgent);
    t := AnswerTrail(run, actions, c, d.at, Cursor(run[d.at], ExecAgent));
    PublishedBound(run, actions, c, t, Original(d.order), t.heard);
    EntryWithinBounds(d);
    RequestLevels(d);
  }

  // ---- What a zero multiplier stops ----

  /** The only steps that change the size multiplier to something positive. */
  predicate ScalesUp(w: World, a: Action) {
    Scales(w, a) && SurvivalScore.Multiplier(Pending(w, a.refreshing).mode) > 0.0
  }

  ghost predicate NoScaleUp(run: seq<World>, actions: seq<Action>, i: nat, j: nat)
    requires j <= |actions| < |run|
  {
    forall k :: i <= k < j ==> !ScalesUp(run[k], actions[k])
  }

  lemma {:induction false} MultiplierStaysZero(run: seq<World>, actions: seq<Action>, c: Config, i: nat, j: nat)
    requires IsRun(run, actions, c) && i <= j < |run| && run[i].risk.sizeMultiplier == 0.0
    requires NoScaleUp(run, actions, i, j)
    ensures run[j].risk.sizeMultiplier == 0.0
    decreases j - i
  {
    hide Enabled, Do, SurvivalScore.Multiplier, Scales;
    if i < j {
      MultiplierStaysZero(run, actions, c, i, j - 1);
      MultiplierStep(run[j - 1], actions[j - 1], c);
      MultiplierNonNegative(run[j - 1], actions[j - 1]);
    }
  }

  lemma MultiplierNonNegative(w: World, a: Action)
    ensures Scales(w, a) ==> SurvivalScore.Multiplier(Pending(w, a.refreshing).mode) >= 0.0
  {
  }

  lemma StaleIfPublished(run: seq<World>, actions: seq<Action>, c: Config, i: nat, j: nat, t: Trail, o: Order)
    requires IsRun(run, actions, c) && i <= j < |run| && run[i].risk.sizeMultiplier == 0.0
    requires NoScaleUp(run, actions, i, j) && Published(run, actions, c, t, o, j)
    ensures o.sizedAt < i
  {
    hide IsRun;
    PublishedBound(run, actions, c, t, o, j);
    hide Risk.RiskState.CalculateSize, ConsultedAt, ValidatedAt, AdmittedAt, TakenUp, Times;
    if i <= o.sizedAt {
      MultiplierStaysZero(run, actions, c, i, o.sizedAt);
      Risk.ZeroMultiplierZeroSize(run[o.sizedAt].risk, o.signal.entry, o.signal.stop);
      assert false;
    }
  }

  /** While the multiplier stays 0, every order in the pipeline was calculated before it became 0. */
  lemma NoNewOrders(run: seq<World>, actions: seq<Action>, c: Config, i: nat, j: nat, o: Order)
    requires IsRun(run, actions, c) && AtStart(run[0]) && i <= j < |run| && run[i].risk.sizeMultiplier == 0.0
    requires NoScaleUp(run, actions, i, j) && Carries(run[j], o)
    ensures o.sizedAt < i
  {
    hide IsRun, Carries, Published;
    var t := OrdersAccounted(run, actions, c, j, o);
    StaleIfPublished(run, actions, c, i, j, t, o);
  }

  lemma {:induction false} DispatchedSince(run: seq<World>, actions: seq<Action>, c: Config, i: nat, j: nat, n: nat)
    requires IsRun(run, actions, c) && AtStart(run[0]) && i <= j < |run|
    requires |run[i].dispatched| <= n < |run[j].dispatched|
    ensures run[j].dispatched[n].at >= i
    decreases j - i
  {
    hide Enabled, Do, Dispatches;
    if i < j {
      DispatchStep(run[j - 1], actions[j - 1], c);
      if n < |run[j - 1].dispatched| {
        DispatchedSince(run, actions, c, i, j - 1, n);
      } else {
        ClockIsIndex(run, actions, c, j - 1);
        DispatchClock(run[j - 1], actions[j - 1], c);
      }
    }
  }

  lemma DispatchClock(w: World, a: Action, c: Config)
    requires Enabled(w, a)
    ensures forall d :: d in Dispatches(w, a, c) ==> d.at == w.clock
  {
    hide Enabled, Passes, CanReceive;
  }

  /** From a moment with multiplier 0 until a survival task scales it up again, every entry dispatched, whoever
      unfreezes, carries a size calculated before that moment. */
  lemma OnlyStaleSizes(run: seq<World>, actions: seq<Action>, c: Config, i: nat, j: nat, n: nat)
    requires IsRun(run, actions, c) && AtStart(run[0]) && i <= j < |run| && run[i].risk.sizeMultiplier == 0.0
    requires NoScaleUp(run, actions, i, j)
    requires |run[i].dispatched| <= n < |run[j].dispatched|
    ensures run[j].dispatched[n].order.sizedAt < i <= run[j].dispatched[n].at
  {
    hide IsRun, Published, EnteredAt, SentAt, HeardAt, ReviewedAt, AnsweredAt;
    DispatchedSince(run, actions, c, i, j, n);
    var d := run[j].dispatched[n];
    var t := DispatchBound(run, actions, c, j, n);
    PublishedLater(run, actions, c, t, Original(d.order), t.heard, j);
    StaleIfPublished(run, actions, c, i, j, t, Original(d.order));
  }

  // ---- How much can leak ----

  predicate IsAllowed(e: Event) { e.Allowed? }

  predicate IsGo(e: Event) { e.BrainGo? }

  predicate IsDecided(e: Event) { e.Decided? }

  /** The events of a kind that an agent has not consumed. */
  function Unread(w: World, a: Agent, kind: Event -> bool): nat {
    if Cursor(w, a) <= |w.log| then Count(w.log[Cursor(w, a)..], kind) else 0
  }

  function Held(o: Option<Order>): nat { if o == None then 0 else 1 }

  /** A calculated size the risk agent still holds; one of 0 becomes no order. */
  function HeldSize(st: RiskStage): nat { if st.Calculated? && st.base != 0.0 then 1 else 0 }

  /** Orders between the calculation of their size and the dispatch. */
  function InFlight(w: World): nat {
    HeldSize(w.stage)
    + Unread(w, BrainAgent, IsAllowed) + Held(w.brain)
    + Unread(w, ManagerAgent, IsGo) + Held(w.manager)
    + Unread(w, ExecAgent, IsDecided)
  }

  /** Whether the action consumes an event of the kind as that agent. */
  function Takes(w: World, a: Action, agent: Agent, kind: Event -> bool): nat {
    if Reads(a, agent) > 0 && CanReceive(w, agent) && kind(NextEvent(w, agent)) then 1 else 0
  }

  lemma UnreadStep(w: World, a: Action, c: Config, agent: Agent, kind: Event -> bool)
    requires Enabled(w, a) && Cursor(w, agent) <= |w.log|
    ensures var v := Do(w, a, c);
      && Cursor(v, agent) <= |v.log|
      && Unread(v, agent, kind) == Unread(w, agent, kind) + Count(Emits(w, a, c), kind) - Takes(w, a, agent, kind)
  {
    hide Enabled, Do, Emits, Count, Reads;
    LogStep(w, a, c);
    CursorStep(w, a, c, agent);
    hide Cursor;
    var p, log := Cursor(w, agent), Do(w, a, c).log;
    CountFrom(w.log, Emits(w, a, c), p, kind);
    if Reads(a, agent) > 0 {
      CountHead(log, p, kind);
      assert log[p] == NextEvent(w, agent);
    }
  }

  lemma CountEmits(w: World, a: Action, c: Config, kind: Event -> bool)
    requires Enabled(w, a)
    ensures Count(Emits(w, a, c), kind) == if |Emits(w, a, c)| == 1 && kind(Emits(w, a, c)[0]) then 1 else 0
  {
    hide Emits, Enabled;
    if |Emits(w, a, c)| == 1 {
      assert Emits(w, a, c) == [Emits(w, a, c)[0]];
      CountOne(Emits(w, a, c)[0], kind);
    }
  }

  /** The step calculates a size that can become an order. */
  predicate Calculates(w: World, a: Action) {
    a.RiskCalculate? && w.stage.Validated? && w.risk.CalculateSize(w.stage.signal.entry, w.stage.signal.stop) != 0.0
  }

  lemma ZeroBaseZeroSize(factor: real, q: Option<RiskGate.QuantAnswer>)
    ensures RiskGate.Composed(0.0, factor, q) == 0.0
  {
  }

  /** The risk agent's part of the balance: only a calculated size other than 0 becomes an order. */
  lemma StageBalance(w: World, a: Action, c: Config)
    requires Enabled(w, a)
    ensures HeldSize(NextStage(w, a, c)) + Count(Emits(w, a, c), IsAllowed)
         <= HeldSize(w.stage) + (if Calculates(w, a) then 1 else 0)
  {
    CountEmits(w, a, c, IsAllowed);
    hide Count, Risk.RiskState.CanOpen, Risk.RiskState.CalculateSize, RiskGate.Composed, RiskGate.ValidSignal,
         RiskGate.FundingBlocks, RiskGate.PolicyAdmits, CacheHalts, CanReceive, Repriced;
    if a.RiskPublish? { ZeroBaseZeroSize(w.stage.factor, AnswerOf(a.quant)); }
  }

  /** What the brain and the manager emit was taken from the stage before them. */
  lemma SlotBalance(w: World, a: Action, c: Config)
    requires Enabled(w, a)
    ensures Held(NextBrain(w, a)) + Count(Emits(w, a, c), IsGo) <= Held(w.brain) + Takes(w, a, BrainAgent, IsAllowed)
    ensures Held(NextManager(w, a)) + Count(Emits(w, a, c), IsDecided)
         <= Held(w.manager) + Takes(w, a, ManagerAgent, IsGo)
  {
    CountEmits(w, a, c, IsGo);
    CountEmits(w, a, c, IsDecided);
    hide Count, Risk.RiskState.CanOpen, AfterGate, SizedOrder, Repriced, CacheHalts, CanReceive;
  }

  lemma DispatchReads(w: World, a: Action, c: Config)
    requires Enabled(w, a)
    ensures |Do(w, a, c).dispatched| <= |w.dispatched| + Takes(w, a, ExecAgent, IsDecided)
  {
    DispatchStep(w, a, c);
    ReceivesAs(w, a);
    hide Do, Enabled, Passes, CanReceive;
  }

  /** Orders in flight plus orders dispatched grow only when the risk agent calculates a size. */
  lemma InFlightStep(w: World, a: Action, c: Config)
    requires Enabled(w, a) && Placed(w)
    ensures var v := Do(w, a, c);
      InFlight(v) + |v.dispatched| <= InFlight(w) + |w.dispatched| + (if Calculates(w, a) then 1 else 0)
  {
    hide Enabled, Do, Emits, Count, Takes, NextBrain, NextManager, NextStage, Unread, Held, HeldSize, Calculates;
    var v := Do(w, a, c);
    UnreadStep(w, a, c, BrainAgent, IsAllowed);
    UnreadStep(w, a, c, ManagerAgent, IsGo);
    UnreadStep(w, a, c, ExecAgent, IsDecided);
    SlotStep(w, a, c);
    StageStep(w, a, c);
    StageBalance(w, a, c);
    SlotBalance(w, a, c);
    DispatchReads(w, a, c);
  }

  lemma NothingCalculated(w: World, a: Action)
    requires w.risk.sizeMultiplier == 0.0
    ensures !Calculates(w, a)
  {
    if a.RiskCalculate? && w.stage.Validated? {
      Risk.ZeroMultiplierZeroSize(w.risk, w.stage.signal.entry, w.stage.signal.stop);
    }
  }

  /** Bounded leakage: from a moment with multiplier 0 until sizes are scaled up again, at most the orders then in
      flight are ever dispatched, however the flag, the caches and the agents interleave. */
  lemma {:induction false} LeakageBound(run: seq<World>, actions: seq<Action>, c: Config, i: nat, j: nat)
    requires IsRun(run, actions, c) && AtStart(run[0]) && i <= j < |run| && run[i].risk.sizeMultiplier == 0.0
    requires NoScaleUp(run, actions, i, j)
    ensures InFlight(run[j]) + |run[j].dispatched| <= InFlight(run[i]) + |run[i].dispatched|
    decreases j - i
  {
    hide Enabled, Do, ScalesUp, InFlight, Calculates;
    if i < j {
      LeakageBound(run, actions, c, i, j - 1);
      AlwaysPlaced(run, actions, c, j - 1);
      MultiplierStaysZero(run, actions, c, i, j - 1);
      NothingCalculated(run[j - 1], actions[j - 1]);
      InFlightStep(run[j - 1], actions[j - 1], c);
    }
  }
}
