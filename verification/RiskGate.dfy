/** The risk agent's gate sequence and size composition (src/agents/risk.rs), with the signal validation of the
    risk manager (src/execution/risk.rs). The policy's verdict and the quant engine's answer are inputs. */
module RiskGate {
  import opened Reals
  import opened Costs
  import opened Positions
  import opened Signals
  import Policy
  import Risk
  import SurvivalScore

  datatype GateConfig = GateConfig(
    baseTaThreshold: int,
    baseLlmFloor: nat,
    fundingBlock: real,
    costs: TransactionCostModel,
    sqrt: real -> real)

  /** The limits that only the signal validation uses. */
  datatype EntryLimits = EntryLimits(
    maxSpreadPct: real,
    minRewardRisk: real,
    minNetEdgeBps: real,
    assumedDailyVolumeUsd: real)

  /** What the quant engine answers: its VaR veto, and a multiplier clamped to [0.1, 3]. */
  datatype QuantAnswer = QuantAnswer(rejected: bool, multiplier: real)

  datatype RiskVerdict = RiskVerdict(allowed: bool, size: real, sizeMultiplier: real, taThreshold: int, llmFloor: nat)

  function NetEdge(account: Risk.RiskState, limits: EntryLimits, cfg: GateConfig, s: PreSignal): real
    requires s.entry > 0.0
  {
    Quotient(Abs(s.target - s.entry), s.entry) * 10000.0
    - RoundTrip(cfg.costs, Times(account.CalculateSize(s.entry, s.stop), s.entry),
                limits.assumedDailyVolumeUsd, cfg.sqrt)
  }

  /** validate_signal: reward against risk, spread, and edge after costs (skipped when no minimum is set). */
  predicate ValidSignal(account: Risk.RiskState, limits: EntryLimits, cfg: GateConfig, s: PreSignal,
                        spreadPct: Option<real>)
  {
    var risk := Abs(s.entry - s.stop);
    && s.entry > 0.0 && risk > 0.0
    && Quotient(Abs(s.target - s.entry), risk) >= limits.minRewardRisk
    && (spreadPct == None || spreadPct.value <= limits.maxSpreadPct)
    && (limits.minNetEdgeBps > 0.0 ==> NetEdge(account, limits, cfg, s) >= limits.minNetEdgeBps)
  }

  predicate SurvivalAdmits(last: Option<SurvivalScore.SurvivalMode>) { last == None || !last.value.Halts() }

  function TaThreshold(cfg: GateConfig, delta: int): int { SurvivalScore.ClampInt(cfg.baseTaThreshold + delta, 0, 100) }

  function LlmFloor(cfg: GateConfig, floor: Option<nat>): nat {
    if floor == None || floor.value < cfg.baseLlmFloor then cfg.baseLlmFloor else floor.value
  }

  predicate PolicyAdmits(cfg: GateConfig, s: PreSignal, policy: Policy.PolicyVerdict) {
    policy.allowed && s.taConfidence >= TaThreshold(cfg, policy.taThresholdDelta)
  }

  predicate FundingBlocks(cfg: GateConfig, side: Side, rate: real) {
    if side == Long then rate >= cfg.fundingBlock else rate <= 0.0 - cfg.fundingBlock
  }

  function Composed(base: real, policy: real, quant: Option<QuantAnswer>): real {
    if quant == None then Times(base, policy) else Times(Times(base, policy), quant.value.multiplier)
  }

  predicate QuantRejects(quant: Option<QuantAnswer>) { quant != None && quant.value.rejected }

  function Lookup(m: map<string, real>, symbol: string): Option<real> {
    if symbol in m then Some(m[symbol]) else None
  }

  function RateOf(funding: map<string, real>, symbol: string): real {
    if symbol in funding then funding[symbol] else 0.0
  }

  class RiskAgent {
    const cfg: GateConfig
    const limits: EntryLimits
    const risk: Risk.RiskManager
    var survival: Option<SurvivalScore.SurvivalMode>
    var funding: map<string, real>
    var spreads: map<string, real>

    constructor (cfg: GateConfig, limits: EntryLimits, risk: Risk.RiskManager)
      ensures this.cfg == cfg && this.limits == limits && this.risk == risk
      ensures survival == None && funding == map[] && spreads == map[]
    {
      this.cfg, this.limits, this.risk := cfg, limits, risk;
      survival, funding, spreads := None, map[], map[];
    }

    method OnSurvivalUpdated(mode: SurvivalScore.SurvivalMode)
      modifies this`survival
      ensures survival == Some(mode)
    {
      survival := Some(mode);
    }

    method OnFunding(symbol: string, rate: Option<real>)
      modifies this`funding
      ensures funding == if rate == None then old(funding) else old(funding)[symbol := rate.value]
    {
      if rate != None { funding := funding[symbol := rate.value]; }
    }

    /** A crossed or non-positive quote leaves the last spread in place. */
    method OnBookTicker(symbol: string, bid: real, ask: real)
      modifies this`spreads
      ensures bid + ask > 0.0 && ask >= bid ==>
                spreads.Keys == old(spreads.Keys) + {symbol} && Times(spreads[symbol], bid + ask) == 200.0 * (ask - bid)
                && forall s :: s in old(spreads) && s != symbol ==> spreads[s] == old(spreads)[s]
      ensures !(bid + ask > 0.0 && ask >= bid) ==> spreads == old(spreads)
    {
      var mid := (bid + ask) / 2.0;
      if mid > 0.0 && ask >= bid {
        SpreadOfMid(bid, ask);
        hide Times, Quotient;
        spreads := spreads[symbol := Quotient(ask - bid, mid) * 100.0];
      }
    }

    /** Everything that must hold for an entry to be allowed, in the order it is asked. */
    predicate Admits(s: PreSignal, policy: Policy.PolicyVerdict, quant: Option<QuantAnswer>) reads this, risk {
      && SurvivalAdmits(survival)
      && PolicyAdmits(cfg, s, policy)
      && risk.State().CanOpen() == None
      && ValidSignal(risk.State(), limits, cfg, s, Lookup(spreads, s.symbol))
      && !FundingBlocks(cfg, s.side, RateOf(funding, s.symbol))
      && !QuantRejects(quant)
      && Composed(risk.State().CalculateSize(s.entry, s.stop), policy.sizeMultiplier, quant) > 0.0
    }

    /** An entry is allowed exactly when every gate admits it, at the composed size; a refusal has size 0. The
        verdict carries the policy's multiplier unless the survival gate or the policy itself refused, and the
        policy's thresholds unless the survival gate refused. */
    method OnPreSignal(s: PreSignal, policy: Policy.PolicyVerdict, quant: Option<QuantAnswer>) returns (v: RiskVerdict)
      ensures v.allowed <==> Admits(s, policy, quant)
      ensures v.size == if !v.allowed then 0.0
                        else Composed(risk.State().CalculateSize(s.entry, s.stop), policy.sizeMultiplier, quant)
      ensures v.sizeMultiplier == if SurvivalAdmits(survival) && policy.allowed then policy.sizeMultiplier else 0.0
      ensures v.taThreshold == if !SurvivalAdmits(survival) then cfg.baseTaThreshold
                               else TaThreshold(cfg, policy.taThresholdDelta)
      ensures v.llmFloor == if SurvivalAdmits(survival) then LlmFloor(cfg, policy.llmFloor) else cfg.baseLlmFloor
      ensures v.llmFloor >= cfg.baseLlmFloor
    {
      hide Composed, ValidSignal, FundingBlocks, TaThreshold, Risk.RiskState.CanOpen, Risk.RiskState.CalculateSize;
      if survival != None && survival.value.Halts() {
        return RiskVerdict(false, 0.0, 0.0, cfg.baseTaThreshold, cfg.baseLlmFloor);
      }
      var threshold := TaThreshold(cfg, policy.taThresholdDelta);
      var floor := LlmFloor(cfg, policy.llmFloor);
      if !policy.allowed { return RiskVerdict(false, 0.0, 0.0, threshold, floor); }
      var blocked := RiskVerdict(false, 0.0, policy.sizeMultiplier, threshold, floor);
      if s.taConfidence < threshold { return blocked; }
      var account := risk.State();
      if account.CanOpen() != None { return blocked; }
      if !ValidSignal(account, limits, cfg, s, Lookup(spreads, s.symbol)) { return blocked; }
      if FundingBlocks(cfg, s.side, RateOf(funding, s.symbol)) { return blocked; }
      var base := account.CalculateSize(s.entry, s.stop);
      if QuantRejects(quant) { return blocked; }
      var size := Composed(base, policy.sizeMultiplier, quant);
      if size <= 0.0 { return blocked; }
      v := RiskVerdict(true, size, policy.sizeMultiplier, threshold, floor);
    }
  }

  /** Positive funding blocks longs from the threshold on, negative funding shorts, and never both: what blocks a
      side at one rate blocks the other at the opposite rate. */
  lemma FundingLaws(cfg: GateConfig, rate: real, more: real)
    requires cfg.fundingBlock > 0.0 && rate <= more
    ensures FundingBlocks(cfg, Long, cfg.fundingBlock) && FundingBlocks(cfg, Short, 0.0 - cfg.fundingBlock)
    ensures FundingBlocks(cfg, Long, rate) ==> rate >= cfg.fundingBlock && FundingBlocks(cfg, Long, more)
    ensures FundingBlocks(cfg, Long, rate) <==> FundingBlocks(cfg, Short, 0.0 - rate)
    ensures !(FundingBlocks(cfg, Long, rate) && FundingBlocks(cfg, Short, rate))
  {
  }

  /** What the validation asks of a signal with a positive entry, without a division: a stop off the entry, a target at
      least the required multiple of the stop distance away, a spread within the limit, and, if an edge is required, a
      gross move that covers it and the costs. */
  lemma ValidSignalIff(account: Risk.RiskState, limits: EntryLimits, cfg: GateConfig, s: PreSignal,
                       spread: Option<real>)
    requires s.entry > 0.0
    ensures var costs := RoundTrip(cfg.costs, Times(account.CalculateSize(s.entry, s.stop), s.entry),
                                   limits.assumedDailyVolumeUsd, cfg.sqrt);
      ValidSignal(account, limits, cfg, s, spread) <==>
        && s.entry != s.stop
        && Abs(s.target - s.entry) >= Times(limits.minRewardRisk, Abs(s.entry - s.stop))
        && (spread != None ==> spread.value <= limits.maxSpreadPct)
        && (limits.minNetEdgeBps > 0.0 ==>
              10000.0 * Abs(s.target - s.entry) >= Times(limits.minNetEdgeBps + costs, s.entry))
  {
    hide Risk.RiskState.CalculateSize, RoundTrip;
    if s.entry != s.stop {
      QuotientReaches(Abs(s.target - s.entry), Abs(s.entry - s.stop), limits.minRewardRisk, 1.0);
      var costs := RoundTrip(cfg.costs, Times(account.CalculateSize(s.entry, s.stop), s.entry),
                             limits.assumedDailyVolumeUsd, cfg.sqrt);
      QuotientReaches(Abs(s.target - s.entry), s.entry, limits.minNetEdgeBps + costs, 10000.0);
      hide Times, Quotient;
    }
  }

  /** Lessons raise or lower the TA threshold point by point within 0 and 100, and can only raise the LLM floor, to the
      highest they name. */
  lemma ThresholdLaws(cfg: GateConfig, delta: int, floor: Option<nat>)
    requires 0 <= cfg.baseTaThreshold <= 100
    ensures 0 <= TaThreshold(cfg, delta) <= 100 && TaThreshold(cfg, 0) == cfg.baseTaThreshold
    ensures 0 < TaThreshold(cfg, delta) < 100 ==> TaThreshold(cfg, delta) - cfg.baseTaThreshold == delta
    ensures TaThreshold(cfg, delta) == 0 ==> delta <= 0 - cfg.baseTaThreshold
    ensures TaThreshold(cfg, delta) == 100 ==> delta >= 100 - cfg.baseTaThreshold
    ensures LlmFloor(cfg, floor) >= cfg.baseLlmFloor && (floor != None ==> LlmFloor(cfg, floor) >= floor.value)
    ensures LlmFloor(cfg, floor) == cfg.baseLlmFloor || Some(LlmFloor(cfg, floor)) == floor
  {
  }

  lemma SpreadOfMid(bid: real, ask: real)
    requires bid + ask > 0.0
    ensures Times(Quotient(ask - bid, (bid + ask) / 2.0) * 100.0, bid + ask) == 200.0 * (ask - bid)
  {
    var mid := (bid + ask) / 2.0;
    var q := Quotient(ask - bid, mid);
    assert q * mid == ask - bid;
    assert (q * 100.0) * (bid + ask) == 200.0 * (q * mid);
  }

  /** What an allowed entry guarantees: a clear account with a live multiplier, a reward of at least the required
      multiple of the risk, and a size within 3 times the policy factor of what the account allows. */
  lemma AllowedEntry(agent: RiskAgent, s: PreSignal, policy: Policy.PolicyVerdict, quant: Option<QuantAnswer>)
    requires agent.Admits(s, policy, quant) && policy.sizeMultiplier > 0.0
    requires quant != None ==> 0.1 <= quant.value.multiplier <= 3.0
    ensures var account := agent.risk.State();
      var base := account.CalculateSize(s.entry, s.stop);
      && !account.IsBlocked() && account.openPositions < account.limits.maxOpenPositions
      && account.sizeMultiplier != 0.0
      && Times(agent.limits.minRewardRisk, Abs(s.entry - s.stop)) <= Abs(s.target - s.entry)
      && base > 0.0 && 0.0 < Composed(base, policy.sizeMultiplier, quant) <= 3.0 * Times(base, policy.sizeMultiplier)
  {
    var account := agent.risk.State();
    var base := account.CalculateSize(s.entry, s.stop);
    Risk.CanOpenOnlyWhenClear(account);
    if account.sizeMultiplier == 0.0 { Risk.ZeroMultiplierZeroSize(account, s.entry, s.stop); }
    RewardCovers(Abs(s.target - s.entry), Abs(s.entry - s.stop), agent.limits.minRewardRisk);
    Risk.SizeNonNegative(account, s.entry, s.stop);
    hide Risk.RiskState.CalculateSize, Risk.RiskState.CanOpen, NetEdge, Times, Quotient;
    TimesZero(policy.sizeMultiplier);
    if quant != None { TimesZero(quant.value.multiplier); }
    TimesSign(base, policy.sizeMultiplier);
    if quant != None { UpToThree(Times(base, policy.sizeMultiplier), quant.value.multiplier); }
  }

  /** The size is the base scaled by the policy's factor and by the quant engine's, 1 when it gave no answer. */
  lemma ComposedProduct(base: real, policy: real, quant: Option<QuantAnswer>)
    ensures Composed(base, policy, quant)
         == Times(Times(base, policy), if quant == None then 1.0 else quant.value.multiplier)
  {
    TimesOne(Times(base, policy));
    hide Times;
  }

  lemma RewardCovers(reward: real, risk: real, least: real)
    requires risk > 0.0 && Quotient(reward, risk) >= least
    ensures Times(least, risk) <= reward
  {
    MulMonotone(least, Quotient(reward, risk), risk);
  }

  lemma UpToThree(a: real, m: real)
    requires a >= 0.0 && m <= 3.0
    ensures Times(a, m) <= 3.0 * a
  {
    MulMonotone(m, 3.0, a);
  }
}
