/** The shared risk manager (src/execution/risk.rs): accounting, trip latch, freeze, sizing.
    `RiskState` holds what the mutex guards; `RiskManager` is the object whose methods update
    it. Reason strings are not modelled. */
module Risk {
  import opened Reals

  datatype RiskLimits = RiskLimits(
    riskPerTradePct: real,
    maxOpenPositions: nat,
    maxDailyLossPct: real,
    maxDrawdownPct: real,
    maxLeverage: nat,
    maxPositionNotionalPct: real)

  datatype OpenRefusal = Tripped | Frozen | TooManyOpen | Drawdown | DailyLoss

  datatype RiskState = RiskState(
    limits: RiskLimits,
    equity: real,
    peakEquity: real,
    openPositions: nat,
    realizedToday: real,
    tripped: bool,
    frozen: bool,
    sizeMultiplier: real,
    initialEquity: real)
  {
    function DrawdownPct(): real {
      if peakEquity > 0.0 then Max((peakEquity - equity) / peakEquity * 100.0, 0.0) else 0.0
    }

    function DailyLossPct(): real {
      if equity > 0.0 && realizedToday < 0.0 then -realizedToday / equity * 100.0 else 0.0
    }

    /** The two limits whose breach by a close trips the circuit. */
    predicate LimitMet() {
      DrawdownPct() >= limits.maxDrawdownPct || DailyLossPct() >= limits.maxDailyLossPct
    }

    predicate IsBlocked() { tripped || frozen }

    function Budget(): real { equity * limits.riskPerTradePct / 100.0 * sizeMultiplier }

    function LeverageBudget(): real { equity * limits.maxLeverage as real }

    function NotionalBudget(): real { equity * limits.maxPositionNotionalPct / 100.0 }

    function CalculateSize(entry: real, stopLoss: real): real {
      var perUnit := Abs(entry - stopLoss);
      if perUnit <= 0.0 then 0.0
      else
        var price := Max(entry, 0.000000001);
        Max(Min(Min(Budget() / perUnit, LeverageBudget() / price), NotionalBudget() / price), 0.0)
    }

    /** The last test divides by the equity as it stands: at zero equity an f64 loss becomes
        infinite and meets any limit, below zero the percentage is negative. */
    function CanOpen(): Option<OpenRefusal> {
      if tripped then Some(Tripped)
      else if frozen then Some(Frozen)
      else if openPositions >= limits.maxOpenPositions then Some(TooManyOpen)
      else if DrawdownPct() >= limits.maxDrawdownPct then Some(Drawdown)
      else if realizedToday < 0.0 && (equity == 0.0 || -realizedToday / equity * 100.0 >= limits.maxDailyLossPct)
        then Some(DailyLoss)
      else None
    }
  }

  function New(limits: RiskLimits, equity: real): RiskState {
    RiskState(limits, equity, equity, 0, 0.0, false, false, 1.0, equity)
  }

  datatype RiskOp =
    | Opened
    | Closed(pnl: real)
    | SetEquity(equity: real)
    | SetMultiplier(m: real)
    | Freeze
    | Unfreeze
    | ResetDaily

  function Apply(s: RiskState, op: RiskOp): RiskState {
    match op
    case Opened => s.(openPositions := s.openPositions + 1)
    case Closed(pnl) =>
      var t := s.(openPositions := if s.openPositions > 0 then s.openPositions - 1 else 0,
                  realizedToday := s.realizedToday + pnl,
                  equity := s.equity + pnl,
                  peakEquity := Max(s.equity + pnl, s.peakEquity));
      t.(tripped := s.tripped || t.LimitMet())
    case SetEquity(e) => s.(equity := e, peakEquity := Max(e, s.peakEquity))
    case SetMultiplier(m) => s.(sizeMultiplier := Clamp(m, 0.0, 2.0))
    case Freeze => s.(frozen := true)
    case Unfreeze => s.(frozen := false)
    case ResetDaily => s.(realizedToday := 0.0, tripped := false)
  }

  /** The state after a history of operations, oldest first. */
  function Replay(s: RiskState, ops: seq<RiskOp>): RiskState
  {
    if |ops| == 0 then s else Apply(Replay(s, ops[..|ops| - 1]), ops[|ops| - 1])
  }

  class RiskManager {
    const limits: RiskLimits
    const initialEquity: real
    var equity: real
    var peakEquity: real
    var openPositions: nat
    var realizedToday: real
    var tripped: bool
    var frozen: bool
    var sizeMultiplier: real
    ghost const start: RiskState
    ghost var history: seq<RiskOp>

    function State(): RiskState reads this {
      RiskState(limits, equity, peakEquity, openPositions, realizedToday, tripped, frozen, sizeMultiplier,
          initialEquity)
    }

    /** The fields are what the recorded operations make of the initial state. */
    ghost predicate Valid() reads this { State() == Replay(start, history) }

    constructor (limits: RiskLimits, equity: real)
      ensures Valid() && history == [] && start == New(limits, equity)
    {
      this.limits, this.initialEquity := limits, equity;
      this.equity, peakEquity, openPositions, realizedToday := equity, equity, 0, 0.0;
      tripped, frozen, sizeMultiplier := false, false, 1.0;
      start, history := New(limits, equity), [];
    }

    ghost method Record(op: RiskOp)
      requires State() == Apply(Replay(start, history), op)
      modifies this`history
      ensures Valid() && history == old(history) + [op] && State() == old(State())
    {
      assert (history + [op])[..|history|] == history;
      history := history + [op];
    }

    method OnPositionOpened()
      requires Valid()
      modifies this
      ensures Valid() && history == old(history) + [Opened] && State() == Apply(old(State()), Opened)
    {
      openPositions := openPositions + 1;
      Record(Opened);
    }

    method OnPositionClosed(pnl: real)
      requires Valid()
      modifies this
      ensures Valid() && history == old(history) + [Closed(pnl)] && State() == Apply(old(State()), Closed(pnl))
    {
      hide RiskState.DrawdownPct, RiskState.DailyLossPct;
      if openPositions > 0 { openPositions := openPositions - 1; }
      realizedToday := realizedToday + pnl;
      equity := equity + pnl;
      if equity > peakEquity { peakEquity := equity; }
      var account := State();
      var dd := account.DrawdownPct();
      if dd >= limits.maxDrawdownPct && !tripped { tripped := true; }
      var lossPct := account.DailyLossPct();
      if lossPct >= limits.maxDailyLossPct && !tripped { tripped := true; }
      Record(Closed(pnl));
    }

    method SetEquity(e: real)
      requires Valid()
      modifies this
      ensures Valid() && history == old(history) + [RiskOp.SetEquity(e)]
      ensures State() == Apply(old(State()), RiskOp.SetEquity(e))
    {
      equity := e;
      if e > peakEquity { peakEquity := e; }
      Record(RiskOp.SetEquity(e));
    }

    method SetSizeMultiplier(m: real)
      requires Valid()
      modifies this
      ensures Valid() && history == old(history) + [SetMultiplier(m)]
      ensures State() == Apply(old(State()), SetMultiplier(m))
    {
      sizeMultiplier := Clamp(m, 0.0, 2.0);
      Record(SetMultiplier(m));
    }

    method Freeze()
      requires Valid()
      modifies this
      ensures Valid() && history == old(history) + [RiskOp.Freeze] && State() == Apply(old(State()), RiskOp.Freeze)
    {
      frozen := true;
      Record(RiskOp.Freeze);
    }

    method Unfreeze()
      requires Valid()
      modifies this
      ensures Valid() && history == old(history) + [RiskOp.Unfreeze] && State() == Apply(old(State()), RiskOp.Unfreeze)
    {
      frozen := false;
      Record(RiskOp.Unfreeze);
    }

    method ResetDaily()
      requires Valid()
      modifies this
      ensures Valid() && history == old(history) + [RiskOp.ResetDaily]
      ensures State() == Apply(old(State()), RiskOp.ResetDaily)
    {
      realizedToday := 0.0;
      tripped := false;
      Record(RiskOp.ResetDaily);
    }
  }

  // ---- Every history ----

  /** The pnl of every close, oldest first. */
  function Pnls(ops: seq<RiskOp>): seq<real>
  {
    if |ops| == 0 then []
    else Pnls(ops[..|ops| - 1]) + (if ops[|ops| - 1].Closed? then [ops[|ops| - 1].pnl] else [])
  }

  ghost predicate NoSetEquity(ops: seq<RiskOp>) { forall op :: op in ops ==> !op.SetEquity? }

  /** Without a broker refresh (paper mode) equity is conserved: initial plus the sum of the closes. */
  lemma {:induction false} EquityConserved(s: RiskState, ops: seq<RiskOp>)
    requires NoSetEquity(ops)
    ensures Replay(s, ops).equity == s.equity + Sum(Pnls(ops))
    ensures Replay(s, ops).limits == s.limits && Replay(s, ops).initialEquity == s.initialEquity
  {
    if |ops| > 0 {
      hide Sum, RiskState.LimitMet;
      EquityConserved(s, ops[..|ops| - 1]);
      if ops[|ops| - 1].Closed? {
        SumSnoc(Pnls(ops[..|ops| - 1]), ops[|ops| - 1].pnl);
      } else {
        assert Pnls(ops) == Pnls(ops[..|ops| - 1]);
      }
    }
  }

  lemma PeakStep(s: RiskState, op: RiskOp)
    requires s.equity <= s.peakEquity
    ensures Apply(s, op).peakEquity == Max(Apply(s, op).equity, s.peakEquity)
  {
  }

  /** The peak is the largest equity ever held: an upper bound that some prefix of the history attains. */
  lemma {:induction false} PeakIsRunningMaximum(s: RiskState, ops: seq<RiskOp>) returns (at: nat)
    requires s.peakEquity == s.equity
    ensures forall k :: 0 <= k <= |ops| ==> Replay(s, ops[..k]).equity <= Replay(s, ops).peakEquity
    ensures at <= |ops| && Replay(s, ops[..at]).equity == Replay(s, ops).peakEquity
  {
    assert ops[..|ops|] == ops;
    if |ops| == 0 {
      at := 0;
    } else {
      var front := ops[..|ops| - 1];
      at := PeakIsRunningMaximum(s, front);
      assert front[..|front|] == front;
      PeakStep(Replay(s, front), ops[|ops| - 1]);
      hide Apply;
      assert front[..at] == ops[..at];
      forall k | 0 <= k < |ops| ensures Replay(s, ops[..k]).equity <= Replay(s, front).peakEquity {
        assert front[..k] == ops[..k];
      }
      if Replay(s, ops).peakEquity != Replay(s, front).peakEquity { at := |ops|; }
    }
  }

  /** The k-th operation is a close that left the account at a limit, with no reset after it. */
  ghost predicate MetAndKept(s: RiskState, ops: seq<RiskOp>, k: int) {
    && 0 <= k < |ops| && ops[k].Closed? && Replay(s, ops[..k + 1]).LimitMet()
    && forall j :: k < j < |ops| ==> !ops[j].ResetDaily?
  }

  lemma LatchStep(s: RiskState, ops: seq<RiskOp>)
    requires |ops| > 0
    ensures var n := |ops| - 1;
      Replay(s, ops).tripped <==>
        !ops[n].ResetDaily? && (Replay(s, ops[..n]).tripped || (ops[n].Closed? && Replay(s, ops).LimitMet()))
  {
  }

  lemma MetStep(s: RiskState, ops: seq<RiskOp>, k: int)
    requires |ops| > 0
    ensures var n := |ops| - 1;
      && (k < n ==> (MetAndKept(s, ops, k) <==> MetAndKept(s, ops[..n], k) && !ops[n].ResetDaily?))
      && (k == n ==> (MetAndKept(s, ops, k) <==> ops[n].Closed? && Replay(s, ops).LimitMet()))
  {
    hide Apply;
    var n := |ops| - 1;
    assert ops[..n + 1] == ops;
    if 0 <= k < n {
      assert ops[..n][..k + 1] == ops[..k + 1];
      assert ops[..n][k] == ops[k];
    }
  }

  /** The latch is set exactly when some close since the last reset left the account at a limit. */
  lemma {:induction false} TrippedIff(s: RiskState, ops: seq<RiskOp>)
    requires !s.tripped
    ensures Replay(s, ops).tripped <==> exists k :: MetAndKept(s, ops, k)
  {
    if |ops| > 0 {
      var n := |ops| - 1;
      TrippedIff(s, ops[..n]);
      LatchStep(s, ops);
      forall k ensures MetAndKept(s, ops, k) <==>
          if k < n then MetAndKept(s, ops[..n], k) && !ops[n].ResetDaily?
          else k == n && ops[n].Closed? && Replay(s, ops).LimitMet()
      {
        MetStep(s, ops, k);
      }
      hide Replay, Apply;
      if ops[n].Closed? && Replay(s, ops).LimitMet() { assert MetAndKept(s, ops, n); }
      if !ops[n].ResetDaily? && exists k :: MetAndKept(s, ops[..n], k) {
        var k :| MetAndKept(s, ops[..n], k);
        assert MetAndKept(s, ops, k);
      }
    }
  }

  lemma PercentReached(part: real, whole: real, pct: real)
    requires whole > 0.0
    ensures part / whole * 100.0 >= pct <==> 100.0 * part >= pct * whole
  {
    var q := part / whole;
    assert q * whole == part;
    if q * 100.0 >= pct { MulMonotone(pct, q * 100.0, whole); } else { MulPositive(pct - q * 100.0, whole); }
  }

  /** Positive limits are met exactly when the equity has fallen from its peak by the drawdown percentage of the peak,
      or the day has lost the daily percentage of the equity as it stands. */
  lemma LimitMetIff(s: RiskState)
    requires s.limits.maxDrawdownPct > 0.0 && s.limits.maxDailyLossPct > 0.0
    ensures s.LimitMet() <==>
              || (s.peakEquity > 0.0 && 100.0 * (s.peakEquity - s.equity) >= s.limits.maxDrawdownPct * s.peakEquity)
              || (s.equity > 0.0 && 100.0 * (0.0 - s.realizedToday) >= s.limits.maxDailyLossPct * s.equity)
  {
    if s.peakEquity > 0.0 { PercentReached(s.peakEquity - s.equity, s.peakEquity, s.limits.maxDrawdownPct); }
    if s.equity > 0.0 {
      PercentReached(0.0 - s.realizedToday, s.equity, s.limits.maxDailyLossPct);
      MulPositive(s.limits.maxDailyLossPct, s.equity);
    }
  }

  // ---- Sizing ----

  /** A zero multiplier sizes every entry at zero, whatever the equity, price and limits. */
  lemma ZeroMultiplierZeroSize(s: RiskState, entry: real, stopLoss: real)
    requires s.sizeMultiplier == 0.0
    ensures s.CalculateSize(entry, stopLoss) == 0.0
  {
    assert s.Budget() == 0.0;
  }

  lemma SizeNonNegative(s: RiskState, entry: real, stopLoss: real)
    ensures s.CalculateSize(entry, stopLoss) >= 0.0
  {
  }

  /** The size is the largest quantity that, stopped out, loses no more than the risk percentage of the equity scaled
      by the multiplier, and whose notional stays within the leverage and the notional percentage. */
  lemma SizeIsLargest(s: RiskState, entry: real, stopLoss: real, q: real)
    requires entry >= 0.000000001 && entry != stopLoss && q > 0.0
    ensures q <= s.CalculateSize(entry, stopLoss) <==>
              && 100.0 * (q * Abs(entry - stopLoss)) <= s.equity * s.limits.riskPerTradePct * s.sizeMultiplier
              && q * entry <= s.equity * s.limits.maxLeverage as real
              && 100.0 * (q * entry) <= s.equity * s.limits.maxPositionNotionalPct
  {
    BudgetScale(s);
    AtMostQuotient(q, s.Budget(), Abs(entry - stopLoss));
    AtMostQuotient(q, s.LeverageBudget(), entry);
    AtMostQuotient(q, s.NotionalBudget(), entry);
  }

  lemma BudgetScale(s: RiskState)
    ensures 100.0 * s.Budget() == s.equity * s.limits.riskPerTradePct * s.sizeMultiplier
    ensures 100.0 * s.NotionalBudget() == s.equity * s.limits.maxPositionNotionalPct
  {
    var x := s.equity * s.limits.riskPerTradePct;
    assert 100.0 * (x / 100.0 * s.sizeMultiplier) == x * s.sizeMultiplier;
  }

  lemma AtMostQuotient(q: real, x: real, y: real)
    requires y > 0.0
    ensures q <= x / y <==> q * y <= x
  {
    var z := x / y;
    assert z * y == x;
    if q <= z { MulMonotone(q, z, y); } else { MulPositive(q - z, y); }
  }

  /** An entry is allowed only by an account that is neither tripped nor frozen, has a free slot and meets no limit. */
  lemma CanOpenOnlyWhenClear(s: RiskState)
    ensures s.CanOpen() == None ==> !s.IsBlocked() && s.openPositions < s.limits.maxOpenPositions
    ensures s.equity > 0.0 && s.limits.maxDailyLossPct > 0.0 ==>
              (s.CanOpen() == None <==> !s.IsBlocked() && s.openPositions < s.limits.maxOpenPositions && !s.LimitMet())
  {
  }
}
