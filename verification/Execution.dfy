/** The execution agent (src/agents/execution.rs): ticks close positions, verdicts open them, a flat-all
    closes everything. The exchange is a parameter (what it answers), and so is everything the other
    tasks do to the shared risk manager while this one awaits it (paper mode: no equity refresh). */
module Execution {
  import opened Reals
  import opened Positions
  import Risk
  import SurvivalScore

  datatype Proposal = Proposal(symbol: string, side: Side, entry: real, stop: real, target: real, size: real)

  datatype ManagerAction = Approve | Veto | Adjust(sizeMultiplier: real, slOffsetBps: real, tpOffsetBps: real)

  datatype ManagerVerdict = ManagerVerdict(proposal: Proposal, action: ManagerAction)

  datatype OrderRequest = OrderRequest(
    clientId: string,
    symbol: string,
    side: Side,
    size: real,
    price: real,
    stop: real,
    target: real)

  datatype BusEvent =
    | PositionClosed(
        clientId: string,
        symbol: string,
        side: Side,
        size: real,
        entry: real,
        exitPrice: real,
        pnl: real,
        reason: ExitReason)
    | OrderFilled(clientId: string, symbol: string, side: Side, size: real)

  const POSITION_CONFIG := PositionConfig(1800, 0.5, 1.0, 0.5)

  function BpsOffset(entry: real, bps: real, side: Side): real {
    var raw := Times(entry, bps / 10000.0);
    if side == Long then raw else 0.0 - raw
  }

  /** The client id is a hash of the proposal and the minute, so it is a parameter. */
  function BuildEntryRequest(v: ManagerVerdict, id: string): OrderRequest {
    var p := v.proposal;
    match v.action
    case Adjust(m, sl, tp) =>
      OrderRequest(id, p.symbol, p.side, Times(p.size, m), p.entry,
                   p.stop + BpsOffset(p.entry, sl, p.side), p.target + BpsOffset(p.entry, tp, p.side))
    case _ => OrderRequest(id, p.symbol, p.side, p.size, p.entry, p.stop, p.target)
  }

  /** The position recorded for a fill; the exchange may report no average price. */
  function OpenedPosition(req: OrderRequest, avgFillPrice: real, now: int): Position {
    Position(req.clientId, req.symbol, req.side, req.size, if avgFillPrice > 0.0 then avgFillPrice else req.price,
             req.stop, req.target, now, false, 0.0, false)
  }

  /** The level lies `bps` basis points of the entry price further in the trade's favour than it did. */
  predicate MovedBy(side: Side, before: real, after: real, entry: real, bps: real) {
    10000.0 * (if side == Long then after - before else before - after) == Times(entry, bps)
  }

  /** What a verdict asks for: the proposal's trade, with the manager's factor on its size and his offsets on its
      stop and target if he adjusts it. */
  predicate Asked(v: ManagerVerdict, symbol: string, side: Side, size: real, stop: real, target: real) {
    && symbol == v.proposal.symbol && side == v.proposal.side
    && match v.action
       case Adjust(m, sl, tp) =>
         && size == Times(v.proposal.size, m)
         && MovedBy(side, v.proposal.stop, stop, v.proposal.entry, sl)
         && MovedBy(side, v.proposal.target, target, v.proposal.entry, tp)
       case _ => size == v.proposal.size && stop == v.proposal.stop && target == v.proposal.target
  }

  /** The position a verdict leads to: what it asks for, at the price it was filled at, with nothing armed. */
  predicate EntersAs(p: Position, v: ManagerVerdict, id: string, avgFillPrice: real, now: int) {
    && Asked(v, p.symbol, p.side, p.size, p.stop, p.target)
    && p.clientId == id && p.openedAt == now && !p.trailing && !p.breakeven && p.atr == 0.0
    && p.entry == if avgFillPrice > 0.0 then avgFillPrice else v.proposal.entry
  }

  function CloseEvent(p: Position, exitPrice: real, reason: ExitReason): BusEvent {
    PositionClosed(p.clientId, p.symbol, p.side, p.size, p.entry, exitPrice, PnlUsd(p, exitPrice), reason)
  }

  /** What other tasks may do to the risk manager during one await. */
  predicate FromOutside(op: Risk.RiskOp) { op.Freeze? || op.Unfreeze? || op.SetMultiplier? || op.ResetDaily? }

  ghost predicate AllFromOutside(ops: seq<Risk.RiskOp>) { forall i :: 0 <= i < |ops| ==> FromOutside(ops[i]) }

  /** Interference per await of one handler call, in order; awaits beyond the list see none. */
  type Interference = seq<seq<Risk.RiskOp>>

  function During(env: Interference, k: nat): seq<Risk.RiskOp> { if k < |env| then env[k] else [] }

  ghost predicate Outside(env: Interference) { forall k :: 0 <= k < |env| ==> AllFromOutside(env[k]) }

  datatype Input =
    | PriceTick(symbol: string, price: real, now: int, env: Interference)
    | FlatAll(env: Interference)
    | SurvivalUpdated(mode: SurvivalScore.SurvivalMode)
    | Verdict(verdict: ManagerVerdict, id: string, ack: Option<real>, now: int, env: Interference)

  // ---- Accounting of a log ----

  function ClosedIds(log: seq<BusEvent>): seq<string>
  {
    if |log| == 0 then []
    else ClosedIds(log[..|log| - 1]) + (if log[|log| - 1].PositionClosed? then [log[|log| - 1].clientId] else [])
  }

  function ClosedPnls(log: seq<BusEvent>): seq<real>
  {
    if |log| == 0 then []
    else ClosedPnls(log[..|log| - 1]) + (if log[|log| - 1].PositionClosed? then [log[|log| - 1].pnl] else [])
  }

  function Ids(ps: seq<Position>): (r: seq<string>)
    ensures |r| == |ps|
  {
    seq(|ps|, i requires 0 <= i < |ps| => ps[i].clientId)
  }

  /** Per client id: held at the start + fills == closed + overwritten by a repeated id + still held. */
  ghost predicate Balanced(start: set<string>, fills: seq<Position>, log: seq<BusEvent>,
                           overwritten: multiset<string>, held: multiset<string>) {
    multiset(start) + multiset(Ids(fills)) == multiset(ClosedIds(log)) + overwritten + held
  }

  /** A position that was held at the start or fills since, as it was then. */
  ghost predicate Known(q: Position, start: Book, fills: seq<Position>) {
    (exists id :: id in start && SameTrade(start[id], q)) || (exists i :: 0 <= i < |fills| && SameTrade(fills[i], q))
  }

  /** Every published close reports a known trade and that trade's profit at the exit price. */
  ghost predicate Genuine(e: BusEvent, start: Book, fills: seq<Position>) {
    e.PositionClosed? ==> exists p :: Known(p, start, fills) && e == CloseEvent(p, e.exitPrice, e.reason)
  }

  class ExecutionAgent {
    const risk: Risk.RiskManager
    const book: PositionBook
    const honorSurvival: bool
    var marks: map<string, real>
    var survival: Option<SurvivalScore.SurvivalMode>
    var log: seq<BusEvent>
    ghost const startBook: Book
    ghost const origin: Risk.RiskState
    ghost var ops: seq<Risk.RiskOp>
    ghost var fills: seq<Position>
    ghost var overwritten: multiset<string>

    /** Everything but the book: the account is the replay of its operations, whose closes are the published ones. */
    ghost predicate Consistent() reads this, risk {
      && risk.Valid() && risk.State() == Risk.Replay(origin, ops)
      && Risk.NoSetEquity(ops) && Risk.Pnls(ops) == ClosedPnls(log)
      && (forall k :: 0 <= k < |log| ==> Genuine(log[k], startBook, fills))
    }

    ghost predicate Holds(held: multiset<string>) reads this, risk {
      && Balanced(startBook.Keys, fills, log, overwritten, held)
      && risk.openPositions == |held| + |overwritten|
    }

    ghost predicate BookKnown() reads this, book {
      book.Valid() && forall id :: id in book.book ==> Known(book.book[id], startBook, fills)
    }

    ghost predicate Valid() reads this, risk, book {
      Consistent() && Holds(multiset(book.book.Keys)) && BookKnown()
    }

    constructor (risk: Risk.RiskManager, book: PositionBook, honorSurvival: bool)
      requires risk.Valid() && book.Valid() && risk.openPositions == |book.book|
      ensures Valid() && this.risk == risk && this.book == book && this.honorSurvival == honorSurvival
      ensures log == [] && fills == [] && overwritten == multiset{} && survival == None
      ensures startBook == book.book && origin == risk.State() && ops == []
    {
      this.risk, this.book, this.honorSurvival := risk, book, honorSurvival;
      marks, survival, log := map[], None, [];
      startBook, origin, ops, fills, overwritten := book.book, risk.State(), [], [], multiset{};
    }

    ghost method Note(op: Risk.RiskOp)
      requires risk.State() == Risk.Apply(Risk.Replay(origin, ops), op)
      modifies this`ops
      ensures ops == old(ops) + [op] && risk.State() == Risk.Replay(origin, ops)
    {
      assert (ops + [op])[..|ops|] == ops;
      ops := ops + [op];
    }

    /** The account follows its operations; nothing here came from a broker refresh. */
    ghost predicate Tracked() reads this, risk {
      risk.Valid() && risk.State() == Risk.Replay(origin, ops) && Risk.NoSetEquity(ops)
    }

    /** The other tasks run while this one awaits the exchange. */
    method Await(outside: seq<Risk.RiskOp>)
      requires Tracked() && AllFromOutside(outside)
      modifies risk, this`ops
      ensures Tracked() && ops == old(ops) + outside && Risk.Pnls(ops) == old(Risk.Pnls(ops))
      ensures risk.openPositions == old(risk.openPositions)
    {
      hide Risk.Replay, Risk.Pnls, Risk.NoSetEquity, Risk.RiskState.LimitMet;
      for i := 0 to |outside|
        invariant Tracked() && ops == old(ops) + outside[..i] && Risk.Pnls(ops) == old(Risk.Pnls(ops))
        invariant risk.openPositions == old(risk.openPositions)
      {
        var op := outside[i];
        PnlsSnoc(ops, op);
        assert FromOutside(op);
        match op {
          case Freeze => risk.Freeze();
          case Unfreeze => risk.Unfreeze();
          case SetMultiplier(m) => risk.SetSizeMultiplier(m);
          case ResetDaily => risk.ResetDaily();
        }
        Note(op);
      }
      assert outside[..|outside|] == outside;
    }

    /** One position's profit is booked with the account. */
    method Settle(pnl: real)
      requires Tracked() && risk.openPositions > 0
      modifies risk, this`ops
      ensures Tracked() && ops == old(ops) + [Risk.Closed(pnl)] && Risk.Pnls(ops) == old(Risk.Pnls(ops)) + [pnl]
      ensures risk.openPositions == old(risk.openPositions) - 1
    {
      hide Risk.Replay, Risk.Pnls, Risk.NoSetEquity, Risk.RiskState.LimitMet;
      PnlsSnoc(ops, Risk.Closed(pnl));
      risk.OnPositionClosed(pnl);
      Note(Risk.Closed(pnl));
    }

    method PublishClose(p: Position, exitPrice: real, reason: ExitReason, ghost held: multiset<string>)
      requires Known(p, startBook, fills)
      requires forall k :: 0 <= k < |log| ==> Genuine(log[k], startBook, fills)
      requires Balanced(startBook.Keys, fills, log, overwritten, held + multiset{p.clientId})
      modifies this`log
      ensures log == old(log) + [CloseEvent(p, exitPrice, reason)]
      ensures forall k :: 0 <= k < |log| ==> Genuine(log[k], startBook, fills)
      ensures Balanced(startBook.Keys, fills, log, overwritten, held)
      ensures ClosedPnls(log) == old(ClosedPnls(log)) + [PnlUsd(p, exitPrice)]
    {
      hide Known, PnlUsd;
      var e := CloseEvent(p, exitPrice, reason);
      assert Genuine(e, startBook, fills);
      ClosedSnoc(log, e);
      log := log + [e];
      hide Genuine;
    }

    method CloseExit(p: Position, reason: ExitReason, price: real, outside: seq<Risk.RiskOp>,
                     ghost held: multiset<string>)
      requires Consistent() && Holds(held + multiset{p.clientId})
      requires AllFromOutside(outside) && Known(p, startBook, fills)
      modifies this`log, this`ops, risk
      ensures Consistent() && Holds(held) && log == old(log) + [CloseEvent(p, price, reason)]
    {
      hide Risk.Replay, Risk.Pnls, Risk.NoSetEquity, Risk.RiskManager.Valid, Known, Genuine, Balanced, PnlUsd,
           ClosedPnls;
      Settle(PnlUsd(p, price));
      Await(outside);
      PublishClose(p, price, reason, held);
    }

    /** The loop over a tick's exits: each is settled, then published after the await. */
    method CloseExits(exits: seq<(Position, ExitReason)>, price: real, env: Interference, ghost kept: multiset<string>)
      requires Consistent() && Holds(kept + multiset(ExitIds(exits))) && Outside(env)
      requires forall k :: 0 <= k < |exits| ==> Known(exits[k].0, startBook, fills)
      modifies this`log, this`ops, risk
      ensures Consistent() && Holds(kept) && log == old(log) + CloseEvents(exits, price)
    {
      hide Consistent, Holds, Known;
      assert exits[0..] == exits;
      for i := 0 to |exits|
        invariant Consistent() && Holds(kept + multiset(ExitIds(exits[i..])))
        invariant log == old(log) + CloseEvents(exits[..i], price)
      {
        var p, reason := exits[i].0, exits[i].1;
        assert exits[i..] == [exits[i]] + exits[i + 1..];
        ExitIdsCons(exits[i], exits[i + 1..]);
        ghost var held := kept + multiset(ExitIds(exits[i + 1..]));
        assert kept + multiset(ExitIds(exits[i..])) == held + multiset{p.clientId};
        OutsideDuring(env, i);
        CloseExit(p, reason, price, During(env, i), held);
        assert CloseEvents(exits[..i + 1], price) == CloseEvents(exits[..i], price) + [CloseEvent(p, price, reason)];
      }
      assert exits[|exits|..] == [] && exits[..|exits|] == exits;
      assert kept + multiset(ExitIds(exits[|exits|..])) == kept;
    }

    /** A tick closes exactly the exiting positions of its symbol, each once, at its price. */
    method OnTick(symbol: string, price: real, now: int, env: Interference)
      requires Valid() && Outside(env)
      modifies this`marks, this`log, this`ops, risk, book
      ensures Valid()
      ensures price <= 0.0 ==> book.book == old(book.book) && log == old(log) && ops == old(ops)
      ensures price > 0.0 ==>
                && marks == old(marks)[symbol := price]
                && book.book == AfterTick(old(book.book), symbol, price, now, POSITION_CONFIG)
                && PublishesExits(old(log), log, old(book.book), symbol, price, now)
    {
      hide Risk.Replay, Risk.Pnls, Risk.NoSetEquity, Risk.RiskManager.Valid, Known, Genuine, Balanced, AfterTick,
           ListsExits, ClosedPnls, CloseEvents;
      if price <= 0.0 { return; }
      marks := marks[symbol := price];
      ghost var was := book.book;
      var exits := book.CheckExits(symbol, price, now, POSITION_CONFIG);
      ExitsLeave(exits, was, symbol, price, now, POSITION_CONFIG);
      ExitsKnown(exits, was, symbol, price, now, POSITION_CONFIG, startBook, fills);
      SteppedKnown(was, symbol, price, now, POSITION_CONFIG, startBook, fills);
      CloseExits(exits, price, env, multiset(book.book.Keys));
    }

    /** A flat-all closes every position it finds, at the last mark of its symbol or else at its entry; the book is
        empty. */
    method OnFlatAll(env: Interference)
      requires Valid() && Outside(env)
      modifies this`log, this`ops, risk, book
      ensures Valid() && book.book == map[]
      ensures PublishesFlat(old(log), log, old(book.book), marks)
      ensures forall k :: |old(log)| <= k < |log| ==>
                && log[k].PositionClosed? && log[k].reason == Manual
                && log[k].exitPrice == if log[k].symbol in marks then marks[log[k].symbol] else log[k].entry
    {
      hide Valid, FlatEvent, FlatEvents, IdsOf;
      ghost var was := book.book;
      var positions := Positions();
      NothingFlat(marks);
      for i := 0 to |positions|
        invariant Valid() && book.book == was - IdsOf(positions[..i])
        invariant log == old(log) + FlatEvents(positions[..i], marks)
      {
        var p := positions[i];
        assert positions[..i + 1] == positions[..i] + [p];
        assert p in positions && p.clientId in was && was[p.clientId] == p;
        StillHeld(positions, i);
        FlatOne(p, env, 2 * i);
        FlatSnoc(positions[..i], p, marks);
      }
      assert positions[..|positions|] == positions;
      assert IdsOf(positions) == was.Keys by { AllListed(positions, was); }
      FlatPrices(positions, marks);
    }

    method Positions() returns (all: seq<Position>)
      requires Valid()
      ensures Keyed(book.book) && AllOnce(all, book.book)
    {
      hide Consistent, Holds, Known;
      all := book.Snapshot();
    }

    /** One position of a flat-all: cancel and market order, then settle at the mark, remove and publish. */
    method FlatOne(p: Position, env: Interference, k: nat)
      requires Valid() && Outside(env) && p.clientId in book.book && book.book[p.clientId] == p
      modifies this`log, this`ops, risk, book
      ensures Valid() && book.book == old(book.book) - {p.clientId}
      ensures log == old(log) + [FlatEvent(p, marks)]
    {
      hide Valid;
      AwaitTwice(During(env, k), During(env, k + 1), env, k);
      var mark := if p.symbol in marks then marks[p.symbol] else p.entry;
      CloseNow(p, mark);
    }

    /** The two awaits before a flat-all's close: cancelling the protective orders and sending the market order. */
    method AwaitTwice(first: seq<Risk.RiskOp>, second: seq<Risk.RiskOp>, ghost env: Interference, ghost k: nat)
      requires Valid() && Outside(env) && first == During(env, k) && second == During(env, k + 1)
      modifies this`ops, risk
      ensures Valid() && ops == old(ops) + first + second
    {
      hide Risk.Replay, Risk.Pnls, Risk.NoSetEquity, Risk.RiskManager.Valid, Known, Genuine, Balanced, ClosedPnls;
      OutsideDuring(env, k);
      OutsideDuring(env, k + 1);
      Await(first);
      Await(second);
    }

    /** Settles a held position, removes it and publishes it, without an await in between. */
    method CloseNow(p: Position, mark: real)
      requires Valid() && p.clientId in book.book && book.book[p.clientId] == p
      modifies this`log, this`ops, risk, book
      ensures Valid() && book.book == old(book.book) - {p.clientId}
      ensures log == old(log) + [CloseEvent(p, mark, Manual)]
    {
      hide Risk.Replay, Risk.Pnls, Risk.NoSetEquity, Risk.RiskManager.Valid, Known, Genuine, Balanced, ClosedPnls,
           PnlUsd;
      ghost var held := multiset(book.book.Keys - {p.clientId});
      assert multiset(book.book.Keys) == held + multiset{p.clientId};
      assert |multiset(book.book.Keys)| == |held| + 1;
      assert Known(p, startBook, fills);
      Settle(PnlUsd(p, mark));
      var closed := book.Close(p.clientId);
      match closed {
        case Some(c) =>
          assert book.book.Keys == old(book.book.Keys) - {p.clientId};
          PublishClose(c, mark, Manual, held);
        case None =>
      }
    }

    predicate Refused(v: ManagerVerdict) reads this, risk {
      || v.action.Veto?
      || v.proposal.entry <= 0.0 || v.proposal.size <= 0.0
      || (honorSurvival && survival != None && survival.value.Halts())
      || risk.tripped || risk.frozen
    }

    /** The account's part of an entry: one more open position. */
    method CountOpened()
      requires Consistent()
      modifies this`ops, risk
      ensures Consistent() && ops == old(ops) + [Risk.Opened] && risk.openPositions == old(risk.openPositions) + 1
    {
      hide Risk.Replay, Risk.Pnls, Risk.NoSetEquity, Risk.RiskState.LimitMet, Known, Genuine, ClosedPnls;
      PnlsSnoc(ops, Risk.Opened);
      risk.OnPositionOpened();
      Note(Risk.Opened);
    }

    /** The position enters the account and the book; an entry under the same id is overwritten. */
    method Enter(p: Position)
      requires Valid()
      modifies this`ops, this`fills, this`overwritten, risk, book
      ensures Valid() && ops == old(ops) + [Risk.Opened] && fills == old(fills) + [p]
      ensures book.book == old(book.book)[p.clientId := p]
      ensures overwritten == old(overwritten) + Again(old(book.book), p.clientId)
    {
      hide Risk.Replay, Risk.Pnls, Risk.NoSetEquity, Risk.RiskManager.Valid, Risk.RiskManager.State, Known, Genuine,
           Balanced, ClosedPnls, Again;
      CountOpened();
      FillBalances(startBook.Keys, fills, p, log, overwritten, book.book);
      MoreKnown(startBook, fills, p, log, book.book);
      overwritten := overwritten + Again(book.book, p.clientId);
      fills := fills + [p];
      book.Open(p);
    }

    method PublishFill(p: Position)
      requires Valid()
      modifies this`log
      ensures Valid() && log == old(log) + [OrderFilled(p.clientId, p.symbol, p.side, p.size)]
    {
      hide Risk.Replay, Risk.Pnls, Risk.NoSetEquity, Risk.RiskManager.Valid, Known, ClosedPnls;
      ClosedSnoc(log, OrderFilled(p.clientId, p.symbol, p.side, p.size));
      log := log + [OrderFilled(p.clientId, p.symbol, p.side, p.size)];
    }

    /** A verdict opens at most one position, and only past every gate; a repeated client id overwrites the
        book's entry while the open count still rises. */
    method OnVerdict(v: ManagerVerdict, id: string, ack: Option<real>, now: int, env: Interference)
      requires Valid() && Outside(env)
      modifies this`log, this`ops, this`fills, this`overwritten, risk, book
      ensures Valid()
      ensures old(Refused(v)) ==>
                log == old(log) && ops == old(ops) && fills == old(fills) && book.book == old(book.book)
      ensures fills != old(fills) ==>
                && !v.action.Veto? && v.proposal.entry > 0.0 && v.proposal.size > 0.0
                && !old(risk.tripped) && !old(risk.frozen)
                && (honorSurvival && old(survival) != None ==> !old(survival).value.Halts())
      ensures !old(Refused(v)) && ack == None ==>
                && log == old(log) && fills == old(fills) && book.book == old(book.book)
                && ops == old(ops) + During(env, 0)
      ensures !old(Refused(v)) && ack != None ==>
                var req := BuildEntryRequest(v, id);
                var p := OpenedPosition(req, ack.value, now);
                && p.entry > 0.0 && EntersAs(p, v, id, ack.value, now)
                && fills == old(fills) + [p] && book.book == old(book.book)[id := p]
                && log == old(log) + [OrderFilled(id, req.symbol, req.side, req.size)]
                && ops == old(ops) + During(env, 0) + [Risk.Opened]
                          + When(req.stop > 0.0, During(env, 1)) + When(req.target > 0.0, During(env, 2))
      ensures overwritten == if old(Refused(v)) || ack == None then old(overwritten)
                             else old(overwritten) + Again(old(book.book), id)
    {
      hide Valid, BpsOffset, Times, OpenedPosition, BuildEntryRequest, EntersAs;
      if v.action.Veto? { return; }
      if v.proposal.entry <= 0.0 || v.proposal.size <= 0.0 { return; }
      if honorSurvival && survival != None && survival.value.Halts() { return; }
      if risk.tripped || risk.frozen { return; }
      var req := BuildEntryRequest(v, id);
      EntryRequested(v, id);
      AwaitOnce(During(env, 0), env, 0);
      if ack == None { return; }
      var fillPrice := if ack.value > 0.0 then ack.value else req.price;
      if fillPrice <= 0.0 { return; }
      var p := OpenedPosition(req, ack.value, now);
      FilledAt(req, ack.value, now);
      OpensAsked(v, id, ack.value, now);
      Enter(p);
      if req.stop > 0.0 { AwaitOnce(During(env, 1), env, 1); }
      if req.target > 0.0 { AwaitOnce(During(env, 2), env, 2); }
      PublishFill(p);
    }

    method AwaitOnce(outside: seq<Risk.RiskOp>, ghost env: Interference, ghost k: nat)
      requires Valid() && Outside(env) && outside == During(env, k)
      modifies this`ops, risk
      ensures Valid() && ops == old(ops) + outside
    {
      hide Risk.Replay, Risk.Pnls, Risk.NoSetEquity, Risk.RiskManager.Valid, Known, Genuine, Balanced, ClosedPnls;
      OutsideDuring(env, k);
      Await(outside);
    }

    method OnSurvivalUpdated(mode: SurvivalScore.SurvivalMode)
      requires Valid()
      modifies this`survival
      ensures Valid() && survival == Some(mode)
    {
      hide Risk.Replay, Risk.Pnls, Risk.NoSetEquity, Risk.RiskManager.Valid, Known, Genuine, Balanced, ClosedPnls;
      survival := Some(mode);
    }

    /** One turn of the event loop. */
    method Handle(input: Input)
      requires Valid() && OutsideInput(input)
      modifies this, risk, book
      ensures Valid()
      ensures input.Verdict? && input.id !in old(book.book) ==> overwritten == old(overwritten)
      ensures !input.Verdict? ==> overwritten == old(overwritten)
      ensures book.book.Keys <= old(book.book.Keys) + (if input.Verdict? then {input.id} else {})
    {
      hide Valid, PublishesExits, PublishesFlat, BuildEntryRequest;
      match input {
        case PriceTick(symbol, price, now, env) => OnTick(symbol, price, now, env);
        case FlatAll(env) => OnFlatAll(env);
        case SurvivalUpdated(mode) => OnSurvivalUpdated(mode);
        case Verdict(v, id, ack, now, env) => OnVerdict(v, id, ack, now, env);
      }
    }

    /** Any inputs, with any interference at every await: the accounts stay valid throughout, and as long as no
        client id is reused nothing is overwritten. */
    method Run(inputs: seq<Input>)
      requires Valid() && forall k :: 0 <= k < |inputs| ==> OutsideInput(inputs[k])
      modifies this, risk, book
      ensures Valid()
      ensures NoReuse(inputs, old(book.book.Keys)) ==> overwritten == old(overwritten)
    {
      hide Valid, OutsideInput;
      ghost var start := book.book.Keys;
      for i := 0 to |inputs|
        invariant Valid()
        invariant book.book.Keys <= start + VerdictIds(inputs[..i])
        invariant NoReuse(inputs, start) ==> overwritten == old(overwritten)
      {
        assert inputs[..i + 1] == inputs[..i] + [inputs[i]];
        VerdictIdsSnoc(inputs[..i], inputs[i]);
        if NoReuse(inputs, start) && inputs[i].Verdict? { NotUsedYet(inputs, start, i); }
        Handle(inputs[i]);
      }
    }

    /** What a valid agent's books say, after any run: equity is the initial equity plus the published profits; the open
        count is the positions held plus the overwritten ones; fills, closes and positions balance; the trip latch and
        the peak are those of the published closes. */
    lemma Accounts()
      requires Valid()
      ensures risk.equity == origin.equity + Sum(ClosedPnls(log))
      ensures risk.openPositions == |book.book| + |overwritten|
      ensures |startBook| + |fills| == |ClosedIds(log)| + |overwritten| + |book.book|
      ensures !origin.tripped ==> (risk.tripped <==> exists k :: Risk.MetAndKept(origin, ops, k))
    {
      hide Known, Genuine, Risk.Replay, Risk.Pnls, Risk.NoSetEquity, ClosedPnls, ClosedIds;
      Risk.EquityConserved(origin, ops);
      if !origin.tripped { Risk.TrippedIff(origin, ops); }
      assert |multiset(startBook.Keys)| == |startBook| && |multiset(book.book.Keys)| == |book.book|;
      assert |multiset(Ids(fills))| == |fills| && |multiset(ClosedIds(log))| == |ClosedIds(log)|;
      var all := multiset(startBook.Keys) + multiset(Ids(fills));
      assert |all| == |startBook| + |fills|;
    }

    /** The peak is the largest value of the initial equity plus the first j published profits, over all j. */
    lemma PeakOfPublished() returns (j: nat)
      requires Valid() && origin.peakEquity == origin.equity
      ensures forall k :: 0 <= k <= |ClosedPnls(log)| ==> origin.equity + Sum(ClosedPnls(log)[..k]) <= risk.peakEquity
      ensures j <= |ClosedPnls(log)| && origin.equity + Sum(ClosedPnls(log)[..j]) == risk.peakEquity
    {
      hide Known, Genuine, Balanced, Risk.Replay, ClosedPnls, Risk.RiskManager.Valid, Sum;
      var at := Risk.PeakIsRunningMaximum(origin, ops);
      var pnls := ClosedPnls(log);
      j := PrefixOfPnls(ops, at);
      PrefixTracked(ops, at);
      Risk.EquityConserved(origin, ops[..at]);
      forall k | 0 <= k <= |pnls| ensures origin.equity + Sum(pnls[..k]) <= risk.peakEquity {
        var m := PnlsReached(ops, k);
        PrefixTracked(ops, m);
        Risk.EquityConserved(origin, ops[..m]);
      }
    }

    /** Every profit the agent ever publishes is fair. */
    lemma PublishedProfits(k: nat)
      requires Valid() && k < |log| && log[k].PositionClosed? && log[k].size > 0.0
      ensures FairProfit(log[k])
    {
      hide Risk.Replay, Risk.Pnls, Risk.NoSetEquity, Risk.RiskManager.Valid, Known, Balanced, ClosedPnls, FairProfit;
      assert Genuine(log[k], startBook, fills);
      var e := log[k];
      var p :| Known(p, startBook, fills) && e == CloseEvent(p, e.exitPrice, e.reason);
      CloseIsFair(p, e.exitPrice, e.reason);
    }

    /** With distinct client ids every fill is closed at most once, and the count of open positions is exact. */
    lemma AtMostOneClose(id: string)
      requires Valid() && overwritten == multiset{}
      requires (forall i, j :: 0 <= i < j < |fills| ==> fills[i].clientId != fills[j].clientId)
      requires forall i :: 0 <= i < |fills| ==> fills[i].clientId !in startBook
      ensures multiset(ClosedIds(log))[id] <= 1
      ensures multiset(ClosedIds(log))[id] == 1 ==> id !in book.book
      ensures risk.openPositions == |book.book| == |startBook| + |fills| - |ClosedIds(log)|
    {
      Accounts();
      hide Consistent, Known, ClosedIds;
      DistinctCount(Ids(fills), id);
      var all := multiset(startBook.Keys) + multiset(Ids(fills));
      assert all[id] <= 1 by {
        if id in Ids(fills) { var i :| 0 <= i < |fills| && Ids(fills)[i] == id; assert fills[i].clientId == id; }
      }
      assert all[id] == multiset(ClosedIds(log))[id] + multiset(book.book.Keys)[id];
    }
  }

  /** The request sent for a verdict is what the verdict asks for. */
  lemma EntryRequested(v: ManagerVerdict, id: string)
    ensures var req := BuildEntryRequest(v, id);
      && req.price == v.proposal.entry && req.clientId == id
      && Asked(v, req.symbol, req.side, req.size, req.stop, req.target)
  {
    if v.action.Adjust? {
      OffsetMoves(v.proposal.entry, v.action.slOffsetBps, v.proposal.side, v.proposal.stop);
      OffsetMoves(v.proposal.entry, v.action.tpOffsetBps, v.proposal.side, v.proposal.target);
      hide BpsOffset, Times, MovedBy;
    }
  }

  lemma OffsetMoves(entry: real, bps: real, side: Side, level: real)
    ensures MovedBy(side, level, level + BpsOffset(entry, bps, side), entry, bps)
  {
    assert 10000.0 * (entry * (bps / 10000.0)) == entry * bps;
  }

  lemma OpensAsked(v: ManagerVerdict, id: string, avgFillPrice: real, now: int)
    ensures EntersAs(OpenedPosition(BuildEntryRequest(v, id), avgFillPrice, now), v, id, avgFillPrice, now)
  {
    EntryRequested(v, id);
    hide BuildEntryRequest, MovedBy, Times;
  }

  /** An approval asks for what a neutral adjustment asks for. */
  lemma NeutralIsApproval(p: Proposal, symbol: string, side: Side, size: real, stop: real, target: real)
    ensures Asked(ManagerVerdict(p, Adjust(1.0, 0.0, 0.0)), symbol, side, size, stop, target)
       <==> Asked(ManagerVerdict(p, Approve), symbol, side, size, stop, target)
  {
  }

  /** A positive offset moves a level in the trade's favour, on both sides; a negative one against it. */
  lemma OffsetFavours(side: Side, before: real, after: real, entry: real, bps: real)
    requires MovedBy(side, before, after, entry, bps) && entry > 0.0
    ensures if side == Long then (after > before <==> bps > 0.0) && (after < before <==> bps < 0.0)
            else (after < before <==> bps > 0.0) && (after > before <==> bps < 0.0)
  {
    TimesSigns(bps, entry);
    assert Times(entry, bps) == Times(bps, entry);
    hide Times;
  }

  /** A proposal with its stop on the losing side of the fill, approved, opens a fresh position: the stop ratchet and
      the exit rules speak of it. */
  lemma ApprovedIsFresh(p: Position, v: ManagerVerdict, id: string, avgFillPrice: real, now: int)
    requires EntersAs(p, v, id, avgFillPrice, now) && v.action.Approve?
    requires if v.proposal.side == Long then v.proposal.stop < p.entry else p.entry < v.proposal.stop
    ensures Fresh(p) && p.atr == 0.0 && Ordered(POSITION_CONFIG)
    ensures p.stop == v.proposal.stop && p.target == v.proposal.target && p.size == v.proposal.size
  {
  }

  // ---- What the published profits are ----

  /** A published profit is positive exactly if the exit is better than the entry, negative exactly if it is worse;
      its amount is the size times the distance between them. */
  predicate FairProfit(e: BusEvent)
    requires e.PositionClosed?
  {
    && (e.pnl > 0.0 <==> if e.side == Long then e.exitPrice > e.entry else e.exitPrice < e.entry)
    && (e.pnl < 0.0 <==> if e.side == Long then e.exitPrice < e.entry else e.exitPrice > e.entry)
    && Abs(e.pnl) == Times(e.size, Abs(e.exitPrice - e.entry))
  }

  lemma CloseIsFair(p: Position, exitPrice: real, reason: ExitReason)
    requires p.size > 0.0
    ensures FairProfit(CloseEvent(p, exitPrice, reason))
  {
    ProfitMeaning(p, exitPrice);
    hide PnlUsd, Times;
  }

  /** A fresh position closed at its stop loses exactly its size times the stop distance. */
  lemma StopCosts(p: Position, reason: ExitReason)
    requires Fresh(p) && p.size > 0.0
    ensures CloseEvent(p, p.stop, reason).pnl == 0.0 - Times(p.size, Abs(p.entry - p.stop)) < 0.0
  {
    CloseIsFair(p, p.stop, reason);
    hide PnlUsd, Times;
  }

  /** A position closed because its target was reached publishes a profit and raises the equity, if the target lies
      on the winning side; it is the size times at least the target distance. */
  lemma TargetEarns(q: Position, price: real, now: int, cfg: PositionConfig, account: Risk.RiskState)
    requires Reachable(q) && Ordered(cfg) && q.stop != q.entry && q.stop > 0.0 && q.size > 0.0
    requires Step(q, price, now, cfg).Exit? && Step(q, price, now, cfg).reason == TakeProfit
    requires if q.side == Long then q.target > q.entry else q.target < q.entry
    ensures var e := CloseEvent(Step(q, price, now, cfg).p, price, TakeProfit);
      && e.pnl > 0.0 && e.pnl >= Times(q.size, Abs(q.target - q.entry))
      && Risk.Apply(account, Risk.Closed(e.pnl)).equity > account.equity
  {
    ExitsExactly(q, price, now, cfg);
    CloseIsFair(q, price, TakeProfit);
    hide Step, PnlUsd, Risk.RiskState.LimitMet, Overdue;
    TimesOrder(q.size, Abs(q.target - q.entry), Abs(price - q.entry));
    hide Times;
  }

  lemma FilledAt(req: OrderRequest, avgFillPrice: real, now: int)
    ensures var p := OpenedPosition(req, avgFillPrice, now);
      && p.entry == (if avgFillPrice > 0.0 then avgFillPrice else req.price)
      && p.clientId == req.clientId && p.symbol == req.symbol && p.side == req.side && p.size == req.size
  {
  }

  /** Positions the agent opens do get stuck: a Long filled at 100 with stop 99 and target 102 whose first tick is
      100.6 has its stop moved to its entry, and from then on no ticks at all change or close it, be they at the
      stop, at the target or past the hold limit. */
  lemma {:induction false} OpenedGetsStuck(id: string, symbol: string, size: real, now: int, ticks: seq<Tick>)
    ensures var p := OpenedPosition(OrderRequest(id, symbol, Long, size, 100.0, 99.0, 102.0), 100.0, now);
      var stuck := p.(stop := 100.0, breakeven := true);
      && Fresh(p) && !stuck.trailing
      && Run(p, [Tick(100.6, now)] + ticks, POSITION_CONFIG) == Keep(stuck)
  {
    var first := [Tick(100.6, now)];
    if |ticks| == 0 {
      assert first + ticks == first;
    } else {
      assert (first + ticks)[..|first + ticks| - 1] == first + ticks[..|ticks| - 1];
      OpenedGetsStuck(id, symbol, size, now, ticks[..|ticks| - 1]);
    }
  }

  /** A position the agent opens is overdue from 1801 seconds after its opening on. */
  lemma OpenedOverdueFrom(req: OrderRequest, fill: real, since: int, now: int)
    ensures Overdue(OpenedPosition(req, fill, since), now, POSITION_CONFIG) <==> now >= since + 1_801_000
  {
    OverdueFrom(OpenedPosition(req, fill, since), now, POSITION_CONFIG);
    hide Overdue;
  }

  function When(happens: bool, ops: seq<Risk.RiskOp>): seq<Risk.RiskOp> { if happens then ops else [] }

  /** The close at the last mark of the position's symbol, or at its entry when none was seen. */
  function FlatEvent(p: Position, marks: map<string, real>): BusEvent {
    CloseEvent(p, if p.symbol in marks then marks[p.symbol] else p.entry, Manual)
  }

  function FlatEvents(ps: seq<Position>, marks: map<string, real>): (r: seq<BusEvent>)
    ensures |r| == |ps|
  {
    seq(|ps|, i requires 0 <= i < |ps| => FlatEvent(ps[i], marks))
  }

  lemma NothingFlat(marks: map<string, real>)
    ensures FlatEvents([], marks) == [] && IdsOf([]) == {}
  {
  }

  lemma FlatSnoc(ps: seq<Position>, p: Position, marks: map<string, real>)
    ensures FlatEvents(ps + [p], marks) == FlatEvents(ps, marks) + [FlatEvent(p, marks)]
    ensures IdsOf(ps + [p]) == IdsOf(ps) + {p.clientId}
  {
    hide FlatEvent;
    forall id ensures id in IdsOf(ps + [p]) <==> id in IdsOf(ps) + {p.clientId} {
      if k :| 0 <= k < |ps| && ps[k].clientId == id { assert (ps + [p])[k].clientId == id; }
      assert (ps + [p])[|ps|].clientId == p.clientId;
    }
  }

  lemma FlatPrices(ps: seq<Position>, marks: map<string, real>)
    ensures forall k :: 0 <= k < |ps| ==>
              var e := FlatEvents(ps, marks)[k];
              && e.PositionClosed? && e.reason == Manual
              && e.exitPrice == if e.symbol in marks then marks[e.symbol] else e.entry
  {
  }

  function IdsOf(ps: seq<Position>): set<string> { set i | 0 <= i < |ps| :: ps[i].clientId }

  /** A flat-all's publications: every position of the book once, at its mark. */
  ghost predicate PublishesFlat(before: seq<BusEvent>, after: seq<BusEvent>, b: Book, marks: map<string, real>) {
    exists ps :: AllOnce(ps, b) && after == before + FlatEvents(ps, marks)
  }

  ghost predicate AllOnce(ps: seq<Position>, b: Book) {
    && (forall p :: p in ps <==> p.clientId in b && b[p.clientId] == p)
    && (forall j, k :: 0 <= j < k < |ps| ==> ps[j].clientId != ps[k].clientId)
  }

  lemma StillHeld(ps: seq<Position>, i: nat)
    requires i < |ps| && forall j, k :: 0 <= j < k < |ps| ==> ps[j].clientId != ps[k].clientId
    ensures ps[i].clientId !in IdsOf(ps[..i])
  {
  }

  lemma AllListed(ps: seq<Position>, b: Book)
    requires Keyed(b) && forall p :: p in ps <==> p.clientId in b && b[p.clientId] == p
    ensures IdsOf(ps) == b.Keys
  {
    forall id | id in b ensures id in IdsOf(ps) {
      assert b[id] in ps;
      var k :| 0 <= k < |ps| && ps[k] == b[id];
    }
    forall id | id in IdsOf(ps) ensures id in b {
      var k :| 0 <= k < |ps| && ps[k].clientId == id;
      assert ps[k] in ps;
    }
  }

  lemma FillBalances(start: set<string>, fills: seq<Position>, p: Position, log: seq<BusEvent>,
                     overwritten: multiset<string>, b: Book)
    requires Balanced(start, fills, log, overwritten, multiset(b.Keys))
    ensures var over := overwritten + Again(b, p.clientId);
      && Balanced(start, fills + [p], log, over, multiset(b[p.clientId := p].Keys))
      && |multiset(b[p.clientId := p].Keys)| + |over| == |multiset(b.Keys)| + |overwritten| + 1
  {
    assert Ids(fills + [p]) == Ids(fills) + [p.clientId] && overwritten + multiset{} == overwritten;
    var after := b[p.clientId := p];
    AddBoth(multiset(start), multiset(Ids(fills)), multiset(ClosedIds(log)), overwritten, multiset(b.Keys), p.clientId);
    if p.clientId in b {
      assert after.Keys == b.Keys;
    } else {
      assert after.Keys == b.Keys + {p.clientId};
      assert multiset(after.Keys) == multiset(b.Keys) + multiset{p.clientId};
    }
  }

  lemma AddBoth(s: multiset<string>, f: multiset<string>, c: multiset<string>, o: multiset<string>,
                k: multiset<string>, x: string)
    requires s + f == c + o + k
    ensures s + (f + multiset{x}) == c + (o + multiset{x}) + k
    ensures s + (f + multiset{x}) == c + o + (k + multiset{x})
  {
    assert s + (f + multiset{x}) == (s + f) + multiset{x};
    assert c + (o + multiset{x}) + k == (c + o + k) + multiset{x};
    assert c + o + (k + multiset{x}) == (c + o + k) + multiset{x};
  }

  lemma KnownMore(q: Position, start: Book, fills: seq<Position>, p: Position)
    ensures Known(q, start, fills) ==> Known(q, start, fills + [p])
    ensures Known(p, start, fills + [p])
  {
    assert (fills + [p])[|fills|] == p;
    if i :| 0 <= i < |fills| && SameTrade(fills[i], q) { assert (fills + [p])[i] == fills[i]; }
  }

  lemma MoreKnown(start: Book, fills: seq<Position>, p: Position, log: seq<BusEvent>, b: Book)
    requires forall k :: 0 <= k < |log| ==> Genuine(log[k], start, fills)
    requires forall id :: id in b ==> Known(b[id], start, fills)
    ensures forall k :: 0 <= k < |log| ==> Genuine(log[k], start, fills + [p])
    ensures var after := b[p.clientId := p]; forall id :: id in after ==> Known(after[id], start, fills + [p])
  {
    hide Known, PnlUsd;
    forall q ensures Known(q, start, fills) ==> Known(q, start, fills + [p]) { KnownMore(q, start, fills, p); }
    KnownMore(p, start, fills, p);
  }

  function ExitIds(exits: seq<(Position, ExitReason)>): (r: seq<string>)
    ensures |r| == |exits|
  {
    seq(|exits|, i requires 0 <= i < |exits| => exits[i].0.clientId)
  }

  function CloseEvents(exits: seq<(Position, ExitReason)>, price: real): (r: seq<BusEvent>)
    ensures |r| == |exits|
  {
    seq(|exits|, i requires 0 <= i < |exits| => CloseEvent(exits[i].0, price, exits[i].1))
  }

  /** The tick's publications: one close per exiting position, at the tick's price, and nothing else. */
  ghost predicate PublishesExits(before: seq<BusEvent>, after: seq<BusEvent>, b: Book, symbol: string, price: real,
                                 now: int) {
    exists exits ::
      && ListsExits(exits, b, b.Keys, symbol, price, now, POSITION_CONFIG)
      && after == before + CloseEvents(exits, price)
  }

  lemma ExitIdsCons(e: (Position, ExitReason), rest: seq<(Position, ExitReason)>)
    ensures ExitIds([e] + rest) == [e.0.clientId] + ExitIds(rest)
  {
  }

  lemma OutsideDuring(env: Interference, k: nat)
    requires Outside(env)
    ensures AllFromOutside(During(env, k))
  {
  }

  lemma ClosedSnoc(log: seq<BusEvent>, e: BusEvent)
    ensures ClosedIds(log + [e]) == if e.PositionClosed? then ClosedIds(log) + [e.clientId] else ClosedIds(log)
    ensures ClosedPnls(log + [e]) == if e.PositionClosed? then ClosedPnls(log) + [e.pnl] else ClosedPnls(log)
  {
    assert (log + [e])[..|log|] == log;
  }

  lemma {:induction false} DistinctCount(ids: seq<string>, id: string)
    requires forall j, k :: 0 <= j < k < |ids| ==> ids[j] != ids[k]
    ensures multiset(ids)[id] == if id in ids then 1 else 0
  {
    if |ids| > 0 {
      var n := |ids| - 1;
      DistinctCount(ids[..n], id);
      assert ids == ids[..n] + [ids[n]];
    }
  }

  /** The exits and the positions kept are together the positions held before. */
  lemma ExitsLeave(exits: seq<(Position, ExitReason)>, b: Book, symbol: string, price: real, now: int,
                   cfg: PositionConfig)
    requires ListsExits(exits, b, b.Keys, symbol, price, now, cfg)
    ensures multiset(b.Keys) == multiset(AfterTick(b, symbol, price, now, cfg).Keys) + multiset(ExitIds(exits))
  {
    hide Step;
    var ids, after := ExitIds(exits), AfterTick(b, symbol, price, now, cfg);
    forall id ensures multiset(b.Keys)[id] == multiset(after.Keys)[id] + multiset(ids)[id] {
      DistinctCount(ids, id);
      assert id in after <==> id in b && !ExitsNow(b, id, symbol, price, now, cfg);
      if id in ids {
        var k :| 0 <= k < |ids| && ids[k] == id;
        assert exits[k].0.clientId == id;
      }
      if id in b && ExitsNow(b, id, symbol, price, now, cfg) {
        var k :| 0 <= k < |exits| && exits[k].0.clientId == id;
        assert ids[k] == id;
      }
    }
  }

  lemma ExitsKnown(exits: seq<(Position, ExitReason)>, b: Book, symbol: string, price: real, now: int,
                   cfg: PositionConfig, start: Book, fills: seq<Position>)
    requires ListsExits(exits, b, b.Keys, symbol, price, now, cfg)
    requires forall id :: id in b ==> Known(b[id], start, fills)
    ensures forall k :: 0 <= k < |exits| ==> Known(exits[k].0, start, fills)
  {
    hide Step, Known;
    forall k | 0 <= k < |exits| ensures Known(exits[k].0, start, fills) {
      var id := exits[k].0.clientId;
      StepKeepsTrade(b[id], price, now, cfg);
      StillKnown(b[id], exits[k].0, start, fills);
    }
  }

  lemma StillKnown(p: Position, q: Position, start: Book, fills: seq<Position>)
    requires Known(p, start, fills) && SameTrade(p, q)
    ensures Known(q, start, fills)
  {
  }

  lemma SteppedKnown(b: Book, symbol: string, price: real, now: int, cfg: PositionConfig, start: Book,
                     fills: seq<Position>)
    requires forall id :: id in b ==> Known(b[id], start, fills)
    ensures var after := AfterTick(b, symbol, price, now, cfg);
      forall id :: id in after ==> Known(after[id], start, fills)
  {
    hide Step, Known;
    var after := AfterTick(b, symbol, price, now, cfg);
    forall id | id in after ensures Known(after[id], start, fills) {
      StepKeepsTrade(b[id], price, now, cfg);
      if b[id].symbol == symbol { StillKnown(b[id], after[id], start, fills); }
    }
  }

  lemma PnlsSnoc(ops: seq<Risk.RiskOp>, op: Risk.RiskOp)
    ensures Risk.Pnls(ops + [op]) == if op.Closed? then Risk.Pnls(ops) + [op.pnl] else Risk.Pnls(ops)
    ensures Risk.NoSetEquity(ops) && !op.SetEquity? ==> Risk.NoSetEquity(ops + [op])
  {
    assert (ops + [op])[..|ops|] == ops;
    assert Risk.Pnls(ops) + [] == Risk.Pnls(ops);
  }

  ghost predicate OutsideInput(i: Input) { !i.SurvivalUpdated? ==> Outside(i.env) }

  /** The id, if the book already holds it. */
  function Again(b: Book, id: string): multiset<string> { if id in b then multiset{id} else multiset{} }

  function VerdictIds(inputs: seq<Input>): set<string> {
    set k | 0 <= k < |inputs| && inputs[k].Verdict? :: inputs[k].id
  }

  /** No verdict repeats the client id of another verdict or of a position held at the start. */
  ghost predicate NoReuse(inputs: seq<Input>, start: set<string>) {
    && (forall k :: 0 <= k < |inputs| && inputs[k].Verdict? ==> inputs[k].id !in start)
    && (forall j, k :: 0 <= j < k < |inputs| && inputs[j].Verdict? && inputs[k].Verdict? ==>
          inputs[j].id != inputs[k].id)
  }

  lemma VerdictIdsSnoc(inputs: seq<Input>, i: Input)
    ensures VerdictIds(inputs + [i]) == VerdictIds(inputs) + (if i.Verdict? then {i.id} else {})
  {
    var more := inputs + [i];
    assert more[|inputs|] == i;
    forall id | id in VerdictIds(inputs) ensures id in VerdictIds(more) {
      var k :| 0 <= k < |inputs| && inputs[k].Verdict? && inputs[k].id == id;
      assert more[k] == inputs[k];
    }
  }

  lemma NotUsedYet(inputs: seq<Input>, start: set<string>, i: nat)
    requires NoReuse(inputs, start) && i < |inputs| && inputs[i].Verdict?
    ensures inputs[i].id !in start + VerdictIds(inputs[..i])
  {
  }

  lemma PrefixTracked(ops: seq<Risk.RiskOp>, k: nat)
    requires Risk.NoSetEquity(ops) && k <= |ops|
    ensures Risk.NoSetEquity(ops[..k])
  {
  }

  /** The profits booked by the first k operations are a prefix of all profits... */
  lemma {:induction false} PrefixOfPnls(ops: seq<Risk.RiskOp>, k: nat) returns (j: nat)
    requires k <= |ops|
    ensures j <= |Risk.Pnls(ops)| && Risk.Pnls(ops[..k]) == Risk.Pnls(ops)[..j]
  {
    if k == |ops| {
      assert ops[..k] == ops;
      j := |Risk.Pnls(ops)|;
    } else {
      var n := |ops| - 1;
      j := PrefixOfPnls(ops[..n], k);
      assert ops[..n][..k] == ops[..k];
    }
  }

  /** ...and every prefix of the profits is reached by some operations. */
  lemma {:induction false} PnlsReached(ops: seq<Risk.RiskOp>, j: nat) returns (k: nat)
    requires j <= |Risk.Pnls(ops)|
    ensures k <= |ops| && Risk.Pnls(ops[..k]) == Risk.Pnls(ops)[..j]
  {
    if j == |Risk.Pnls(ops)| {
      assert ops[..|ops|] == ops;
      k := |ops|;
    } else {
      var n := |ops| - 1;
      k := PnlsReached(ops[..n], j);
      assert ops[..n][..k] == ops[..k];
    }
  }
}
