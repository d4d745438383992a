/** Open positions and their exits (src/execution/position.rs). `Step` is one position's
    reaction to one tick of its symbol; `PositionBook.CheckExits` is the in-place loop over
    the map, proved to apply `Step` to every position of the symbol. Times are milliseconds. */
module Positions {
  import opened Reals

  datatype Side = Long | Short

  datatype Position = Position(
    clientId: string,
    symbol: string,
    side: Side,
    size: real,
    entry: real,
    stop: real,
    target: real,
    openedAt: int,
    trailing: bool,
    atr: real,
    breakeven: bool)

  datatype ExitReason = StopLoss | TakeProfit | Trailing | TimeExit | Manual

  datatype PositionConfig = PositionConfig(
    maxHoldSecs: int,
    trailAtrMult: real,
    trailActivateR: real,
    breakevenR: real)

  datatype Outcome = Keep(p: Position) | Exit(p: Position, reason: ExitReason)

  function PnlUsd(p: Position, exitPrice: real): real {
    match p.side
    case Long => (exitPrice - p.entry) * p.size
    case Short => (p.entry - exitPrice) * p.size
  }

  predicate Overdue(p: Position, now: int, cfg: PositionConfig) {
    cfg.maxHoldSecs > 0 && (now - p.openedAt) / 1000 > cfg.maxHoldSecs
  }

  /** Profit in units of the distance between entry and stop. */
  function ProfitR(gain: real, r: real): real
    requires r > 0.0
  {
    gain / r
  }

  function Arm(p: Position, profitR: real, cfg: PositionConfig): Position {
    var q := if !p.breakeven && profitR >= cfg.breakevenR then p.(breakeven := true, stop := p.entry) else p;
    if !q.trailing && profitR >= cfg.trailActivateR then q.(trailing := true) else q
  }

  /** The trailing part of a Long tick: tighten the stop, then close if the price is at it. */
  function TrailLong(q: Position, price: real, cfg: PositionConfig): Outcome {
    if !q.trailing then Keep(q)
    else
      var distance := if q.atr > 0.0 then Times(q.atr, cfg.trailAtrMult) else (price - q.entry) * 0.5;
      var stop := Max(price - distance, q.stop);
      if price <= stop then Exit(q.(stop := stop), Trailing) else Keep(q.(stop := stop))
  }

  function TrailShort(q: Position, price: real, cfg: PositionConfig): Outcome {
    if !q.trailing then Keep(q)
    else
      var distance := if q.atr > 0.0 then Times(q.atr, cfg.trailAtrMult) else (q.entry - price) * 0.5;
      var stop := Min(price + distance, q.stop);
      if price >= stop then Exit(q.(stop := stop), Trailing) else Keep(q.(stop := stop))
  }

  function StepLong(p: Position, price: real, r: real, cfg: PositionConfig): Outcome
    requires r > 0.0
  {
    if p.stop > 0.0 && price <= p.stop then Exit(p, StopLoss)
    else if p.target > 0.0 && price >= p.target then Exit(p, TakeProfit)
    else TrailLong(Arm(p, ProfitR(price - p.entry, r), cfg), price, cfg)
  }

  function StepShort(p: Position, price: real, r: real, cfg: PositionConfig): Outcome
    requires r > 0.0
  {
    if p.stop > 0.0 && price >= p.stop then Exit(p, StopLoss)
    else if p.target > 0.0 && price <= p.target then Exit(p, TakeProfit)
    else TrailShort(Arm(p, ProfitR(p.entry - price, r), cfg), price, cfg)
  }

  /** What one tick of the position's symbol does to it. */
  function Step(p: Position, price: real, now: int, cfg: PositionConfig): Outcome {
    var r := Abs(p.entry - p.stop);
    if r <= 0.0 then Keep(p)
    else if Overdue(p, now, cfg) then Exit(p, TimeExit)
    else match p.side
      case Long => StepLong(p, price, r, cfg)
      case Short => StepShort(p, price, r, cfg)
  }

  // ---- The book ----

  ghost predicate LastOfId(positions: seq<Position>, k: nat)
    requires k < |positions|
  {
    forall j :: k < j < |positions| ==> positions[j].clientId != positions[k].clientId
  }

  type Book = map<string, Position>

  ghost predicate Keyed(b: Book) { forall id :: id in b ==> b[id].clientId == id }

  predicate ExitsNow(b: Book, id: string, symbol: string, price: real, now: int, cfg: PositionConfig) {
    id in b && b[id].symbol == symbol && Step(b[id], price, now, cfg).Exit?
  }

  /** The book after a tick of `symbol`: exits removed, the other positions of the symbol stepped. */
  function AfterTick(b: Book, symbol: string, price: real, now: int, cfg: PositionConfig): Book {
    map id | id in b && !ExitsNow(b, id, symbol, price, now, cfg)
      :: if b[id].symbol == symbol then Step(b[id], price, now, cfg).p else b[id]
  }

  /** `out` lists every exiting position of `done` exactly once, as it was when its exit fired. */
  ghost predicate ListsExits(out: seq<(Position, ExitReason)>, b: Book, done: set<string>,
                             symbol: string, price: real, now: int, cfg: PositionConfig)
  {
    && (forall k :: 0 <= k < |out| ==>
          var id := out[k].0.clientId;
          && id in done && ExitsNow(b, id, symbol, price, now, cfg)
          && Step(b[id], price, now, cfg) == Exit(out[k].0, out[k].1))
    && (forall id :: id in done && ExitsNow(b, id, symbol, price, now, cfg) ==>
          exists k :: 0 <= k < |out| && out[k].0.clientId == id)
    && (forall j, k :: 0 <= j < k < |out| ==> out[j].0.clientId != out[k].0.clientId)
  }

  lemma ListsSkip(out: seq<(Position, ExitReason)>, b: Book, done: set<string>, id: string,
                  symbol: string, price: real, now: int, cfg: PositionConfig)
    requires ListsExits(out, b, done, symbol, price, now, cfg) && !ExitsNow(b, id, symbol, price, now, cfg)
    ensures ListsExits(out, b, done + {id}, symbol, price, now, cfg)
  {
    hide Step;
  }

  lemma ListsAdd(out: seq<(Position, ExitReason)>, b: Book, done: set<string>, id: string, p: Position, why: ExitReason,
                 symbol: string, price: real, now: int, cfg: PositionConfig)
    requires ListsExits(out, b, done, symbol, price, now, cfg) && id !in done && p.clientId == id
    requires id in b && b[id].symbol == symbol && Step(b[id], price, now, cfg) == Exit(p, why)
    ensures ListsExits(out + [(p, why)], b, done + {id}, symbol, price, now, cfg)
  {
    hide Step;
    var out' := out + [(p, why)];
    forall x | x in done + {id} && ExitsNow(b, x, symbol, price, now, cfg)
      ensures exists k :: 0 <= k < |out'| && out'[k].0.clientId == x
    {
      if x == id {
        assert out'[|out|].0.clientId == x;
      } else {
        var k :| 0 <= k < |out| && out[k].0.clientId == x;
        assert out'[k].0.clientId == x;
      }
    }
  }

  ghost predicate SameTrade(p: Position, q: Position) {
    && q.clientId == p.clientId && q.symbol == p.symbol && q.side == p.side
    && q.entry == p.entry && q.size == p.size && q.atr == p.atr
  }

  lemma StepKeepsTrade(p: Position, price: real, now: int, cfg: PositionConfig)
    ensures SameTrade(p, Step(p, price, now, cfg).p)
  {
    hide ProfitR, Arm, TrailLong, TrailShort;
    var r := Abs(p.entry - p.stop);
    if r > 0.0 {
      var profitR := ProfitR(if p.side == Long then price - p.entry else p.entry - price, r);
      ArmKeepsTrade(p, profitR, cfg);
      TrailKeepsTrade(Arm(p, profitR, cfg), price, cfg);
    }
  }

  lemma TrailKeepsTrade(q: Position, price: real, cfg: PositionConfig)
    ensures SameTrade(q, TrailLong(q, price, cfg).p) && SameTrade(q, TrailShort(q, price, cfg).p)
  {
    hide Times;
  }

  lemma ArmKeepsTrade(p: Position, profitR: real, cfg: PositionConfig)
    ensures SameTrade(p, Arm(p, profitR, cfg))
  {
  }

  class PositionBook {
    var book: Book

    ghost predicate Valid() reads this { Keyed(book) }

    constructor ()
      ensures Valid() && book == map[]
    {
      book := map[];
    }

    method Open(p: Position)
      requires Valid()
      modifies this
      ensures Valid() && book == old(book)[p.clientId := p]
    {
      book := book[p.clientId := p];
    }

    method Close(id: string) returns (r: Option<Position>)
      requires Valid()
      modifies this
      ensures Valid() && book == old(book) - {id}
      ensures r == if id in old(book) then Some(old(book)[id]) else None
    {
      r := if id in book then Some(book[id]) else None;
      book := book - {id};
    }

    /** The positions, each once, in no particular order. */
    method Snapshot() returns (all: seq<Position>)
      requires Valid()
      ensures forall p :: p in all <==> p.clientId in book && book[p.clientId] == p
      ensures forall j, k :: 0 <= j < k < |all| ==> all[j].clientId != all[k].clientId
      ensures |all| == |book|
    {
      all := [];
      var todo := book.Keys;
      while todo != {}
        invariant todo <= book.Keys
        invariant forall p :: p in all <==> p.clientId in book.Keys - todo && book[p.clientId] == p
        invariant forall j, k :: 0 <= j < k < |all| ==> all[j].clientId != all[k].clientId
        invariant |all| + |todo| == |book|
        decreases todo
      {
        var id :| id in todo;
        all := all + [book[id]];
        todo := todo - {id};
      }
    }

    /** Replaces the book; of several positions with one id the last wins. */
    method Reconcile(positions: seq<Position>)
      modifies this
      ensures Valid()
      ensures forall id :: id in book <==> exists k :: 0 <= k < |positions| && positions[k].clientId == id
      ensures forall k :: 0 <= k < |positions| && LastOfId(positions, k) ==>
                positions[k].clientId in book && book[positions[k].clientId] == positions[k]
    {
      book := map[];
      for i := 0 to |positions|
        invariant Keyed(book)
        invariant forall id :: id in book <==> exists k :: 0 <= k < i && positions[k].clientId == id
        invariant forall k :: 0 <= k < i && (forall j :: k < j < i ==> positions[j].clientId != positions[k].clientId)
                    ==> positions[k].clientId in book && book[positions[k].clientId] == positions[k]
      {
        book := book[positions[i].clientId := positions[i]];
      }
    }

    method CheckExits(symbol: string, price: real, now: int,
                      cfg: PositionConfig) returns (out: seq<(Position, ExitReason)>)
      requires Valid()
      modifies this
      ensures Valid() && book == AfterTick(old(book), symbol, price, now, cfg)
      ensures ListsExits(out, old(book), old(book).Keys, symbol, price, now, cfg)
    {
      ghost var was := book;
      out := [];
      var toRemove: seq<string> := [];
      var todo := book.Keys;
      hide Step, ListsExits;
      assert ListsExits(out, was, {}, symbol, price, now, cfg) by { ListsNone(was, symbol, price, now, cfg); }
      assert was.Keys - todo == {};
      while todo != {}
        invariant todo <= was.Keys == book.Keys && Keyed(was)
        invariant forall id :: id in todo ==> book[id] == was[id]
        invariant forall id :: id in was && id !in todo ==>
                    book[id] == if was[id].symbol == symbol then Step(was[id], price, now, cfg).p else was[id]
        invariant forall id :: id in toRemove <==> id !in todo && ExitsNow(was, id, symbol, price, now, cfg)
        invariant ListsExits(out, was, was.Keys - todo, symbol, price, now, cfg)
        decreases todo
      {
        var id :| id in todo;
        ghost var done := was.Keys - todo;
        todo := todo - {id};
        assert was.Keys - todo == done + {id};
        if book[id].symbol != symbol {
          ListsSkip(out, was, done, id, symbol, price, now, cfg);
          continue;
        }
        var p, reason := StepInPlace(book[id], price, now, cfg);
        book := book[id := p];
        StepKeepsTrade(was[id], price, now, cfg);
        match reason {
          case None =>
            ListsSkip(out, was, done, id, symbol, price, now, cfg);
          case Some(why) =>
            ListsAdd(out, was, done, id, p, why, symbol, price, now, cfg);
            out := out + [(p, why)];
            toRemove := toRemove + [id];
        }
      }
      assert was.Keys - todo == was.Keys;
      StepsKeepKeys(was, book, symbol, price, now, cfg);
      RemoveAll(toRemove);
    }

    method RemoveAll(ids: seq<string>)
      modifies this
      ensures book == map id | id in old(book) && id !in ids :: old(book)[id]
    {
      ghost var was := book;
      for i := 0 to |ids|
        invariant book == map id | id in was && id !in ids[..i] :: was[id]
      {
        book := book - {ids[i]};
      }
      assert ids[..|ids|] == ids;
    }
  }

  lemma ListsNone(b: Book, symbol: string, price: real, now: int, cfg: PositionConfig)
    ensures ListsExits([], b, {}, symbol, price, now, cfg)
  {
  }

  lemma StepsKeepKeys(b: Book, c: Book, symbol: string, price: real, now: int, cfg: PositionConfig)
    requires Keyed(b) && c.Keys == b.Keys
    requires forall id :: id in b ==> c[id] == if b[id].symbol == symbol then Step(b[id], price, now, cfg).p else b[id]
    ensures Keyed(c)
  {
    hide Step;
    forall id | id in c ensures c[id].clientId == id { StepKeepsTrade(b[id], price, now, cfg); }
  }

  /** The body of the loop over one entry, updating it field by field. */
  method StepInPlace(was: Position, price: real, now: int, cfg: PositionConfig)
    returns (p: Position, reason: Option<ExitReason>)
    ensures Step(was, price, now, cfg) == if reason == None then Keep(p) else Exit(p, reason.value)
  {
    hide ProfitR, Arm, TrailLong, TrailShort;
    p, reason := was, None;
    var r := Abs(p.entry - p.stop);
    if r <= 0.0 { return; }
    if cfg.maxHoldSecs > 0 {
      var held := (now - p.openedAt) / 1000;
      if held > cfg.maxHoldSecs { return p, Some(TimeExit); }
    }
    match p.side {
      case Long =>
        if p.stop > 0.0 && price <= p.stop { return p, Some(StopLoss); }
        if p.target > 0.0 && price >= p.target { return p, Some(TakeProfit); }
        p := ArmInPlace(p, ProfitR(price - p.entry, r), cfg);
        p, reason := TrailInPlace(p, price, cfg);
      case Short =>
        if p.stop > 0.0 && price >= p.stop { return p, Some(StopLoss); }
        if p.target > 0.0 && price <= p.target { return p, Some(TakeProfit); }
        p := ArmInPlace(p, ProfitR(p.entry - price, r), cfg);
        p, reason := TrailInPlace(p, price, cfg);
    }
  }

  method ArmInPlace(was: Position, profitR: real, cfg: PositionConfig) returns (p: Position)
    ensures p == Arm(was, profitR, cfg) && p.side == was.side
  {
    p := was;
    if !p.breakeven && profitR >= cfg.breakevenR {
      p := p.(breakeven := true);
      p := p.(stop := p.entry);
    }
    if !p.trailing && profitR >= cfg.trailActivateR { p := p.(trailing := true); }
  }

  method TrailInPlace(was: Position, price: real, cfg: PositionConfig) returns (p: Position, reason: Option<ExitReason>)
    ensures (if was.side == Long then TrailLong(was, price, cfg) else TrailShort(was, price, cfg))
         == if reason == None then Keep(p) else Exit(p, reason.value)
  {
    hide Times;
    p, reason := was, None;
    if !p.trailing { return; }
    match p.side {
      case Long =>
        var trailDist := if p.atr > 0.0 then Times(p.atr, cfg.trailAtrMult) else (price - p.entry) * 0.5;
        var trailStop := price - trailDist;
        if trailStop > p.stop { p := p.(stop := trailStop); }
        if price <= p.stop { reason := Some(Trailing); }
      case Short =>
        var trailDist := if p.atr > 0.0 then Times(p.atr, cfg.trailAtrMult) else (p.entry - price) * 0.5;
        var trailStop := price + trailDist;
        if trailStop < p.stop { p := p.(stop := trailStop); }
        if price >= p.stop { reason := Some(Trailing); }
    }
  }

  // ---- One position over any sequence of ticks ----

  datatype Tick = Tick(price: real, now: int)

  function Run(p: Position, ticks: seq<Tick>, cfg: PositionConfig): Outcome
  {
    if |ticks| == 0 then Keep(p)
    else match Run(p, ticks[..|ticks| - 1], cfg)
      case Exit(q, why) => Exit(q, why)
      case Keep(q) => Step(q, ticks[|ticks| - 1].price, ticks[|ticks| - 1].now, cfg)
  }

  lemma RunSnoc(p: Position, ticks: seq<Tick>, cfg: PositionConfig)
    requires |ticks| > 0 && Run(p, ticks, cfg).Keep?
    ensures var n := |ticks| - 1;
      && Run(p, ticks[..n], cfg).Keep?
      && Run(p, ticks, cfg) == Step(Run(p, ticks[..n], cfg).p, ticks[n].price, ticks[n].now, cfg)
  {
    hide Step;
  }

  /** As the execution agent opens it: no flags set and the stop on the losing side of entry. */
  ghost predicate Fresh(p: Position) {
    !p.trailing && !p.breakeven && (if p.side == Long then p.stop < p.entry else p.entry < p.stop)
  }

  ghost predicate Ordered(cfg: PositionConfig) { 0.0 < cfg.breakevenR <= cfg.trailActivateR }

  /** How far the stop has moved in the position's favour: larger is tighter. */
  function Tightness(p: Position): real { if p.side == Long then p.stop - p.entry else p.entry - p.stop }

  lemma ProfitSign(gain: real, r: real)
    requires r > 0.0
    ensures ProfitR(gain, r) > 0.0 <==> gain > 0.0
    ensures ProfitR(-gain, r) == -ProfitR(gain, r)
  {
    var q := ProfitR(gain, r);
    assert q * r == gain;
    if q > 0.0 { MulPositive(q, r); }
    if q < 0.0 { MulPositive(-q, r); }
  }

  /** What holds of a position between ticks. */
  ghost predicate Sound(p: Position) {
    && (p.trailing ==> p.breakeven)
    && (p.breakeven <==> Tightness(p) >= 0.0)
  }

  lemma ArmTightens(p: Position, profitR: real, cfg: PositionConfig)
    requires Sound(p) && Ordered(cfg)
    ensures var q := Arm(p, profitR, cfg);
      && Sound(q) && q.side == p.side && Tightness(q) >= Tightness(p) && (p.breakeven ==> q.breakeven)
      && (!q.breakeven ==> q.stop == p.stop)
  {
  }

  lemma TrailTightens(q: Position, price: real, cfg: PositionConfig)
    requires Sound(q)
    ensures var o := (if q.side == Long then TrailLong(q, price, cfg) else TrailShort(q, price, cfg)).p;
      && Sound(o) && o.breakeven == q.breakeven && Tightness(o) >= Tightness(q)
      && (!o.breakeven ==> o.stop == q.stop)
  {
    hide Times;
  }

  lemma StepTightens(p: Position, price: real, now: int, cfg: PositionConfig)
    requires Sound(p) && Ordered(cfg)
    ensures var q := Step(p, price, now, cfg).p;
      && Sound(q) && Tightness(q) >= Tightness(p) && (p.breakeven ==> q.breakeven)
      && (!q.breakeven ==> q.stop == p.stop)
  {
    hide ProfitR, Arm, TrailLong, TrailShort;
    var r := Abs(p.entry - p.stop);
    if r > 0.0 {
      var profitR := ProfitR(if p.side == Long then price - p.entry else p.entry - price, r);
      ArmTightens(p, profitR, cfg);
      TrailTightens(Arm(p, profitR, cfg), price, cfg);
      hide Sound, Tightness;
    }
  }

  /** The stop ratchet: over any ticks the stop only tightens, moves first to entry, and is never
      worse than entry once breakeven has fired. */
  lemma {:induction false} StopRatchet(p: Position, ticks: seq<Tick>, cfg: PositionConfig, k: nat)
    requires Fresh(p) && Ordered(cfg) && k <= |ticks|
    ensures var q := Run(p, ticks, cfg).p;
      && Sound(q) && q.side == p.side && q.entry == p.entry
      && Tightness(q) >= Tightness(Run(p, ticks[..k], cfg).p)
      && (!q.breakeven ==> q.stop == p.stop)
  {
    if k == |ticks| {
      assert ticks[..k] == ticks;
      if k > 0 { StopRatchetStep(p, ticks, cfg); }
    } else {
      var n := |ticks| - 1;
      assert ticks[..n][..k] == ticks[..k];
      StopRatchet(p, ticks[..n], cfg, k);
      StopRatchetStep(p, ticks, cfg);
    }
  }

  lemma {:induction false} StopRatchetStep(p: Position, ticks: seq<Tick>, cfg: PositionConfig)
    requires Fresh(p) && Ordered(cfg) && |ticks| > 0
    ensures var o, q := Run(p, ticks[..|ticks| - 1], cfg).p, Run(p, ticks, cfg).p;
      && Sound(q) && q.side == p.side && q.entry == p.entry && Tightness(q) >= Tightness(o)
      && (!q.breakeven ==> q.stop == p.stop)
  {
    var n := |ticks| - 1;
    if n > 0 { StopRatchetStep(p, ticks[..n], cfg); }
    hide Step;
    match Run(p, ticks[..n], cfg) {
      case Exit(_, _) =>
      case Keep(q) =>
        StepTightens(q, ticks[n].price, ticks[n].now, cfg);
        StepKeepsTrade(q, ticks[n].price, ticks[n].now, cfg);
    }
  }

  // ---- Which positions an overdue tick closes ----

  /** Once the hold limit has passed, a tick closes the position if and only if its stop is not at entry. */
  lemma OverdueTick(p: Position, price: real, now: int, cfg: PositionConfig)
    requires Overdue(p, now, cfg)
    ensures Step(p, price, now, cfg) == if p.stop == p.entry then Keep(p) else Exit(p, TimeExit)
  {
  }

  /** A stop at entry is absorbing: no ticks whatever change or close the position again. */
  lemma {:induction false} StopAtEntryIsAbsorbing(p: Position, ticks: seq<Tick>, cfg: PositionConfig)
    requires p.stop == p.entry
    ensures Run(p, ticks, cfg) == Keep(p)
  {
    if |ticks| > 0 { StopAtEntryIsAbsorbing(p, ticks[..|ticks| - 1], cfg); }
  }

  /** On the whole book: after an overdue tick exactly the positions with the stop at entry are left, unchanged. */
  lemma OverdueTickOnBook(b: Book, symbol: string, price: real, now: int, cfg: PositionConfig, id: string)
    requires id in b && b[id].symbol == symbol && Overdue(b[id], now, cfg)
    ensures id in AfterTick(b, symbol, price, now, cfg) <==> b[id].stop == b[id].entry
    ensures id in AfterTick(b, symbol, price, now, cfg) ==> AfterTick(b, symbol, price, now, cfg)[id] == b[id]
  {
    OverdueTick(b[id], price, now, cfg);
    hide Step;
  }

  /** The distance of a price from entry in the position's favour. */
  function Favour(p: Position, price: real): real { if p.side == Long then price - p.entry else p.entry - price }

  /** Reachable states of a position opened as the execution agent opens them (no ATR). */
  ghost predicate Reachable(q: Position) {
    && Sound(q) && q.atr == 0.0
    && (q.breakeven && !q.trailing ==> q.stop == q.entry)
    && (q.trailing ==> Tightness(q) > 0.0)
  }

  lemma SameFavour(p: Position, q: Position, price: real)
    requires SameTrade(p, q)
    ensures Favour(q, price) == Favour(p, price)
  {
  }

  lemma ArmOpen(q: Position, profitR: real, cfg: PositionConfig)
    ensures var a := Arm(q, profitR, cfg);
      && SameTrade(q, a)
      && (a.breakeven <==> q.breakeven || profitR >= cfg.breakevenR)
      && (a.trailing <==> q.trailing || profitR >= cfg.trailActivateR)
      && a.stop == (if !q.breakeven && profitR >= cfg.breakevenR then q.entry else q.stop)
      && a == q.(breakeven := a.breakeven, trailing := a.trailing, stop := a.stop)
  {
  }

  lemma TrailOpen(q: Position, price: real, cfg: PositionConfig)
    requires q.atr == 0.0
    ensures var o := if q.side == Long then TrailLong(q, price, cfg) else TrailShort(q, price, cfg);
      && SameTrade(q, o.p) && o.p == q.(stop := o.p.stop)
      && (!q.trailing ==> o == Keep(q))
      && (q.trailing ==> 2.0 * Tightness(o.p) == Max(2.0 * Tightness(q), Favour(q, price)))
  {
    hide Times;
  }

  /** The three ways a tick can leave a position open. */
  lemma OpenStep(q: Position, price: real, now: int, cfg: PositionConfig)
    requires Reachable(q) && Ordered(cfg) && Step(q, price, now, cfg).Keep?
    ensures var o := Step(q, price, now, cfg).p;
      && Reachable(o)
      && (q.stop == q.entry ==> o == q)
      && (!q.breakeven ==> var profitR := ProfitR(Favour(q, price), Abs(q.entry - q.stop));
            && (o.breakeven <==> profitR >= cfg.breakevenR)
            && (o.trailing <==> profitR >= cfg.trailActivateR)
            && (o.trailing ==> Favour(q, price) > 0.0 && 2.0 * Tightness(o) == Favour(q, price)))
      && (q.trailing ==> o.trailing && 2.0 * Tightness(o) == Max(2.0 * Tightness(q), Favour(q, price)))
  {
    hide ProfitR, Arm, TrailLong, TrailShort;
    var r := Abs(q.entry - q.stop);
    if r > 0.0 {
      var profitR := ProfitR(Favour(q, price), r);
      ProfitSign(Favour(q, price), r);
      ArmOpen(q, profitR, cfg);
      SameFavour(q, Arm(q, profitR, cfg), price);
      TrailOpen(Arm(q, profitR, cfg), price, cfg);
      hide Favour;
    }
  }

  lemma {:induction false} RunReachable(p: Position, ticks: seq<Tick>, cfg: PositionConfig)
    requires Fresh(p) && p.atr == 0.0 && Ordered(cfg) && Run(p, ticks, cfg).Keep?
    ensures Reachable(Run(p, ticks, cfg).p) && SameTrade(p, Run(p, ticks, cfg).p)
  {
    if |ticks| > 0 {
      var n := |ticks| - 1;
      RunReachable(p, ticks[..n], cfg);
      hide Step;
      OpenStep(Run(p, ticks[..n], cfg).p, ticks[n].price, ticks[n].now, cfg);
      StepKeepsTrade(Run(p, ticks[..n], cfg).p, ticks[n].price, ticks[n].now, cfg);
    }
  }

  /** A position is in the absorbing state exactly when breakeven fired without trailing; it gets there by a
      tick whose profit lies from the breakeven threshold up to, but not including, the trailing one. */
  lemma StuckExactlyWhen(p: Position, ticks: seq<Tick>, cfg: PositionConfig)
    requires Fresh(p) && p.atr == 0.0 && Ordered(cfg) && |ticks| > 0 && Run(p, ticks, cfg).Keep?
    ensures var o, q := Run(p, ticks[..|ticks| - 1], cfg).p, Run(p, ticks, cfg).p;
      && (q.stop == q.entry <==> q.breakeven && !q.trailing)
      && (q.stop == q.entry <==>
            o.stop == o.entry
            || (!o.breakeven && var profitR := ProfitR(Favour(o, ticks[|ticks| - 1].price), Abs(o.entry - o.stop));
                cfg.breakevenR <= profitR < cfg.trailActivateR))
  {
    hide Run, Step, ProfitR;
    var n := |ticks| - 1;
    RunSnoc(p, ticks, cfg);
    var o := Run(p, ticks[..n], cfg).p;
    RunReachable(p, ticks[..n], cfg);
    RunReachable(p, ticks, cfg);
    OpenStep(o, ticks[n].price, ticks[n].now, cfg);
  }

  ghost predicate ActivatedAt(p: Position, ticks: seq<Tick>, cfg: PositionConfig, a: nat) {
    a < |ticks| && !Run(p, ticks[..a], cfg).p.trailing && Run(p, ticks[..a + 1], cfg).p.trailing
  }

  ghost predicate BestSince(p: Position, ticks: seq<Tick>, a: nat, b: nat) {
    a <= b < |ticks| && forall k :: a <= k < |ticks| ==> Favour(p, ticks[k].price) <= Favour(p, ticks[b].price)
  }

  lemma ActivatedEarlier(p: Position, ticks: seq<Tick>, cfg: PositionConfig, a: nat)
    requires |ticks| > 0 && ActivatedAt(p, ticks[..|ticks| - 1], cfg, a)
    ensures ActivatedAt(p, ticks, cfg, a)
  {
    hide Run;
    var n := |ticks| - 1;
    assert ticks[..n][..a] == ticks[..a] && ticks[..n][..a + 1] == ticks[..a + 1];
  }

  lemma BestExtended(p: Position, ticks: seq<Tick>, a: nat, b: nat) returns (b': nat)
    requires |ticks| > 0 && BestSince(p, ticks[..|ticks| - 1], a, b)
    ensures BestSince(p, ticks, a, b')
    ensures Favour(p, ticks[b'].price) == Max(Favour(p, ticks[b].price), Favour(p, ticks[|ticks| - 1].price))
  {
    hide Favour;
    var n := |ticks| - 1;
    b' := if Favour(p, ticks[n].price) > Favour(p, ticks[b].price) then n else b;
    forall k | a <= k < n ensures Favour(p, ticks[k].price) <= Favour(p, ticks[b].price) {
      assert ticks[..n][k] == ticks[k];
    }
  }

  lemma {:induction false} TrailingTightness(p: Position, ticks: seq<Tick>, cfg: PositionConfig)
    returns (a: nat, b: nat)
    requires Fresh(p) && p.atr == 0.0 && Ordered(cfg)
    requires Run(p, ticks, cfg).Keep? && Run(p, ticks, cfg).p.trailing
    ensures ActivatedAt(p, ticks, cfg, a) && BestSince(p, ticks, a, b)
    ensures 2.0 * Tightness(Run(p, ticks, cfg).p) == Favour(p, ticks[b].price)
  {
    assert |ticks| > 0;
    hide Run, Step, ProfitR, Tightness, ActivatedAt, Reachable, Favour;
    var n := |ticks| - 1;
    RunSnoc(p, ticks, cfg);
    var q, price := Run(p, ticks[..n], cfg).p, ticks[n].price;
    RunReachable(p, ticks[..n], cfg);
    OpenStep(q, price, ticks[n].now, cfg);
    SameFavour(p, q, price);
    Untrailed(q);
    if q.trailing {
      a, b := TrailingTightness(p, ticks[..n], cfg);
      ActivatedEarlier(p, ticks, cfg, a);
      b := BestExtended(p, ticks, a, b);
    } else {
      a, b := n, n;
      JustActivated(p, ticks, cfg);
    }
  }

  lemma Untrailed(q: Position)
    requires Reachable(q)
    ensures q.breakeven && !q.trailing ==> q.stop == q.entry
  {
  }

  lemma JustActivated(p: Position, ticks: seq<Tick>, cfg: PositionConfig)
    requires |ticks| > 0 && Run(p, ticks, cfg).p.trailing && !Run(p, ticks[..|ticks| - 1], cfg).p.trailing
    ensures ActivatedAt(p, ticks, cfg, |ticks| - 1) && BestSince(p, ticks, |ticks| - 1, |ticks| - 1)
  {
    hide Run;
    assert ticks[..|ticks|] == ticks;
  }

  /** While trailing, the stop is the midpoint of entry and the best price since activation:
      activation happened at tick `a`, the best price came at tick `b`. */
  lemma TrailingMidpoint(p: Position, ticks: seq<Tick>, cfg: PositionConfig) returns (a: nat, b: nat)
    requires Fresh(p) && p.atr == 0.0 && Ordered(cfg)
    requires Run(p, ticks, cfg).Keep? && Run(p, ticks, cfg).p.trailing
    ensures ActivatedAt(p, ticks, cfg, a) && BestSince(p, ticks, a, b)
    ensures Run(p, ticks, cfg).p.stop == (p.entry + ticks[b].price) / 2.0
  {
    hide Run, ActivatedAt;
    a, b := TrailingTightness(p, ticks, cfg);
    RunReachable(p, ticks, cfg);
  }

  lemma NoTrailingLabel(q: Position, price: real, now: int, cfg: PositionConfig)
    requires Reachable(q) && Ordered(cfg) && q.stop > 0.0 && q.entry > 0.0 && price > 0.0
    ensures var o := Step(q, price, now, cfg);
      o.p.stop > 0.0 && (o.Exit? ==> o.reason != Trailing)
  {
    hide Times;
    var r := Abs(q.entry - q.stop);
    if r > 0.0 { ProfitSign(Favour(q, price), r); }
    hide ProfitR;
  }

  /** With positive prices a trailed position always leaves through the hard-stop test: the exit
      reason `Trailing` is never reported for a position opened without ATR. */
  lemma {:induction false} NeverReportsTrailing(p: Position, ticks: seq<Tick>, cfg: PositionConfig)
    requires Fresh(p) && p.atr == 0.0 && Ordered(cfg) && p.stop > 0.0 && p.entry > 0.0
    requires forall k :: 0 <= k < |ticks| ==> ticks[k].price > 0.0
    ensures var o := Run(p, ticks, cfg);
      o.p.stop > 0.0 && (o.Exit? ==> o.reason != Trailing)
  {
    if |ticks| > 0 {
      var n := |ticks| - 1;
      NeverReportsTrailing(p, ticks[..n], cfg);
      hide Step;
      if Run(p, ticks[..n], cfg).Keep? {
        RunReachable(p, ticks[..n], cfg);
        NoTrailingLabel(Run(p, ticks[..n], cfg).p, ticks[n].price, ticks[n].now, cfg);
      }
    }
  }

  // ---- What closes a position ----

  predicate StopReached(p: Position, price: real) { if p.side == Long then price <= p.stop else price >= p.stop }

  predicate TargetReached(p: Position, price: real) { if p.side == Long then price >= p.target else price <= p.target }

  /** The hold limit has passed when more whole seconds than it allows lie behind the opening. */
  lemma OverdueFrom(p: Position, now: int, cfg: PositionConfig)
    ensures Overdue(p, now, cfg) <==> cfg.maxHoldSecs > 0 && now >= p.openedAt + 1000 * cfg.maxHoldSecs + 1000
  {
    var held := now - p.openedAt;
    assert held == 1000 * (held / 1000) + held % 1000;
  }

  /** One tick of a position whose stop has not come to rest at entry: past the hold limit it closes as overdue;
      else at its stop it closes as stopped; else at its target it closes with the profit taken; else it stays. */
  lemma ExitsExactly(q: Position, price: real, now: int, cfg: PositionConfig)
    requires Reachable(q) && Ordered(cfg) && q.stop != q.entry && q.stop > 0.0
    ensures var o, late := Step(q, price, now, cfg), Overdue(q, now, cfg);
      && (o.Exit? && o.reason == TimeExit <==> late)
      && (o.Exit? && o.reason == StopLoss <==> !late && StopReached(q, price))
      && (o.Exit? && o.reason == TakeProfit <==>
            !late && !StopReached(q, price) && q.target > 0.0 && TargetReached(q, price))
      && (o.Keep? <==> !late && !StopReached(q, price) && !(q.target > 0.0 && TargetReached(q, price)))
      && (o.Exit? ==> o.p == q)
  {
    hide Times;
    var r := Abs(q.entry - q.stop);
    ProfitSign(Favour(q, price), r);
    hide ProfitR;
  }

  /** So it is for every position as the execution agent opens it. */
  lemma FreshExits(p: Position, price: real, now: int, cfg: PositionConfig)
    requires Fresh(p) && p.atr == 0.0 && Ordered(cfg) && !Overdue(p, now, cfg) && p.stop > 0.0 && p.target > 0.0
    requires !(StopReached(p, price) && TargetReached(p, price))
    ensures Step(p, price, now, cfg) == Exit(p, TakeProfit) <==> TargetReached(p, price)
    ensures Step(p, price, now, cfg) == Exit(p, StopLoss) <==> StopReached(p, price)
    ensures Step(p, price, now, cfg).Keep? <==> !TargetReached(p, price) && !StopReached(p, price)
  {
    ExitsExactly(p, price, now, cfg);
    hide Step, Overdue;
  }

  lemma {:induction false} StopStaysPositive(p: Position, ticks: seq<Tick>, cfg: PositionConfig)
    requires Fresh(p) && p.atr == 0.0 && Ordered(cfg) && p.stop > 0.0 && p.entry > 0.0
    requires forall k :: 0 <= k < |ticks| ==> ticks[k].price > 0.0
    ensures Run(p, ticks, cfg).p.stop > 0.0
  {
    NeverReportsTrailing(p, ticks, cfg);
  }

  lemma {:induction false} KeptBefore(p: Position, ticks: seq<Tick>, cfg: PositionConfig, k: nat)
    requires k <= |ticks| && Run(p, ticks, cfg).Keep?
    ensures Run(p, ticks[..k], cfg).Keep?
  {
    if k == |ticks| {
      assert ticks[..k] == ticks;
    } else {
      assert ticks[..|ticks| - 1][..k] == ticks[..k];
      KeptBefore(p, ticks[..|ticks| - 1], cfg, k);
    }
  }

  /** The tick finds the position with its stop off entry, in time, and on neither its stop nor its target. */
  ghost predicate Untouched(o: Position, t: Tick, cfg: PositionConfig) {
    && !Overdue(o, t.now, cfg) && !StopReached(o, t.price)
    && !(o.target > 0.0 && TargetReached(o, t.price))
  }

  /** A position is still open after any ticks only if each of them, as long as the stop had not come to rest at
      entry, found it in time, off its stop as that then stood, and off its target. */
  lemma KeptUntouched(p: Position, ticks: seq<Tick>, cfg: PositionConfig, k: nat)
    requires Fresh(p) && p.atr == 0.0 && Ordered(cfg) && p.stop > 0.0 && p.entry > 0.0
    requires forall j :: 0 <= j < |ticks| ==> ticks[j].price > 0.0
    requires Run(p, ticks, cfg).Keep? && k < |ticks|
    ensures var o := Run(p, ticks[..k], cfg).p;
      && SameTrade(o, p) && o.target == p.target
      && (o.stop == o.entry || Untouched(o, ticks[k], cfg))
  {
    hide Run, Step, Overdue;
    KeptBefore(p, ticks, cfg, k);
    KeptBefore(p, ticks, cfg, k + 1);
    RunReachable(p, ticks[..k], cfg);
    TargetKept(p, ticks[..k], cfg);
    StopStaysPositive(p, ticks[..k], cfg);
    assert ticks[..k + 1][..k] == ticks[..k];
    RunSnoc(p, ticks[..k + 1], cfg);
    var o := Run(p, ticks[..k], cfg).p;
    if o.stop != o.entry { ExitsExactly(o, ticks[k].price, ticks[k].now, cfg); }
  }

  lemma {:induction false} TargetKept(p: Position, ticks: seq<Tick>, cfg: PositionConfig)
    ensures Run(p, ticks, cfg).p.target == p.target
  {
    if |ticks| > 0 {
      TargetKept(p, ticks[..|ticks| - 1], cfg);
      hide Times, ProfitR;
    }
  }

  /** The tick that closed the position, and why. */
  ghost predicate ClosedAt(p: Position, ticks: seq<Tick>, cfg: PositionConfig, k: nat, q: Position, why: ExitReason) {
    && k < |ticks| && Run(p, ticks[..k], cfg) == Keep(q) && q.stop != q.entry
    && var late, stopped := Overdue(q, ticks[k].now, cfg), StopReached(q, ticks[k].price);
       && (why == TimeExit <==> late)
       && (why == StopLoss <==> !late && stopped)
       && (why == TakeProfit <==> !late && !stopped && q.target > 0.0 && TargetReached(q, ticks[k].price))
       && (why == TimeExit || why == StopLoss || why == TakeProfit)
  }

  /** A position that was closed was closed by one tick, for the reason reported, and as it stood before it. */
  lemma {:induction false} ClosedWhy(p: Position, ticks: seq<Tick>, cfg: PositionConfig) returns (k: nat)
    requires Fresh(p) && p.atr == 0.0 && Ordered(cfg) && p.stop > 0.0 && p.entry > 0.0
    requires forall j :: 0 <= j < |ticks| ==> ticks[j].price > 0.0
    requires Run(p, ticks, cfg).Exit?
    ensures ClosedAt(p, ticks, cfg, k, Run(p, ticks, cfg).p, Run(p, ticks, cfg).reason)
  {
    var n := |ticks| - 1;
    var front := ticks[..n];
    if Run(p, front, cfg).Exit? {
      k := ClosedWhy(p, front, cfg);
      assert front[..k] == ticks[..k];
    } else {
      k := n;
      var q := Run(p, front, cfg).p;
      RunReachable(p, front, cfg);
      StopStaysPositive(p, front, cfg);
      AtEntryStays(q, ticks[n].price, ticks[n].now, cfg);
      hide Step, Overdue;
      ExitsExactly(q, ticks[n].price, ticks[n].now, cfg);
    }
  }

  lemma AtEntryStays(q: Position, price: real, now: int, cfg: PositionConfig)
    ensures q.stop == q.entry ==> Step(q, price, now, cfg) == Keep(q)
  {
    hide Times, ProfitR;
  }

  // ---- Trailing by the ATR ----

  /** The stop lies at the distance `gap` behind the best of the prices, or where it began if that is tighter. */
  ghost predicate TrailsBest(q: Position, o: Position, ticks: seq<Tick>, gap: real) {
    && Tightness(o) >= Tightness(q)
    && (forall k :: 0 <= k < |ticks| ==> Tightness(o) >= Favour(q, ticks[k].price) - gap)
    && (Tightness(o) == Tightness(q)
        || exists k :: 0 <= k < |ticks| && Tightness(o) == Favour(q, ticks[k].price) - gap)
  }

  /** With an ATR a trailing stop keeps that multiple of it behind the best price. */
  lemma {:induction false} AtrTrail(q: Position, ticks: seq<Tick>, cfg: PositionConfig)
    requires q.trailing && q.breakeven && q.atr > 0.0 && Tightness(q) > 0.0 && Run(q, ticks, cfg).Keep?
    ensures var o := Run(q, ticks, cfg).p;
      o.trailing && o.breakeven && SameTrade(q, o) && TrailsBest(q, o, ticks, Times(q.atr, cfg.trailAtrMult))
  {
    hide Times, Step, Favour, Tightness;
    if |ticks| > 0 {
      var n := |ticks| - 1;
      AtrTrail(q, ticks[..n], cfg);
      RunSnoc(q, ticks, cfg);
      hide Run;
      var o := Run(q, ticks[..n], cfg).p;
      AtrStep(o, ticks[n].price, ticks[n].now, cfg);
      SameFavour(q, o, ticks[n].price);
      BestSoFar(q, o, Run(q, ticks, cfg).p, ticks, Times(q.atr, cfg.trailAtrMult));
    }
  }

  lemma BestSoFar(q: Position, o: Position, u: Position, ticks: seq<Tick>, gap: real)
    requires |ticks| > 0 && TrailsBest(q, o, ticks[..|ticks| - 1], gap)
    requires Tightness(u) == Max(Tightness(o), Favour(q, ticks[|ticks| - 1].price) - gap)
    ensures TrailsBest(q, u, ticks, gap)
  {
    hide Favour, Tightness;
    var n := |ticks| - 1;
    forall k | 0 <= k < n ensures Tightness(u) >= Favour(q, ticks[k].price) - gap {
      assert ticks[..n][k] == ticks[k];
    }
    if Tightness(u) == Tightness(o) && Tightness(o) != Tightness(q) {
      var k :| 0 <= k < n && Tightness(o) == Favour(q, ticks[..n][k].price) - gap;
      assert ticks[..n][k] == ticks[k];
    }
  }

  lemma AtrStep(q: Position, price: real, now: int, cfg: PositionConfig)
    requires q.trailing && q.breakeven && q.atr > 0.0 && Tightness(q) > 0.0 && Step(q, price, now, cfg).Keep?
    ensures var o := Step(q, price, now, cfg).p;
      && o.trailing && o.breakeven && SameTrade(q, o)
      && Tightness(o) == Max(Tightness(q), Favour(q, price) - Times(q.atr, cfg.trailAtrMult))
  {
    hide Times, ProfitR;
  }

  // ---- Profits ----

  /** A close above entry earns for a Long and costs for a Short, a close below the other way round; the amount is
      the size times the distance. */
  lemma ProfitMeaning(p: Position, exitPrice: real)
    requires p.size > 0.0
    ensures PnlUsd(p, exitPrice) > 0.0 <==> if p.side == Long then exitPrice > p.entry else exitPrice < p.entry
    ensures PnlUsd(p, exitPrice) < 0.0 <==> if p.side == Long then exitPrice < p.entry else exitPrice > p.entry
    ensures Abs(PnlUsd(p, exitPrice)) == Times(p.size, Abs(exitPrice - p.entry))
  {
    TimesSigns(if p.side == Long then exitPrice - p.entry else p.entry - exitPrice, p.size);
  }

  // ---- Long and Short are mirror images about entry ----

  function Reflect(entry: real, price: real): real { 2.0 * entry - price }

  function Mirror(p: Position): Position {
    p.(side := if p.side == Long then Short else Long,
       stop := Reflect(p.entry, p.stop),
       target := Reflect(p.entry, p.target))
  }

  function MirrorOutcome(o: Outcome): Outcome {
    match o case Keep(p) => Keep(Mirror(p)) case Exit(p, why) => Exit(Mirror(p), why)
  }

  function MirrorTicks(entry: real, ticks: seq<Tick>): (r: seq<Tick>)
    ensures |r| == |ticks|
  {
    seq(|ticks|, i requires 0 <= i < |ticks| => Tick(Reflect(entry, ticks[i].price), ticks[i].now))
  }

  lemma MirrorTickAt(entry: real, ticks: seq<Tick>, n: nat)
    requires n < |ticks|
    ensures MirrorTicks(entry, ticks)[n] == Tick(Reflect(entry, ticks[n].price), ticks[n].now)
  {
  }

  /** Both a price and its reflection are positive. */
  predicate Inside(entry: real, price: real) { 0.0 < price < 2.0 * entry }

  lemma StepMirror(p: Position, price: real, now: int, cfg: PositionConfig)
    requires Inside(p.entry, p.stop) && Inside(p.entry, p.target)
    ensures Step(Mirror(p), Reflect(p.entry, price), now, cfg) == MirrorOutcome(Step(p, price, now, cfg))
  {
    hide ProfitR, Arm, TrailLong, TrailShort;
    var r := Abs(p.entry - p.stop);
    if r > 0.0 {
      var profitR := ProfitR(Favour(p, price), r);
      assert Favour(Mirror(p), Reflect(p.entry, price)) == Favour(p, price);
      ArmMirror(p, profitR, cfg);
      ArmKeepsTrade(p, profitR, cfg);
      TrailMirror(Arm(p, profitR, cfg), price, cfg);
    }
  }

  lemma ArmMirror(p: Position, profitR: real, cfg: PositionConfig)
    ensures Arm(Mirror(p), profitR, cfg) == Mirror(Arm(p, profitR, cfg))
  {
  }

  lemma TrailMirror(q: Position, price: real, cfg: PositionConfig)
    ensures TrailShort(Mirror(q), Reflect(q.entry, price), cfg) == MirrorOutcome(TrailLong(q, price, cfg))
    ensures TrailLong(Mirror(q), Reflect(q.entry, price), cfg) == MirrorOutcome(TrailShort(q, price, cfg))
  {
    hide Times;
  }

  lemma ArmInside(p: Position, profitR: real, cfg: PositionConfig)
    requires Inside(p.entry, p.stop)
    ensures var q := Arm(p, profitR, cfg); Inside(q.entry, q.stop) && q.target == p.target && SameTrade(p, q)
  {
  }

  lemma TrailInside(q: Position, price: real, cfg: PositionConfig)
    requires Inside(q.entry, q.stop) && Inside(q.entry, price)
    requires (q.atr > 0.0 ==> Times(q.atr, cfg.trailAtrMult) >= 0.0)
    ensures var o := (if q.side == Long then TrailLong(q, price, cfg) else TrailShort(q, price, cfg)).p;
      Inside(o.entry, o.stop) && o.target == q.target && SameTrade(q, o)
  {
    hide Times;
  }

  lemma StaysInside(p: Position, price: real, now: int, cfg: PositionConfig)
    requires Inside(p.entry, p.stop) && Inside(p.entry, price) && (p.atr > 0.0 ==> cfg.trailAtrMult >= 0.0)
    ensures var q := Step(p, price, now, cfg).p;
      Inside(q.entry, q.stop) && q.target == p.target && q.entry == p.entry && q.atr == p.atr
  {
    hide Times, ProfitR, Arm, TrailLong, TrailShort;
    if p.atr > 0.0 { TimesSign(p.atr, cfg.trailAtrMult); }
    var r := Abs(p.entry - p.stop);
    if r > 0.0 {
      var profitR := ProfitR(Favour(p, price), r);
      ArmInside(p, profitR, cfg);
      TrailInside(Arm(p, profitR, cfg), price, cfg);
      hide Inside;
    }
  }

  /** Step for step: a Long and the Short obtained by reflecting every price about entry go through mirrored
      states and leave together for the same reason, while all prices stay positive on both sides. */
  lemma {:induction false} RunMirror(p: Position, ticks: seq<Tick>, cfg: PositionConfig)
    requires Inside(p.entry, p.stop) && Inside(p.entry, p.target) && (p.atr > 0.0 ==> cfg.trailAtrMult >= 0.0)
    requires forall k :: 0 <= k < |ticks| ==> Inside(p.entry, ticks[k].price)
    ensures Run(Mirror(p), MirrorTicks(p.entry, ticks), cfg) == MirrorOutcome(Run(p, ticks, cfg))
    ensures var q := Run(p, ticks, cfg).p;
      Inside(q.entry, q.stop) && q.target == p.target && q.entry == p.entry && q.atr == p.atr
  {
    hide Step, Mirror, Inside, Reflect;
    if |ticks| > 0 {
      var n := |ticks| - 1;
      RunMirror(p, ticks[..n], cfg);
      assert MirrorTicks(p.entry, ticks)[..n] == MirrorTicks(p.entry, ticks[..n]);
      hide MirrorTicks;
      var q := Run(p, ticks[..n], cfg).p;
      MirrorTickAt(p.entry, ticks, n);
      StepMirror(q, ticks[n].price, ticks[n].now, cfg);
      StaysInside(q, ticks[n].price, ticks[n].now, cfg);
    }
  }
}
