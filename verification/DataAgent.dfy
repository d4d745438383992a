/** The data agent's receive loop (src/agents/data.rs): per symbol one builder per timeframe, all
    fed the same trades; each trade is published before the candles it closes. */
module DataAgent {
  import opened Reals
  import opened Candles

  /** `Quiet` stands for the socket's own heartbeats and disconnect notices. */
  datatype WsEvent = TradeSeen(symbol: string, trade: Trade) | BookTickerSeen(symbol: string) | Quiet

  datatype BusEvent =
    | Tick(symbol: string, trade: Trade)
    | CandleClosed(symbol: string, timeframe: int, candle: Candle)
    | BookTicker(symbol: string)
    | Heartbeat

  ghost predicate Positive(timeframes: seq<int>) { forall i :: 0 <= i < |timeframes| ==> timeframes[i] > 0 }

  /** The trades of one symbol, in order of arrival. */
  function TradesOf(events: seq<WsEvent>, symbol: string): seq<Trade>
  {
    if |events| == 0 then []
    else
      var e := events[|events| - 1];
      TradesOf(events[..|events| - 1], symbol) + (if e.TradeSeen? && e.symbol == symbol then [e.trade] else [])
  }

  function Closing(symbol: string, timeframe: int, c: Option<Candle>): seq<BusEvent> {
    if c == None then [] else [CandleClosed(symbol, timeframe, c.value)]
  }

  /** The candles trade t closes, in the order of the timeframes. */
  function ClosedBy(symbol: string, trades: seq<Trade>, t: Trade, timeframes: seq<int>): seq<BusEvent>
    requires Positive(timeframes)
  {
    if |timeframes| == 0 then []
    else
      var n := |timeframes| - 1;
      ClosedBy(symbol, trades, t, timeframes[..n]) + Closing(symbol, timeframes[n], Finalized(trades, t, timeframes[n]))
  }

  function Published(before: seq<WsEvent>, e: WsEvent, symbols: set<string>, timeframes: seq<int>): seq<BusEvent>
    requires Positive(timeframes)
  {
    match e
    case TradeSeen(s, t) =>
      [Tick(s, t)] + (if s in symbols then ClosedBy(s, TradesOf(before, s), t, timeframes) else []) + [Heartbeat]
    case BookTickerSeen(s) => [BookTicker(s), Heartbeat]
    case Quiet => [Heartbeat]
  }

  /** Everything the agent publishes on a history of socket events. */
  function Publications(events: seq<WsEvent>, symbols: set<string>, timeframes: seq<int>): seq<BusEvent>
    requires Positive(timeframes)
  {
    if |events| == 0 then []
    else
      var n := |events| - 1;
      Publications(events[..n], symbols, timeframes) + Published(events[..n], events[n], symbols, timeframes)
  }

  class DataAgent {
    const timeframes: seq<int>
    const symbols: set<string>
    var builders: map<string, seq<OhlcvBuilder>>
    var log: seq<BusEvent>
    ghost var history: seq<WsEvent>

    ghost function Builders(): set<object> reads this`builders {
      set s, i | s in builders && 0 <= i < |builders[s]| :: builders[s][i]
    }

    /** A symbol's builders, one per timeframe, have all seen exactly these trades. */
    ghost predicate Fed(s: string, trades: seq<Trade>)
      reads this`builders, Builders()
      requires s in builders
    {
      && |builders[s]| == |timeframes|
      && forall i :: 0 <= i < |timeframes| ==>
           builders[s][i].Valid() && builders[s][i].intervalSecs == timeframes[i] && builders[s][i].seen == trades
    }

    ghost predicate AllFed(events: seq<WsEvent>) reads this`builders, Builders() {
      forall s :: s in builders ==> Fed(s, TradesOf(events, s))
    }

    ghost predicate Separate() reads this`builders {
      forall s, t, i, j ::
        s in builders && t in builders && 0 <= i < |builders[s]| && 0 <= j < |builders[t]|
        && builders[s][i] == builders[t][j]
        ==> s == t && i == j
    }

    ghost predicate Valid() reads this, Builders() {
      && Positive(timeframes) && builders.Keys == symbols && Separate()
      && AllFed(history) && log == Publications(history, symbols, timeframes)
    }

    constructor (names: seq<string>, configured: seq<int>)
      requires Positive(configured)
      ensures Valid() && history == [] && fresh(Builders())
      ensures timeframes == if configured == [] then [300] else configured
      ensures symbols == set s | s in names
    {
      timeframes := if configured == [] then [300] else configured;
      symbols := set s | s in names;
      builders, log, history := map[], [], [];
      new;
      hide Fed;
      var todo := symbols;
      while todo != {}
        invariant builders.Keys == symbols - todo && todo <= symbols
        invariant fresh(Builders()) && Separate() && AllFed([])
        invariant history == [] && log == []
        decreases todo
      {
        var s :| s in todo;
        AddSymbol(s);
        todo := todo - {s};
      }
    }

    method AddSymbol(s: string)
      requires Positive(timeframes) && s !in builders && Separate() && AllFed([])
      modifies this`builders
      ensures builders.Keys == old(builders.Keys) + {s} && Separate() && AllFed([])
      ensures fresh(Builders() - old(Builders()))
    {
      hide CandlesOf, OhlcvBuilder.Valid;
      var list := NewBuilders(timeframes);
      ghost var was := Builders();
      builders := builders[s := list];
      assert forall r :: r in builders && r != s ==> Fed(r, []) by {
        assert forall r :: r in old(builders) ==> old(Fed(r, []));
      }
      assert Builders() <= was + set i | 0 <= i < |list| :: list[i];
    }

    static method NewBuilders(timeframes: seq<int>) returns (list: seq<OhlcvBuilder>)
      requires Positive(timeframes)
      ensures |list| == |timeframes|
      ensures forall i :: 0 <= i < |list| ==> fresh(list[i])
      ensures forall i, j :: 0 <= i < j < |list| ==> list[i] != list[j]
      ensures forall i :: 0 <= i < |list| ==>
                list[i].Valid() && list[i].seen == [] && list[i].intervalSecs == timeframes[i]
    {
      hide CandlesOf, OhlcvBuilder.Valid;
      list := [];
      for i := 0 to |timeframes|
        invariant |list| == i
        invariant forall k :: 0 <= k < i ==> fresh(list[k])
        invariant forall j, k :: 0 <= j < k < i ==> list[j] != list[k]
        invariant forall k :: 0 <= k < i ==>
                    list[k].Valid() && list[k].seen == [] && list[k].intervalSecs == timeframes[k]
      {
        var b := new OhlcvBuilder(timeframes[i]);
        list := list + [b];
      }
    }

    static method IngestAll(s: string, list: seq<OhlcvBuilder>, timeframes: seq<int>, t: Trade,
                            ghost trades: seq<Trade>)
      returns (closed: seq<BusEvent>)
      requires Positive(timeframes) && |list| == |timeframes|
      requires forall i, j :: 0 <= i < j < |list| ==> list[i] != list[j]
      requires forall i :: 0 <= i < |list| ==>
                 list[i].Valid() && list[i].seen == trades && list[i].intervalSecs == timeframes[i]
      modifies list
      ensures closed == ClosedBy(s, trades, t, timeframes)
      ensures forall i :: 0 <= i < |list| ==> list[i].Valid() && list[i].seen == trades + [t]
    {
      hide CandlesOf, OhlcvBuilder.Valid, Finalized;
      closed := [];
      for i := 0 to |list|
        invariant closed == ClosedBy(s, trades, t, timeframes[..i])
        invariant forall k :: 0 <= k < i ==> list[k].Valid() && list[k].seen == trades + [t]
        invariant forall k :: i <= k < |list| ==> list[k].Valid() && list[k].seen == trades
      {
        var candle := list[i].Ingest(t);
        assert timeframes[..i + 1][..i] == timeframes[..i];
        if candle != None { closed := closed + [CandleClosed(s, timeframes[i], candle.value)]; }
      }
      assert timeframes[..|list|] == timeframes;
    }

    method Feed(s: string, t: Trade) returns (closed: seq<BusEvent>)
      requires Valid()
      modifies Builders()
      ensures AllFed(history + [TradeSeen(s, t)])
      ensures closed == if s in symbols then ClosedBy(s, TradesOf(history, s), t, timeframes) else []
    {
      hide ClosedBy, OhlcvBuilder.Valid, TradesOf;
      closed := [];
      TradesAfter(history, TradeSeen(s, t));
      if s in builders {
        assert Fed(s, TradesOf(history, s));
        closed := IngestAll(s, builders[s], timeframes, t, TradesOf(history, s));
        assert Fed(s, TradesOf(history + [TradeSeen(s, t)], s));
      }
    }

    lemma AlreadyFed(e: WsEvent)
      requires AllFed(history) && !e.TradeSeen?
      ensures AllFed(history + [e])
    {
      hide Fed;
      TradesAfter(history, e);
    }

    /** One turn of the receive loop: the log stays exactly what the whole history publishes. */
    method OnEvent(e: WsEvent)
      requires Valid()
      modifies this`log, this`history, Builders()
      ensures Valid() && history == old(history) + [e]
    {
      hide AllFed, Separate, Publications, ClosedBy, TradesOf;
      ghost var before := history;
      if !e.TradeSeen? { AlreadyFed(e); }
      match e {
        case TradeSeen(s, t) =>
          var closed := Feed(s, t);
          log := log + [Tick(s, t)];
          log := log + closed;
        case BookTickerSeen(s) =>
          log := log + [BookTicker(s)];
        case Quiet =>
      }
      log := log + [Heartbeat];
      history := history + [e];
      PublicationsStep(before, e, symbols, timeframes);
    }
  }

  lemma TradesAfter(events: seq<WsEvent>, e: WsEvent)
    ensures forall s :: TradesOf(events + [e], s)
                     == if e.TradeSeen? && e.symbol == s then TradesOf(events, s) + [e.trade] else TradesOf(events, s)
  {
    assert (events + [e])[..|events|] == events;
  }

  lemma PublicationsStep(events: seq<WsEvent>, e: WsEvent, symbols: set<string>, timeframes: seq<int>)
    requires Positive(timeframes)
    ensures Publications(events + [e], symbols, timeframes)
         == Publications(events, symbols, timeframes) + Published(events, e, symbols, timeframes)
  {
    assert (events + [e])[..|events|] == events;
  }

  // ---- The published candles ----

  function ClosedCandles(log: seq<BusEvent>, symbol: string, timeframe: int): seq<Candle>
  {
    if |log| == 0 then []
    else
      var e := log[|log| - 1];
      ClosedCandles(log[..|log| - 1], symbol, timeframe) +
      (if e.CandleClosed? && e.symbol == symbol && e.timeframe == timeframe then [e.candle] else [])
  }

  lemma {:induction false} ClosedConcat(a: seq<BusEvent>, b: seq<BusEvent>, symbol: string, timeframe: int)
    ensures ClosedCandles(a + b, symbol, timeframe)
        == ClosedCandles(a, symbol, timeframe) + ClosedCandles(b, symbol, timeframe)
  {
    if |b| == 0 {
      assert a + b == a;
    } else {
      assert (a + b)[..|a + b| - 1] == a + b[..|b| - 1];
      ClosedConcat(a, b[..|b| - 1], symbol, timeframe);
    }
  }

  /** Every candle of the list, so many times in a row. */
  function Repeated(cs: seq<Candle>, times: nat): seq<Candle>
  {
    if |cs| == 0 then [] else Repeated(cs[..|cs| - 1], times) + seq(times, i => cs[|cs| - 1])
  }

  lemma {:induction false} RepeatedOnce(cs: seq<Candle>)
    ensures Repeated(cs, 1) == cs
  {
    if |cs| > 0 {
      RepeatedOnce(cs[..|cs| - 1]);
      assert seq(1, i => cs[|cs| - 1]) == [cs[|cs| - 1]];
    }
  }

  lemma RepeatedMore(cs: seq<Candle>, c: Option<Candle>, times: nat)
    ensures Repeated(cs + Listed(c), times) == Repeated(cs, times) + Repeated(Listed(c), times)
  {
    if c == None {
      assert cs + Listed(c) == cs;
    } else {
      assert (cs + [c.value])[..|cs|] == cs;
      assert [c.value][..0] == [];
    }
  }

  lemma OnceMore(c: Option<Candle>, times: nat)
    ensures Repeated(Listed(c), times + 1) == Repeated(Listed(c), times) + Listed(c)
  {
    if c != None { assert [c.value][..0] == []; }
  }

  lemma RepeatedNone(c: Option<Candle>)
    ensures Repeated(Listed(c), 0) == []
  {
    if c != None { assert [c.value][..0] == []; }
  }

  lemma ClosedByOne(s: string, t: int, c: Option<Candle>, symbol: string, timeframe: int)
    ensures ClosedCandles(Closing(s, t, c), symbol, timeframe)
         == if s == symbol && t == timeframe then Listed(c) else []
  {
    if c != None { assert ClosedCandles([], symbol, timeframe) == []; }
  }

  lemma ConfiguredOnceMore(timeframes: seq<int>, timeframe: int)
    requires |timeframes| > 0
    ensures var n := |timeframes| - 1;
      multiset(timeframes)[timeframe]
          == multiset(timeframes[..n])[timeframe] + (if timeframes[n] == timeframe then 1 else 0)
  {
    assert timeframes == timeframes[..|timeframes| - 1] + [timeframes[|timeframes| - 1]];
  }

  /** A trade closes the same candle once for every time its timeframe is configured. */
  lemma {:induction false} ClosedByTrade(s: string, trades: seq<Trade>, t: Trade, timeframes: seq<int>,
                                         symbol: string, timeframe: int)
    requires Positive(timeframes) && timeframe > 0
    ensures ClosedCandles(ClosedBy(s, trades, t, timeframes), symbol, timeframe)
         == if s != symbol then []
            else Repeated(Listed(Finalized(trades, t, timeframe)), multiset(timeframes)[timeframe])
  {
    hide Finalized, Listed, Closing, Repeated;
    if |timeframes| == 0 {
      RepeatedNone(Finalized(trades, t, timeframe));
    } else {
      var n := |timeframes| - 1;
      var front, last := timeframes[..n], timeframes[n];
      ClosedByTrade(s, trades, t, front, symbol, timeframe);
      var closing := Closing(s, last, Finalized(trades, t, last));
      assert ClosedBy(s, trades, t, timeframes) == ClosedBy(s, trades, t, front) + closing;
      ClosedConcat(ClosedBy(s, trades, t, front), closing, symbol, timeframe);
      ClosedByOne(s, last, Finalized(trades, t, last), symbol, timeframe);
      hide ClosedCandles, ClosedBy;
      ConfiguredOnceMore(timeframes, timeframe);
      OnceMore(Finalized(trades, t, timeframe), multiset(front)[timeframe]);
    }
  }

  /** All candles but the forming one. */
  function Complete(trades: seq<Trade>, interval: int): seq<Candle>
    requires interval > 0
  {
    var cs := CandlesOf(trades, interval);
    if |cs| == 0 then [] else cs[..|cs| - 1]
  }

  lemma CompleteStep(trades: seq<Trade>, t: Trade, interval: int)
    requires interval > 0
    ensures Complete(trades + [t], interval) == Complete(trades, interval) + Listed(Finalized(trades, t, interval))
  {
    assert (trades + [t])[..|trades|] == trades;
    CandlesStep(trades + [t], interval);
    hide CandlesOf, Start, Extend;
  }

  /** How many builders a symbol has for a timeframe. */
  function Copies(symbols: set<string>, timeframes: seq<int>, symbol: string, timeframe: int): nat {
    if symbol in symbols then multiset(timeframes)[timeframe] else 0
  }

  lemma ClosedByEvent(before: seq<WsEvent>, e: WsEvent, symbols: set<string>, timeframes: seq<int>, symbol: string,
                      timeframe: int)
    requires Positive(timeframes) && timeframe > 0
    ensures var times := Copies(symbols, timeframes, symbol, timeframe);
      ClosedCandles(Published(before, e, symbols, timeframes), symbol, timeframe)
      == if e.TradeSeen? && e.symbol == symbol
         then Repeated(Listed(Finalized(TradesOf(before, symbol), e.trade, timeframe)), times) else []
  {
    hide Finalized, ClosedBy, TradesOf, Repeated, Listed;
    match e {
      case TradeSeen(s, t) =>
        var closed := if s in symbols then ClosedBy(s, TradesOf(before, s), t, timeframes) else [];
        ClosedByTrade(s, TradesOf(before, s), t, timeframes, symbol, timeframe);
        RepeatedNone(Finalized(TradesOf(before, symbol), t, timeframe));
        ClosedConcat([Tick(s, t)], closed, symbol, timeframe);
        ClosedConcat([Tick(s, t)] + closed, [Heartbeat], symbol, timeframe);
      case BookTickerSeen(s) =>
        ClosedConcat([BookTicker(s)], [Heartbeat], symbol, timeframe);
        assert [BookTicker(s)] + [Heartbeat] == [BookTicker(s), Heartbeat];
      case Quiet =>
    }
  }

  /** For every symbol and timeframe, the candles published over a whole run are the complete candles of that
      symbol's trades, each as often as the timeframe is configured (RepeatedOnce: exactly those candles, if it is
      configured once): none lost, reordered or mixed between symbols. */
  lemma {:induction false} PublishedCandles(events: seq<WsEvent>, symbols: set<string>, timeframes: seq<int>,
                                            symbol: string, timeframe: int)
    requires Positive(timeframes) && timeframe > 0
    ensures ClosedCandles(Publications(events, symbols, timeframes), symbol, timeframe)
         == Repeated(Complete(TradesOf(events, symbol), timeframe), Copies(symbols, timeframes, symbol, timeframe))
  {
    if |events| == 0 {
      EmptyStream(timeframe);
    } else {
      hide ClosedCandles, Finalized, Complete, Published, TradesOf, Listed, Repeated, Copies;
      var n, times := |events| - 1, Copies(symbols, timeframes, symbol, timeframe);
      var e, before := events[n], events[..n];
      assert events == before + [e];
      TradesAfter(before, e);
      PublicationsStep(before, e, symbols, timeframes);
      hide Publications;
      PublishedCandles(before, symbols, timeframes, symbol, timeframe);
      ClosedConcat(Publications(before, symbols, timeframes), Published(before, e, symbols, timeframes),
                   symbol, timeframe);
      ClosedByEvent(before, e, symbols, timeframes, symbol, timeframe);
      if e.TradeSeen? && e.symbol == symbol {
        CompleteStep(TradesOf(before, symbol), e.trade, timeframe);
        RepeatedMore(Complete(TradesOf(before, symbol), timeframe),
                     Finalized(TradesOf(before, symbol), e.trade, timeframe), times);
      }
    }
  }
}
