/** Candles from a stream of trades (src/data/ohlcv_builder.rs). Trade times are milliseconds,
    candle times seconds; the builder's fields are proved to be, after any trades in any order,
    the folds of the runs cut by the running-maximum bucket. */
module Candles {
  import opened Reals

  datatype Trade = Trade(ts: int, price: real, qty: real)

  datatype Candle = Candle(
    openTime: int,
    closeTime: int,
    open: real,
    high: real,
    low: real,
    close: real,
    volume: real)

  function RoundDown(s: int, interval: int): int
    requires interval > 0
  {
    s - s % interval
  }

  function BucketFor(t: Trade, interval: int): int
    requires interval > 0
  {
    RoundDown(t.ts / 1000, interval)
  }

  // ---- The declarative form ----

  /** The highest, or lowest, price of a run. */
  function Extreme(run: seq<Trade>, highest: bool): real
    requires |run| > 0
  {
    var p := run[|run| - 1].price;
    if |run| == 1 then p
    else if highest then Max(Extreme(run[..|run| - 1], highest), p)
    else Min(Extreme(run[..|run| - 1], highest), p)
  }

  function Quantities(run: seq<Trade>): (r: seq<real>)
    ensures |r| == |run|
  {
    seq(|run|, i requires 0 <= i < |run| => run[i].qty)
  }

  /** What a run of trades is as a candle of the bucket its first trade opened. */
  function CandleOf(run: seq<Trade>, interval: int): Candle
    requires interval > 0 && |run| > 0
  {
    var start := BucketFor(run[0], interval);
    Candle(start, start + interval, run[0].price, Extreme(run, true), Extreme(run, false),
           run[|run| - 1].price, Sum(Quantities(run)))
  }

  function Flatten(runs: seq<seq<Trade>>): seq<Trade>
  {
    if |runs| == 0 then [] else Flatten(runs[..|runs| - 1]) + runs[|runs| - 1]
  }

  /** The trades of a run all fall at or before the bucket of its first trade. */
  ghost predicate Within(run: seq<Trade>, interval: int)
    requires interval > 0
  {
    |run| > 0 && forall i :: 0 <= i < |run| ==> BucketFor(run[i], interval) <= BucketFor(run[0], interval)
  }

  /** `runs` cuts the trades exactly where a trade's bucket passes every bucket before it. */
  ghost predicate IsCut(runs: seq<seq<Trade>>, trades: seq<Trade>, interval: int)
    requires interval > 0
  {
    && Flatten(runs) == trades
    && (forall k :: 0 <= k < |runs| ==> Within(runs[k], interval))
    && (forall j, k :: 0 <= j < k < |runs| ==> BucketFor(runs[j][0], interval) < BucketFor(runs[k][0], interval))
  }

  predicate Crosses(runs: seq<seq<Trade>>, t: Trade, interval: int)
    requires interval > 0
  {
    |runs| == 0 || |runs[|runs| - 1]| == 0 || BucketFor(t, interval) > BucketFor(runs[|runs| - 1][0], interval)
  }

  function AddTrade(runs: seq<seq<Trade>>, t: Trade, interval: int): seq<seq<Trade>>
    requires interval > 0
  {
    if Crosses(runs, t, interval) then runs + [[t]] else runs[|runs| - 1 := runs[|runs| - 1] + [t]]
  }

  function Runs(trades: seq<Trade>, interval: int): seq<seq<Trade>>
    requires interval > 0
  {
    if |trades| == 0 then [] else AddTrade(Runs(trades[..|trades| - 1], interval), trades[|trades| - 1], interval)
  }

  lemma AddTradeCuts(runs: seq<seq<Trade>>, trades: seq<Trade>, t: Trade, interval: int)
    requires interval > 0 && IsCut(runs, trades, interval)
    ensures IsCut(AddTrade(runs, t, interval), trades + [t], interval)
  {
    hide BucketFor;
    var n := |runs| - 1;
    var after := AddTrade(runs, t, interval);
    if Crosses(runs, t, interval) {
      assert after[..|runs|] == runs;
    } else {
      assert after[..n] == runs[..n];
      assert Flatten(after) == trades + [t];
      forall k | 0 <= k < |after| ensures Within(after[k], interval) {
        if k == n { assert after[n] == runs[n] + [t] && Within(runs[n], interval); }
      }
    }
  }

  lemma {:induction false} RunsCut(trades: seq<Trade>, interval: int)
    requires interval > 0
    ensures IsCut(Runs(trades, interval), trades, interval)
  {
    if |trades| > 0 {
      var n := |trades| - 1;
      assert trades == trades[..n] + [trades[n]];
      RunsCut(trades[..n], interval);
      AddTradeCuts(Runs(trades[..n], interval), trades[..n], trades[n], interval);
    }
  }

  lemma {:induction false} DropTrade(runs: seq<seq<Trade>>, trades: seq<Trade>,
                                     interval: int) returns (before: seq<seq<Trade>>)
    requires interval > 0 && |trades| > 0 && IsCut(runs, trades, interval)
    ensures IsCut(before, trades[..|trades| - 1], interval)
    ensures runs == AddTrade(before, trades[|trades| - 1], interval)
  {
    hide BucketFor;
    var n, m := |runs| - 1, |trades| - 1;
    var run := runs[n];
    assert Within(run, interval);
    assert trades == Flatten(runs[..n]) + run;
    assert run[|run| - 1] == trades[m];
    if |run| == 1 {
      before := runs[..n];
      assert trades[..m] == Flatten(before);
      assert run == [trades[m]];
      assert runs == before + [run];
    } else {
      before := runs[n := run[..|run| - 1]];
      assert before[..n] == runs[..n];
      assert trades[..m] == Flatten(before);
      forall k | 0 <= k < |before| ensures Within(before[k], interval) {
        assert Within(runs[k], interval);
      }
      assert run == run[..|run| - 1] + [trades[m]];
      assert BucketFor(run[|run| - 1], interval) <= BucketFor(run[0], interval);
      assert runs == AddTrade(before, trades[m], interval);
    }
  }

  /** There is only one way to cut a stream, so `Runs` is the cut. */
  lemma {:induction false} CutUnique(runs: seq<seq<Trade>>, trades: seq<Trade>, interval: int)
    requires interval > 0 && IsCut(runs, trades, interval)
    ensures runs == Runs(trades, interval)
    decreases |trades|
  {
    if |trades| == 0 {
      assert |runs| > 0 ==> Within(runs[|runs| - 1], interval);
    } else {
      var before := DropTrade(runs, trades, interval);
      CutUnique(before, trades[..|trades| - 1], interval);
    }
  }

  function CandlesOf(trades: seq<Trade>, interval: int): (cs: seq<Candle>)
    requires interval > 0
    ensures |cs| == |Runs(trades, interval)|
  {
    RunsCut(trades, interval);
    var runs := Runs(trades, interval);
    seq(|runs|, i requires 0 <= i < |runs| && |runs[i]| > 0 => CandleOf(runs[i], interval))
  }

  // ---- The streaming form ----

  function Start(t: Trade, interval: int): Candle
    requires interval > 0
  {
    var start := BucketFor(t, interval);
    Candle(start, start + interval, t.price, t.price, t.price, t.price, t.qty)
  }

  function Extend(c: Candle, t: Trade): Candle {
    c.(high := if t.price > c.high then t.price else c.high,
       low := if t.price < c.low then t.price else c.low,
       close := t.price,
       volume := c.volume + t.qty)
  }

  /** The candles so far, the last one still forming, after one more trade. */
  function Ingested(cs: seq<Candle>, t: Trade, interval: int): (r: seq<Candle>)
    requires interval > 0
  {
    if |cs| == 0 || BucketFor(t, interval) > cs[|cs| - 1].openTime then cs + [Start(t, interval)]
    else cs[|cs| - 1 := Extend(cs[|cs| - 1], t)]
  }

  lemma QuantitiesSnoc(run: seq<Trade>, t: Trade)
    ensures Sum(Quantities(run + [t])) == Sum(Quantities(run)) + t.qty
  {
    assert Quantities(run + [t]) == Quantities(run) + [t.qty];
    SumSnoc(Quantities(run), t.qty);
  }

  lemma CandleOfOne(t: Trade, interval: int)
    requires interval > 0
    ensures CandleOf([t], interval) == Start(t, interval)
  {
    assert Quantities([t]) == [] + [t.qty];
    SumSnoc([], t.qty);
  }

  lemma CandleOfMore(run: seq<Trade>, t: Trade, interval: int)
    requires interval > 0 && |run| > 0
    ensures CandleOf(run + [t], interval) == Extend(CandleOf(run, interval), t)
  {
    assert (run + [t])[..|run|] == run;
    QuantitiesSnoc(run, t);
  }

  lemma CandleAt(trades: seq<Trade>, interval: int, k: nat)
    requires interval > 0 && k < |Runs(trades, interval)|
    ensures |Runs(trades, interval)[k]| > 0
    ensures CandlesOf(trades, interval)[k] == CandleOf(Runs(trades, interval)[k], interval)
    ensures CandlesOf(trades, interval)[k].openTime == BucketFor(Runs(trades, interval)[k][0], interval)
  {
    RunsCut(trades, interval);
    assert Within(Runs(trades, interval)[k], interval);
    hide BucketFor, Extreme;
  }

  /** Trade by trade, the declarative candles change exactly as the builder changes its fields. */
  lemma CandlesStep(trades: seq<Trade>, interval: int)
    requires interval > 0 && |trades| > 0
    ensures CandlesOf(trades, interval)
         == Ingested(CandlesOf(trades[..|trades| - 1], interval), trades[|trades| - 1], interval)
  {
    var n := |trades| - 1;
    var runs, t := Runs(trades[..n], interval), trades[n];
    var before, after := CandlesOf(trades[..n], interval), CandlesOf(trades, interval);
    hide CandlesOf, CandleOf, BucketFor, Start, Extend;
    if |runs| > 0 { CandleAt(trades[..n], interval, |runs| - 1); }
    var goal := Ingested(before, t, interval);
    assert Runs(trades, interval) == AddTrade(runs, t, interval);
    hide Runs;
    forall k | 0 <= k < |after| ensures after[k] == goal[k] {
      CandleAt(trades, interval, k);
      if k < |runs| { CandleAt(trades[..n], interval, k); }
      if k < |runs| - 1 || (k < |runs| && Crosses(runs, t, interval)) {
        assert Runs(trades, interval)[k] == runs[k];
      } else if Crosses(runs, t, interval) {
        CandleOfOne(t, interval);
      } else {
        CandleOfMore(runs[k], t, interval);
      }
    }
  }

  /** The candle a trade closes: the last one of the trades before it, when it starts another. */
  function Finalized(trades: seq<Trade>, t: Trade, interval: int): Option<Candle>
    requires interval > 0
  {
    var n := |CandlesOf(trades, interval)|;
    if |CandlesOf(trades + [t], interval)| > n > 0 then Some(CandlesOf(trades, interval)[n - 1]) else None
  }

  function Listed(c: Option<Candle>): seq<Candle> { if c == None then [] else [c.value] }

  /** The next trade closes the forming candle exactly when it starts another, and extends it otherwise. */
  lemma StreamStep(emitted: seq<Candle>, forming: Option<Candle>, seen: seq<Trade>, t: Trade, interval: int)
    requires interval > 0 && emitted + Listed(forming) == CandlesOf(seen, interval)
    requires forming == None ==> emitted == []
    ensures var crossed := forming == None || BucketFor(t, interval) > forming.value.openTime;
      && Finalized(seen, t, interval) == (if crossed then forming else None)
      && CandlesOf(seen + [t], interval)
         == if crossed then emitted + Listed(forming) + [Start(t, interval)] else emitted + [Extend(forming.value, t)]
  {
    hide CandlesOf, BucketFor, Start, Extend;
    assert (seen + [t])[..|seen|] == seen;
    CandlesStep(seen + [t], interval);
  }

  class OhlcvBuilder {
    const intervalSecs: int
    var bucketStart: Option<int>
    var open: real
    var high: real
    var low: real
    var close: real
    var volume: real
    ghost var seen: seq<Trade>
    ghost var emitted: seq<Candle>

    /** Emitted candles and the forming one together are the candles of the trades seen. */
    ghost predicate Valid() reads this {
      && intervalSecs > 0
      && emitted + (if bucketStart == None then [] else [Finalize(bucketStart.value)]) == CandlesOf(seen, intervalSecs)
      && (bucketStart == None <==> seen == [])
    }

    constructor (interval: int)
      requires interval > 0
      ensures Valid() && seen == [] && emitted == [] && intervalSecs == interval
    {
      intervalSecs, bucketStart := interval, None;
      open, high, low, close, volume := 0.0, 0.0, 0.0, 0.0, 0.0;
      seen, emitted := [], [];
    }

    function Finalize(start: int): Candle reads this {
      Candle(start, start + intervalSecs, open, high, low, close, volume)
    }

    /** The view of the forming candle: the last candle of the trades seen. */
    function Current(): (c: Option<Candle>)
      reads this
      requires Valid()
      ensures seen == [] ==> c == None
      ensures seen != [] ==>
                && |CandlesOf(seen, intervalSecs)| > 0
                && c == Some(CandlesOf(seen, intervalSecs)[|CandlesOf(seen, intervalSecs)| - 1])
    {
      if bucketStart == None then None else Some(Finalize(bucketStart.value))
    }

    method Ingest(t: Trade) returns (finalized: Option<Candle>)
      requires Valid()
      modifies this
      ensures Valid() && seen == old(seen) + [t]
      ensures emitted == old(emitted) + Listed(finalized)
      ensures finalized == Finalized(old(seen), t, intervalSecs)
    {
      hide Start, Extend, CandlesOf, BucketFor, Finalized;
      EmptyStream(intervalSecs);
      ghost var forming := if bucketStart == None then None else Some(Finalize(bucketStart.value));
      StreamStep(emitted, forming, seen, t, intervalSecs);
      StartFields(t, intervalSecs);
      var bucket := BucketFor(t, intervalSecs);
      finalized := None;
      match bucketStart {
        case None =>
          bucketStart := Some(bucket);
          open, high, low, close, volume := t.price, t.price, t.price, t.price, t.qty;
        case Some(start) =>
          ExtendFields(Finalize(start), t);
          if bucket > start {
            finalized := Some(Finalize(start));
            bucketStart := Some(bucket);
            open, high, low, close, volume := t.price, t.price, t.price, t.price, t.qty;
          } else {
            if t.price > high { high := t.price; }
            if t.price < low { low := t.price; }
            close := t.price;
            volume := volume + t.qty;
          }
      }
      seen := seen + [t];
      emitted := emitted + Listed(finalized);
    }
  }

  lemma EmptyStream(interval: int)
    requires interval > 0
    ensures CandlesOf([], interval) == []
  {
  }

  lemma StartFields(t: Trade, interval: int)
    requires interval > 0
    ensures Start(t, interval)
         == Candle(BucketFor(t, interval), BucketFor(t, interval) + interval, t.price, t.price, t.price, t.price, t.qty)
  {
  }

  lemma ExtendFields(c: Candle, t: Trade)
    ensures Extend(c, t) == Candle(c.openTime, c.closeTime, c.open, if t.price > c.high then t.price else c.high,
                                   if t.price < c.low then t.price else c.low, t.price, c.volume + t.qty)
  {
  }

  // ---- What the candles satisfy ----

  function Volumes(cs: seq<Candle>): (r: seq<real>)
    ensures |r| == |cs|
  {
    seq(|cs|, i requires 0 <= i < |cs| => cs[i].volume)
  }

  lemma VolumesSnoc(cs: seq<Candle>, c: Candle)
    ensures Sum(Volumes(cs + [c])) == Sum(Volumes(cs)) + c.volume
  {
    assert Volumes(cs + [c]) == Volumes(cs) + [c.volume];
    SumSnoc(Volumes(cs), c.volume);
  }

  lemma VolumeStep(cs: seq<Candle>, t: Trade, interval: int)
    requires interval > 0
    ensures Sum(Volumes(Ingested(cs, t, interval))) == Sum(Volumes(cs)) + t.qty
  {
    hide BucketFor, Volumes, Sum;
    var n := |cs| - 1;
    var after := Ingested(cs, t, interval);
    if |after| > |cs| {
      VolumesSnoc(cs, Start(t, interval));
    } else {
      assert cs == cs[..n] + [cs[n]] && after == cs[..n] + [Extend(cs[n], t)];
      VolumesSnoc(cs[..n], cs[n]);
      VolumesSnoc(cs[..n], Extend(cs[n], t));
    }
  }

  /** No quantity is lost or counted twice. */
  lemma {:induction false} VolumeConserved(trades: seq<Trade>, interval: int)
    requires interval > 0
    ensures Sum(Volumes(CandlesOf(trades, interval))) == Sum(Quantities(trades))
  {
    if |trades| == 0 {
      EmptyStream(interval);
    } else {
      var n := |trades| - 1;
      hide CandlesOf, Ingested, Volumes, Quantities, Sum;
      VolumeConserved(trades[..n], interval);
      CandlesStep(trades, interval);
      VolumeStep(CandlesOf(trades[..n], interval), trades[n], interval);
      assert trades == trades[..n] + [trades[n]];
      QuantitiesSnoc(trades[..n], trades[n]);
    }
  }

  lemma RoundDownLaws(s: int, interval: int)
    requires interval > 0
    ensures RoundDown(s, interval) <= s < RoundDown(s, interval) + interval
    ensures RoundDown(s, interval) % interval == 0
  {
    var q, r := s / interval, s % interval;
    assert s == q * interval + r;
    MultipleOf(q, interval);
  }

  lemma MultipleOf(q: int, m: int)
    requires m > 0
    ensures q * m % m == 0
  {
    QuotientOf(q * m, q, m, 0);
  }

  lemma QuotientOf(x: int, q: int, m: int, r: int)
    requires m > 0 && x == q * m + r && 0 <= r < m
    ensures x / m == q && x % m == r
  {
    var p := x / m;
    assert x == p * m + x % m;
    if p < q { AtLeastOneMore(p, q, m); }
    if q < p { AtLeastOneMore(q, p, m); }
  }

  lemma AtLeastOneMore(p: int, q: int, m: int)
    requires m > 0 && p < q
    ensures p * m + m <= q * m
  {
    ProductNonNegative(q - p - 1, m);
    assert (q - p - 1) * m == q * m - p * m - m;
  }

  lemma ProductNonNegative(a: int, b: int)
    requires a >= 0 && b >= 0
    ensures a * b >= 0
  {
  }

  ghost predicate WellShaped(c: Candle, interval: int)
    requires interval > 0
  {
    && c.closeTime == c.openTime + interval && c.openTime % interval == 0
    && c.low <= c.open <= c.high && c.low <= c.close <= c.high
  }

  ghost predicate Disjoint(cs: seq<Candle>) {
    forall j, k :: 0 <= j < k < |cs| ==> cs[j].closeTime <= cs[k].openTime
  }

  lemma MultiplesApart(a: int, b: int, m: int)
    requires m > 0 && a % m == 0 && b % m == 0 && a < b
    ensures a + m <= b
  {
    var p, q := a / m, b / m;
    assert a == p * m && b == q * m;
    if p >= q {
      if p > q { AtLeastOneMore(q, p, m); }
    } else {
      AtLeastOneMore(p, q, m);
    }
  }

  lemma {:induction false} ExtremesBound(run: seq<Trade>, i: nat)
    requires i < |run|
    ensures Extreme(run, false) <= run[i].price <= Extreme(run, true)
  {
    if i < |run| - 1 { ExtremesBound(run[..|run| - 1], i); }
  }

  /** Every candle, emitted or forming, lies on the grid, brackets its open and close, and they
      follow each other without overlap, whatever the order of the trades. */
  lemma CandlesAreDisjoint(trades: seq<Trade>, interval: int)
    requires interval > 0
    ensures Disjoint(CandlesOf(trades, interval))
    ensures forall k :: 0 <= k < |CandlesOf(trades, interval)| ==> WellShaped(CandlesOf(trades, interval)[k], interval)
  {
    RunsCut(trades, interval);
    var runs, cs := Runs(trades, interval), CandlesOf(trades, interval);
    hide RoundDown;
    forall k | 0 <= k < |cs| ensures WellShaped(cs[k], interval) && cs[k].openTime == BucketFor(runs[k][0], interval) {
      assert Within(runs[k], interval);
      RoundDownLaws(runs[k][0].ts / 1000, interval);
      ExtremesBound(runs[k], 0);
      ExtremesBound(runs[k], |runs[k]| - 1);
    }
    forall j, k | 0 <= j < k < |cs| ensures cs[j].closeTime <= cs[k].openTime {
      assert WellShaped(cs[j], interval) && WellShaped(cs[k], interval);
      MultiplesApart(cs[j].openTime, cs[k].openTime, interval);
    }
  }

  /** The candle is that of the run: it opens with the first trade and covers its time, every trade of the run comes
      before its end, and its prices and its volume are those of the run. */
  ghost predicate Covers(c: Candle, run: seq<Trade>) {
    && |run| > 0 && 1000 * c.openTime <= run[0].ts
    && (forall i :: 0 <= i < |run| ==> run[i].ts < 1000 * c.closeTime)
    && c.open == run[0].price && c.close == run[|run| - 1].price
    && (forall i :: 0 <= i < |run| ==> c.low <= run[i].price <= c.high)
    && (exists i :: 0 <= i < |run| && run[i].price == c.high)
    && (exists i :: 0 <= i < |run| && run[i].price == c.low)
    && c.volume == Sum(seq(|run|, i requires 0 <= i < |run| => run[i].qty))
  }

  /** In milliseconds: a trade falls in its bucket, and in or before the bucket of another trade exactly if it comes
      before the end of that one. */
  lemma BucketTimes(t: Trade, u: Trade, interval: int)
    requires interval > 0
    ensures 1000 * BucketFor(t, interval) <= t.ts < 1000 * (BucketFor(t, interval) + interval)
    ensures BucketFor(u, interval) <= BucketFor(t, interval) <==> u.ts < 1000 * (BucketFor(t, interval) + interval)
  {
    RoundDownLaws(t.ts / 1000, interval);
    RoundDownLaws(u.ts / 1000, interval);
    hide RoundDown;
    if BucketFor(u, interval) > BucketFor(t, interval) {
      MultiplesApart(BucketFor(t, interval), BucketFor(u, interval), interval);
    }
  }

  lemma {:induction false} ExtremeAttained(run: seq<Trade>, highest: bool) returns (i: nat)
    requires |run| > 0
    ensures i < |run| && run[i].price == Extreme(run, highest)
  {
    i := |run| - 1;
    if |run| > 1 && Extreme(run, highest) != run[i].price { i := ExtremeAttained(run[..|run| - 1], highest); }
  }

  lemma RunCovered(run: seq<Trade>, interval: int)
    requires interval > 0 && Within(run, interval)
    ensures Covers(CandleOf(run, interval), run)
  {
    forall i | 0 <= i < |run|
      ensures run[i].ts < 1000 * (BucketFor(run[0], interval) + interval)
      ensures Extreme(run, false) <= run[i].price <= Extreme(run, true)
    {
      BucketTimes(run[0], run[i], interval);
      ExtremesBound(run, i);
    }
    BucketTimes(run[0], run[0], interval);
    var h := ExtremeAttained(run, true);
    var l := ExtremeAttained(run, false);
    hide BucketFor, Extreme;
    assert Quantities(run) == seq(|run|, i requires 0 <= i < |run| => run[i].qty);
  }

  /** Candles and trades, in the trades' own times: the stream is cut into runs, one candle each, of the interval's
      length; a run begins with the first trade at or past the end of the candle before it. */
  lemma CandlesCover(trades: seq<Trade>, interval: int)
    requires interval > 0
    ensures var runs, cs := Runs(trades, interval), CandlesOf(trades, interval);
      && Flatten(runs) == trades && |cs| == |runs|
      && (forall k :: 0 <= k < |cs| ==> Covers(cs[k], runs[k]) && cs[k].closeTime == cs[k].openTime + interval)
      && (forall k :: 0 < k < |cs| ==> runs[k][0].ts >= 1000 * cs[k - 1].closeTime)
  {
    hide Runs, CandlesOf, Covers, Flatten;
    RunsFlatten(trades, interval);
    forall k | 0 <= k < |CandlesOf(trades, interval)|
      ensures Covers(CandlesOf(trades, interval)[k], Runs(trades, interval)[k])
      ensures CandlesOf(trades, interval)[k].closeTime == CandlesOf(trades, interval)[k].openTime + interval
      ensures |Runs(trades, interval)[k]| > 0
      ensures k > 0 ==> Runs(trades, interval)[k][0].ts >= 1000 * CandlesOf(trades, interval)[k - 1].closeTime
    {
      CoveredAt(trades, interval, k);
    }
  }

  lemma RunsFlatten(trades: seq<Trade>, interval: int)
    requires interval > 0
    ensures Flatten(Runs(trades, interval)) == trades
  {
    RunsCut(trades, interval);
    hide Runs, Flatten;
  }

  lemma CoveredAt(trades: seq<Trade>, interval: int, k: nat)
    requires interval > 0 && k < |CandlesOf(trades, interval)|
    ensures var run, c := Runs(trades, interval)[k], CandlesOf(trades, interval)[k];
      && |run| > 0 && Covers(c, run) && c.closeTime == c.openTime + interval
      && (k > 0 ==> run[0].ts >= 1000 * CandlesOf(trades, interval)[k - 1].closeTime)
  {
    RunsCut(trades, interval);
    CandleAt(trades, interval, k);
    if k > 0 { CandleAt(trades, interval, k - 1); }
    hide Runs, CandlesOf, Covers, Flatten, Extreme, Quantities;
    var runs := Runs(trades, interval);
    assert Within(runs[k], interval);
    RunCovered(runs[k], interval);
    if k > 0 {
      assert Within(runs[k - 1], interval);
      BucketTimes(runs[k - 1][0], runs[k][0], interval);
    }
    hide BucketFor;
  }

  /** A trade starts another candle exactly if it comes at or past the end of the forming one. */
  lemma NewCandleIff(trades: seq<Trade>, t: Trade, interval: int)
    requires interval > 0 && |trades| > 0
    ensures var cs := CandlesOf(trades, interval);
      && |cs| > 0
      && (|CandlesOf(trades + [t], interval)| > |cs| <==> t.ts >= 1000 * cs[|cs| - 1].closeTime)
  {
    var cs, runs := CandlesOf(trades, interval), Runs(trades, interval);
    RunsCut(trades, interval);
    assert |runs| > 0;
    CandleAt(trades, interval, |cs| - 1);
    assert (trades + [t])[..|trades|] == trades;
    CandlesStep(trades + [t], interval);
    BucketTimes(runs[|runs| - 1][0], t, interval);
    hide BucketFor, Runs, Extreme;
  }

  // ---- Coarse candles are merges of fine ones ----

  function Join(c: Candle, d: Candle): Candle {
    c.(high := Max(c.high, d.high), low := Min(c.low, d.low), close := d.close, volume := c.volume + d.volume)
  }

  function Widen(c: Candle, interval: int): Candle
    requires interval > 0
  {
    var start := RoundDown(c.openTime, interval);
    c.(openTime := start, closeTime := start + interval)
  }

  /** One more fine candle: merged into the last coarse one when it falls in the same bucket. */
  function Placed(r: seq<Candle>, c: Candle, interval: int): seq<Candle>
    requires interval > 0
  {
    if |r| > 0 && r[|r| - 1].openTime == RoundDown(c.openTime, interval) then r[|r| - 1 := Join(r[|r| - 1], c)]
    else r + [Widen(c, interval)]
  }

  /** The candles merged per coarse bucket. */
  function Resample(cs: seq<Candle>, interval: int): (r: seq<Candle>)
    requires interval > 0
    ensures |cs| > 0 ==> |r| > 0 && r[|r| - 1].openTime == RoundDown(cs[|cs| - 1].openTime, interval)
    ensures |cs| == 0 ==> r == []
  {
    if |cs| == 0 then [] else Placed(Resample(cs[..|cs| - 1], interval), cs[|cs| - 1], interval)
  }

  lemma RoundTwice(s: int, fine: int, k: int)
    requires fine > 0 && k > 0
    ensures k * fine > 0 && RoundDown(RoundDown(s, fine), k * fine) == RoundDown(s, k * fine)
  {
    var a, b := s / fine, s % fine;
    var q, r := a / k, a % k;
    AtLeastOneMore(0, k, fine);
    assert RoundDown(s, fine) == a * fine;
    assert a * fine == q * (k * fine) + r * fine by { assert a == q * k + r; Regroup(q, k, r, fine); }
    if r > 0 { AtLeastOneMore(0, r, fine); }
    AtLeastOneMore(r, k, fine);
    QuotientOf(a * fine, q, k * fine, r * fine);
    QuotientOf(s, q, k * fine, r * fine + b);
  }

  lemma Regroup(q: int, k: int, r: int, m: int)
    ensures (q * k + r) * m == q * (k * m) + r * m
  {
  }

  lemma RoundMonotone(a: int, b: int, interval: int)
    requires interval > 0 && a <= b
    ensures RoundDown(a, interval) <= RoundDown(b, interval)
  {
    RoundDownLaws(a, interval);
    RoundDownLaws(b, interval);
    hide RoundDown;
    if RoundDown(b, interval) < RoundDown(a, interval) {
      MultiplesApart(RoundDown(b, interval), RoundDown(a, interval), interval);
    }
  }

  lemma MergeLaws(c: Candle, d: Candle, t: Trade, fine: int, coarse: int)
    requires fine > 0 && coarse > 0
    ensures Join(c, Start(t, fine)) == Extend(c, t)
    ensures Join(c, Extend(d, t)) == Extend(Join(c, d), t)
    ensures Widen(Extend(d, t), coarse) == Extend(Widen(d, coarse), t)
    ensures Extend(d, t).openTime == d.openTime
  {
    hide RoundDown;
  }

  lemma PlacedStart(r: seq<Candle>, t: Trade, fine: int, coarse: int)
    requires fine > 0 && coarse > 0 && Widen(Start(t, fine), coarse) == Start(t, coarse)
    requires |r| > 0 ==> r[|r| - 1].openTime <= BucketFor(t, coarse)
    ensures Placed(r, Start(t, fine), coarse) == Ingested(r, t, coarse)
  {
    if |r| > 0 { MergeLaws(r[|r| - 1], r[|r| - 1], t, fine, coarse); }
    assert Start(t, coarse).openTime == RoundDown(Start(t, fine).openTime, coarse) == BucketFor(t, coarse);
    hide Join, Widen, Start, Extend, RoundDown, BucketFor;
  }

  lemma PlacedExtend(r: seq<Candle>, c: Candle, t: Trade, coarse: int)
    requires coarse > 0 && BucketFor(t, coarse) <= RoundDown(c.openTime, coarse)
    ensures Placed(r, Extend(c, t), coarse) == Ingested(Placed(r, c, coarse), t, coarse)
  {
    MergeLaws(c, c, t, coarse, coarse);
    assert Widen(c, coarse).openTime == RoundDown(c.openTime, coarse);
    if |r| > 0 {
      MergeLaws(r[|r| - 1], c, t, coarse, coarse);
      assert Join(r[|r| - 1], c).openTime == r[|r| - 1].openTime;
    }
    hide Join, Widen, Start, Extend, RoundDown, BucketFor;
  }

  lemma ResampleMore(cs: seq<Candle>, c: Candle, interval: int)
    requires interval > 0
    ensures Resample(cs + [c], interval) == Placed(Resample(cs, interval), c, interval)
  {
    assert (cs + [c])[..|cs|] == cs;
  }

  lemma ResampleStep(cs: seq<Candle>, t: Trade, fine: int, k: int)
    requires fine > 0 && k > 0 && k * fine > 0
    ensures Resample(Ingested(cs, t, fine), k * fine) == Ingested(Resample(cs, k * fine), t, k * fine)
  {
    var coarse := k * fine;
    RoundTwice(t.ts / 1000, fine, k);
    assert Widen(Start(t, fine), coarse) == Start(t, coarse);
    assert BucketFor(t, coarse) == RoundDown(BucketFor(t, fine), coarse);
    hide RoundDown, BucketFor, Join, Widen, Start, Extend;
    if |cs| == 0 || BucketFor(t, fine) > cs[|cs| - 1].openTime {
      ResampleMore(cs, Start(t, fine), coarse);
      if |cs| > 0 { RoundMonotone(cs[|cs| - 1].openTime, BucketFor(t, fine), coarse); }
      PlacedStart(Resample(cs, coarse), t, fine, coarse);
    } else {
      var n := |cs| - 1;
      RoundMonotone(BucketFor(t, fine), cs[n].openTime, coarse);
      assert cs == cs[..n] + [cs[n]] && Ingested(cs, t, fine) == cs[..n] + [Extend(cs[n], t)];
      ResampleMore(cs[..n], cs[n], coarse);
      ResampleMore(cs[..n], Extend(cs[n], t), coarse);
      PlacedExtend(Resample(cs[..n], coarse), cs[n], t, coarse);
    }
  }

  /** A builder with interval k * fine produces exactly the merges, per coarse bucket, of the candles a builder
      with the fine interval makes of the same trades. */
  lemma {:induction false} CoarseIsMergeOfFine(trades: seq<Trade>, fine: int, k: int)
    requires fine > 0 && k > 0 && k * fine > 0
    ensures CandlesOf(trades, k * fine) == Resample(CandlesOf(trades, fine), k * fine)
  {
    if |trades| == 0 {
      EmptyStream(fine);
      EmptyStream(k * fine);
    } else {
      var n := |trades| - 1;
      CoarseIsMergeOfFine(trades[..n], fine, k);
      hide CandlesOf, Ingested, Resample;
      CandlesStep(trades, fine);
      CandlesStep(trades, k * fine);
      ResampleStep(CandlesOf(trades[..n], fine), trades[n], fine, k);
    }
  }
}
