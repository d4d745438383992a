/** Monte Carlo drawdown intervals (src/backtest/monte_carlo.rs): a wrapping linear congruential
    Fisher-Yates shuffle, the drawdown loop, and rounded-index percentiles. */
module MonteCarlo {
  import opened Reals
  import opened Sorting

  datatype MonteCarloDrawdown = MonteCarloDrawdown(p50: real, p95: real, p99: real)

  const WORD: nat := 0x1_0000_0000_0000_0000

  /** u64: wrapping_mul(6364136223846793005).wrapping_add(1) */
  function NextState(state: nat): nat { (state * 6364136223846793005 + 1) % WORD }

  function Draw(state: nat, i: nat): (j: nat)
    ensures j <= i
  {
    state % (i + 1)
  }

  function Swap(s: seq<real>, i: nat, j: nat): (r: seq<real>)
    requires i < |s| && j < |s|
    ensures |r| == |s|
  {
    s[i := s[j]][j := s[i]]
  }

  /** The arrangement after the steps for positions i, i-1, ..., 1. */
  function ShuffleDown(s: seq<real>, i: int, state: nat): (r: seq<real>)
    requires i < |s|
    ensures |r| == |s|
    decreases i
  {
    if i <= 0 then s
    else ShuffleDown(Swap(s, i, Draw(NextState(state), i)), i - 1, NextState(state))
  }

  function Shuffled(s: seq<real>, seed: nat): (r: seq<real>)
    ensures |r| == |s|
  {
    ShuffleDown(s, |s| - 1, seed)
  }

  method DeterministicShuffle(values: array<real>, seed: nat)
    modifies values
    ensures values[..] == Shuffled(old(values[..]), seed)
  {
    hide NextState, Draw;
    var state := seed;
    var i := values.Length - 1;
    while i >= 1
      invariant i < values.Length && i >= -1
      invariant ShuffleDown(values[..], i, state) == Shuffled(old(values[..]), seed)
    {
      state := NextState(state);
      var j := Draw(state, i);
      ghost var was := values[..];
      values[i], values[j] := values[j], values[i];
      assert values[..] == Swap(was, i, j);
      i := i - 1;
    }
  }

  lemma SwapPermutes(s: seq<real>, i: nat, j: nat)
    requires i < |s| && j < |s|
    ensures multiset(Swap(s, i, j)) == multiset(s)
  {
  }

  lemma {:induction false} ShuffleDownPermutes(s: seq<real>, i: int, state: nat)
    requires i < |s|
    ensures multiset(ShuffleDown(s, i, state)) == multiset(s)
    decreases i
  {
    hide NextState, Draw;
    if i > 0 {
      var j := Draw(NextState(state), i);
      SwapPermutes(s, i, j);
      ShuffleDownPermutes(Swap(s, i, j), i - 1, NextState(state));
    }
  }

  /** For every seed and length the shuffle is a permutation. */
  lemma ShufflePermutes(s: seq<real>, seed: nat)
    ensures multiset(Shuffled(s, seed)) == multiset(s)
  {
    ShuffleDownPermutes(s, |s| - 1, seed);
  }

  lemma {:induction false} ShuffleDownKeeps(s: seq<real>, i: int, state: nat, k: nat)
    requires i < k < |s|
    ensures ShuffleDown(s, i, state)[k] == s[k]
    decreases i
  {
    hide NextState;
    if i > 0 { ShuffleDownKeeps(Swap(s, i, Draw(NextState(state), i)), i - 1, NextState(state), k); }
  }

  /** Every slot from the last down takes one of the values not yet placed, the one at the generator's next state
      modulo their number, and keeps it. */
  lemma ShufflePlaces(s: seq<real>, i: nat, state: nat)
    requires 0 < i < |s|
    ensures var next := NextState(state);
      && ShuffleDown(s, i, state)[i] == s[next % (i + 1)]
      && ShuffleDown(s, i, state) == ShuffleDown(s[i := s[next % (i + 1)]][next % (i + 1) := s[i]], i - 1, next)
  {
    hide NextState;
    ShuffleDownKeeps(Swap(s, i, Draw(NextState(state), i)), i - 1, NextState(state), i);
  }

  const INVERSE: nat := 0xC097EF87329E28A5

  /** The generator's step can be undone by a multiplication, so no two states of a word ever merge. */
  lemma GeneratorIsReversible(state: nat)
    requires state < WORD
    ensures NextState(state) < WORD && INVERSE * (NextState(state) + WORD - 1) % WORD == state
  {
    var q := (state * 6364136223846793005 + 1) / WORD;
    assert state * 6364136223846793005 + 1 == q * WORD + NextState(state);
    var m := state * 4787856489426250814 - INVERSE * q + INVERSE;
    assert INVERSE * (NextState(state) + WORD - 1) == m * WORD + state;
    Remainder(m, state);
  }

  lemma Remainder(m: int, r: nat)
    requires r < WORD
    ensures (m * WORD + r) % WORD == r
  {
  }

  // ---- Drawdown ----

  /** The running maximum of the equity curve, which starts at 0. */
  function RunningMax(pnls: seq<real>): real
  {
    if |pnls| == 0 then 0.0 else Max(Sum(pnls), RunningMax(pnls[..|pnls| - 1]))
  }

  /** How far, in per cent, the curve stands below its running maximum; 0 while that is not positive. */
  function DrawdownAt(pnls: seq<real>): real {
    var peak := RunningMax(pnls);
    if peak > 0.0 then (peak - Sum(pnls)) / peak * 100.0 else 0.0
  }

  function MaxDrawdown(pnls: seq<real>): real
  {
    if |pnls| == 0 then 0.0 else Max(MaxDrawdown(pnls[..|pnls| - 1]), DrawdownAt(pnls))
  }

  method MaxDrawdownPct(pnls: seq<real>) returns (maxDd: real)
    ensures maxDd == MaxDrawdown(pnls)
  {
    var equity, peak := 0.0, 0.0;
    maxDd := 0.0;
    for i := 0 to |pnls|
      invariant equity == Sum(pnls[..i]) && peak == RunningMax(pnls[..i]) && maxDd == MaxDrawdown(pnls[..i]) >= 0.0
    {
      SumStep(pnls, i);
      assert pnls[..i + 1][..i] == pnls[..i];
      equity := equity + pnls[i];
      if equity > peak { peak := equity; }
      if peak > 0.0 {
        var dd := (peak - equity) / peak * 100.0;
        if dd > maxDd { maxDd := dd; }
      }
    }
    assert pnls[..|pnls|] == pnls;
  }

  /** The running maximum bounds 0 and every earlier equity, and is one of them. */
  lemma {:induction false} RunningMaxIsMaximum(pnls: seq<real>) returns (at: nat)
    ensures RunningMax(pnls) >= 0.0
    ensures forall k :: 0 <= k <= |pnls| ==> Sum(pnls[..k]) <= RunningMax(pnls)
    ensures at <= |pnls| && Sum(pnls[..at]) == RunningMax(pnls)
  {
    assert pnls[..|pnls|] == pnls;
    if |pnls| == 0 {
      at := 0;
    } else {
      var front := pnls[..|pnls| - 1];
      at := RunningMaxIsMaximum(front);
      assert front[..at] == pnls[..at];
      forall k | 0 <= k < |pnls| ensures Sum(pnls[..k]) <= RunningMax(front) { assert front[..k] == pnls[..k]; }
      if Sum(pnls) > RunningMax(front) { at := |pnls|; }
    }
  }

  /** The loop's result is the maximum over all moments j of (runmax_j - E_j) / runmax_j. */
  lemma {:induction false} MaxDrawdownIsMaximum(pnls: seq<real>) returns (at: nat)
    ensures forall j :: 0 <= j <= |pnls| ==> DrawdownAt(pnls[..j]) <= MaxDrawdown(pnls)
    ensures at <= |pnls| && DrawdownAt(pnls[..at]) == MaxDrawdown(pnls)
  {
    hide DrawdownAt;
    assert pnls[..|pnls|] == pnls;
    if |pnls| == 0 {
      at := 0;
      DrawdownEmpty(pnls);
    } else {
      var front := pnls[..|pnls| - 1];
      at := MaxDrawdownIsMaximum(front);
      assert front[..at] == pnls[..at];
      forall k | 0 <= k < |pnls| ensures DrawdownAt(pnls[..k]) <= MaxDrawdown(front) { assert front[..k] == pnls[..k]; }
      if DrawdownAt(pnls) > MaxDrawdown(front) { at := |pnls|; }
    }
  }

  lemma DrawdownEmpty(pnls: seq<real>)
    requires |pnls| == 0
    ensures DrawdownAt(pnls) == 0.0 && DrawdownAt(pnls[..0]) == 0.0
  {
  }

  /** In per cent of the running maximum: the part of it that is lost. */
  lemma DrawdownMeaning(pnls: seq<real>)
    ensures RunningMax(pnls) > 0.0 ==>
              Times(DrawdownAt(pnls), RunningMax(pnls)) == 100.0 * (RunningMax(pnls) - Sum(pnls))
    ensures RunningMax(pnls) <= 0.0 ==> DrawdownAt(pnls) == 0.0
  {
    var peak, e := RunningMax(pnls), Sum(pnls);
    if peak > 0.0 {
      var q := (peak - e) / peak;
      assert q * peak == peak - e;
      assert (q * 100.0) * peak == 100.0 * (q * peak);
    }
  }

  // ---- Percentiles ----

  /** f64::round of a non-negative value. */
  function Round(x: real): int { (x + 0.5).Floor }

  lemma RankInRange(n: nat, p: real)
    requires n > 0
    ensures 0.0 <= Times(Clamp(p, 0.0, 1.0), (n - 1) as real) <= (n - 1) as real
  {
    hide Times;
    TimesSign(Clamp(p, 0.0, 1.0), (n - 1) as real);
    TimesMonotone(Clamp(p, 0.0, 1.0), 1.0, (n - 1) as real);
    TimesOne((n - 1) as real);
  }

  function Rank(n: nat, p: real): (i: nat)
    requires n > 0
    ensures i < n
  {
    RankInRange(n, p);
    Round(Times(Clamp(p, 0.0, 1.0), (n - 1) as real))
  }

  function Percentile(sorted: seq<real>, p: real): real
    requires |sorted| > 0
  {
    sorted[Rank(|sorted|, p)]
  }

  /** The rank is the whole number nearest to the fraction of the highest one. */
  lemma RankNearest(n: nat, p: real)
    requires n > 0 && 0.0 <= p <= 1.0
    ensures Abs(Rank(n, p) as real - Times(p, (n - 1) as real)) <= 0.5
  {
    hide Times;
    RankInRange(n, p);
  }

  lemma RankMonotone(n: nat, p: real, q: real)
    requires n > 0 && p <= q
    ensures Rank(n, p) <= Rank(n, q)
  {
    hide Times;
    TimesMonotone(Clamp(p, 0.0, 1.0), Clamp(q, 0.0, 1.0), (n - 1) as real);
  }

  function Drawdowns(pnls: seq<real>, simulations: nat): (r: seq<real>)
    ensures |r| == simulations
  {
    seq(simulations, seed requires 0 <= seed < simulations => MaxDrawdown(Shuffled(pnls, seed + 1)))
  }

  function Intervals(pnls: seq<real>, simulations: nat): Option<MonteCarloDrawdown> {
    if |pnls| == 0 || simulations == 0 then None
    else
      var sorted := Sort(Drawdowns(pnls, simulations));
      Some(MonteCarloDrawdown(Percentile(sorted, 0.50), Percentile(sorted, 0.95), Percentile(sorted, 0.99)))
  }

  method DrawdownConfidenceIntervals(pnls: seq<real>, simulations: nat) returns (r: Option<MonteCarloDrawdown>)
    ensures r == Intervals(pnls, simulations)
  {
    hide Percentile, Shuffled, MaxDrawdown, Sort;
    if |pnls| == 0 || simulations == 0 { return None; }
    var drawdowns: seq<real> := [];
    for seed := 0 to simulations
      invariant |drawdowns| == seed
      invariant forall k :: 0 <= k < seed ==> drawdowns[k] == MaxDrawdown(Shuffled(pnls, k + 1))
    {
      var shuffled := new real[|pnls|](i requires 0 <= i < |pnls| => pnls[i]);
      assert shuffled[..] == pnls;
      DeterministicShuffle(shuffled, seed + 1);
      var dd := MaxDrawdownPct(shuffled[..]);
      drawdowns := drawdowns + [dd];
    }
    assert drawdowns == Drawdowns(pnls, simulations);
    var sorted := Sort(drawdowns);
    r := Some(MonteCarloDrawdown(Percentile(sorted, 0.50), Percentile(sorted, 0.95), Percentile(sorted, 0.99)));
  }

  ghost predicate SomeArrangement(pnls: seq<real>, dd: real) {
    exists order: seq<real> :: multiset(order) == multiset(pnls) && MaxDrawdown(order) == dd
  }

  lemma PercentileIsDrawdown(pnls: seq<real>, simulations: nat, p: real)
    requires |pnls| > 0 && simulations > 0
    ensures SomeArrangement(pnls, Percentile(Sort(Drawdowns(pnls, simulations)), p))
  {
    hide Rank, Shuffled, MaxDrawdown, Sort;
    var all := Drawdowns(pnls, simulations);
    SortMembers(all, Rank(simulations, p));
    var k :| 0 <= k < |all| && all[k] == Sort(all)[Rank(simulations, p)];
    ShufflePermutes(pnls, k + 1);
    assert MaxDrawdown(Shuffled(pnls, k + 1)) == all[k];
  }

  /** The percentiles are ordered, and each is the drawdown of some order of the same trades. */
  lemma IntervalsOrdered(pnls: seq<real>, simulations: nat)
    requires |pnls| > 0 && simulations > 0
    ensures Intervals(pnls, simulations) != None
    ensures var ci := Intervals(pnls, simulations).value;
      && ci.p50 <= ci.p95 <= ci.p99
      && SomeArrangement(pnls, ci.p50) && SomeArrangement(pnls, ci.p95) && SomeArrangement(pnls, ci.p99)
  {
    hide Drawdowns, Sort, SomeArrangement;
    SortSorts(Drawdowns(pnls, simulations));
    RankMonotone(simulations, 0.50, 0.95);
    RankMonotone(simulations, 0.95, 0.99);
    PercentileIsDrawdown(pnls, simulations, 0.50);
    PercentileIsDrawdown(pnls, simulations, 0.95);
    PercentileIsDrawdown(pnls, simulations, 0.99);
    hide Rank;
  }
}
