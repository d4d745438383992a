/** Historical value at risk and expected shortfall (src/portfolio/var.rs): order statistics of a
    return list, through a floor and a ceiling index. */
module TailRisk {
  import opened Reals
  import opened Counting
  import opened Sorting

  function Ceil(x: real): int { -((-x).Floor) }

  /** n * (1 - confidence): how many returns the tail should hold. */
  function TailCount(n: nat, confidence: real): real { Times(1.0 - confidence, n as real) }

  function VarIndex(n: nat, confidence: real): int {
    var k := TailCount(n, confidence).Floor;
    if k < n - 1 then k else n - 1
  }

  function CvarCount(n: nat, confidence: real): (c: int)
    ensures n > 0 ==> 1 <= c <= n && (c as real >= TailCount(n, confidence) || c == n)
    ensures c > 1 ==> (c - 1) as real < TailCount(n, confidence)
  {
    var k := Ceil(TailCount(n, confidence));
    var atLeastOne := if k > 1 then k else 1;
    if atLeastOne < n then atLeastOne else n
  }

  predicate Answers(n: nat, confidence: real) { n > 0 && 0.0 <= confidence < 1.0 }

  lemma IndexBounds(n: nat, confidence: real)
    requires Answers(n, confidence)
    ensures 0 <= VarIndex(n, confidence) < n && 1 <= CvarCount(n, confidence) <= VarIndex(n, confidence) + 1
  {
    TailBounds(n, confidence);
    hide TailCount;
  }

  lemma TailBounds(n: nat, confidence: real)
    requires Answers(n, confidence)
    ensures 0.0 < TailCount(n, confidence) <= n as real
  {
    hide Times;
    TimesSign(1.0 - confidence, n as real);
    TimesMonotone(1.0 - confidence, 1.0, n as real);
    TimesOne(n as real);
  }

  function HistoricalVar(xs: seq<real>, confidence: real): Option<real> {
    if !Answers(|xs|, confidence) then None
    else
      IndexBounds(|xs|, confidence);
      Some(-Min(Sort(xs)[VarIndex(|xs|, confidence)], 0.0))
  }

  function HistoricalCvar(xs: seq<real>, confidence: real): Option<real> {
    if !Answers(|xs|, confidence) then None
    else
      IndexBounds(|xs|, confidence);
      Some(-Min(Mean(Sort(xs)[..CvarCount(|xs|, confidence)]), 0.0))
  }

  lemma MeanAtMost(xs: seq<real>, y: real)
    requires |xs| > 0 && AtMost(xs, y)
    ensures Mean(xs) <= y
  {
    SumAtMost(xs, y);
    DivBound(Sum(xs), |xs| as real, y);
  }

  /** Expected shortfall is at least value at risk, which is never negative. */
  lemma CvarAtLeastVar(xs: seq<real>, confidence: real)
    requires Answers(|xs|, confidence)
    ensures HistoricalVar(xs, confidence) != None && HistoricalCvar(xs, confidence) != None
    ensures HistoricalCvar(xs, confidence).value >= HistoricalVar(xs, confidence).value >= 0.0
  {
    IndexBounds(|xs|, confidence);
    SortSorts(xs);
    hide VarIndex, CvarCount, Mean, Sort;
    MeanAtMost(Sort(xs)[..CvarCount(|xs|, confidence)], Sort(xs)[VarIndex(|xs|, confidence)]);
  }

  /** Neither measure depends on the order of the returns. */
  lemma OrderDoesNotMatter(xs: seq<real>, ys: seq<real>, confidence: real)
    requires multiset(xs) == multiset(ys)
    ensures HistoricalVar(xs, confidence) == HistoricalVar(ys, confidence)
    ensures HistoricalCvar(xs, confidence) == HistoricalCvar(ys, confidence)
  {
    assert |xs| == |multiset(xs)| == |multiset(ys)| == |ys|;
    SortPermutation(xs, ys);
  }

  /** The mean of a longer prefix of a sorted list is no smaller. */
  lemma {:induction false} PrefixMeans(s: seq<real>, j: nat, k: nat)
    requires Sorted(s) && 0 < j <= k <= |s|
    ensures Mean(s[..j]) <= Mean(s[..k])
    decreases k
  {
    if j < k {
      PrefixMeans(s, j, k - 1);
      MeanAtMost(s[..k - 1], s[k - 1]);
      SumStep(s, k - 1);
      MeanGrows(Sum(s[..k - 1]), s[k - 1], (k - 1) as real);
    }
  }

  lemma MeanGrows(total: real, x: real, n: real)
    requires n > 0.0 && total / n <= x
    ensures total / n <= (total + x) / (n + 1.0)
  {
    var m := total / n;
    assert m * n == total;
    AtLeastQuotient(total + x, n + 1.0, m);
  }

  lemma AtLeastQuotient(a: real, b: real, c: real)
    requires b > 0.0 && c * b <= a
    ensures c <= a / b
  {
  }

  lemma IndexMonotone(n: nat, low: real, high: real)
    requires Answers(n, low) && Answers(n, high) && low <= high
    ensures VarIndex(n, high) <= VarIndex(n, low) && CvarCount(n, high) <= CvarCount(n, low)
  {
    hide Times;
    TimesMonotone(1.0 - high, 1.0 - low, n as real);
    assert TailCount(n, high) <= TailCount(n, low);
    hide TailCount;
  }

  /** Asking for more confidence never lowers either measure. */
  lemma MonotoneInConfidence(xs: seq<real>, low: real, high: real)
    requires Answers(|xs|, low) && Answers(|xs|, high) && low <= high
    ensures HistoricalVar(xs, low) != None && HistoricalCvar(xs, low) != None
    ensures HistoricalVar(xs, high) != None && HistoricalCvar(xs, high) != None
    ensures HistoricalVar(xs, low).value <= HistoricalVar(xs, high).value
    ensures HistoricalCvar(xs, low).value <= HistoricalCvar(xs, high).value
  {
    IndexBounds(|xs|, low);
    IndexBounds(|xs|, high);
    IndexMonotone(|xs|, low, high);
    SortSorts(xs);
    hide VarIndex, CvarCount, Mean, Sort;
    PrefixMeans(Sort(xs), CvarCount(|xs|, high), CvarCount(|xs|, low));
  }

  // ---- Value at risk is a quantile of the returns ----

  function Below(y: real): real -> bool { x => x < y }

  function UpTo(y: real): real -> bool { x => x <= y }

  lemma {:induction false} SortedRank(s: seq<real>, k: nat, n: nat)
    requires Sorted(s) && k < |s| && n <= |s|
    ensures Count(s[..n], Below(s[k])) <= k
    ensures Count(s[..n], UpTo(s[k])) >= if n <= k then n else k + 1
  {
    if n > 0 {
      SortedRank(s, k, n - 1);
      assert s[..n][..n - 1] == s[..n - 1];
    }
  }

  lemma RankOfSorted(xs: seq<real>, k: nat)
    requires k < |xs|
    ensures Count(xs, Below(Sort(xs)[k])) <= k < Count(xs, UpTo(Sort(xs)[k]))
  {
    SortSorts(xs);
    hide Sort, Count;
    var s := Sort(xs);
    assert s[..|s|] == s;
    SortedRank(s, k, |s|);
    CountPermutation(s, xs, Below(s[k]));
    CountPermutation(s, xs, UpTo(s[k]));
  }

  lemma IndexIsFloor(n: nat, confidence: real)
    requires Answers(n, confidence)
    ensures VarIndex(n, confidence) as real <= TailCount(n, confidence)
    ensures (VarIndex(n, confidence) + 1) as real > TailCount(n, confidence) || VarIndex(n, confidence) + 1 == n
  {
    hide TailCount;
  }

  lemma AroundIndex(below: nat, upTo: nat, k: nat, n: nat, tail: real)
    requires below <= k < upTo <= n && k as real <= tail && ((k + 1) as real > tail || k + 1 == n)
    ensures below as real <= tail && (upTo as real > tail || upTo == n)
  {
  }

  /** A positive value at risk v is the quantile the name promises: of n returns at most n * (1 - confidence)
      are worse than -v, and more than that many are -v or worse (all of them at confidence 0). */
  lemma VarIsQuantile(xs: seq<real>, confidence: real, v: real)
    requires HistoricalVar(xs, confidence) == Some(v) && v > 0.0
    ensures Count(xs, Below(-v)) as real <= TailCount(|xs|, confidence)
    ensures Count(xs, UpTo(-v)) as real > TailCount(|xs|, confidence) || Count(xs, UpTo(-v)) == |xs|
  {
    hide Times, TailCount, VarIndex, CvarCount, Sort, Count;
    IndexBounds(|xs|, confidence);
    IndexIsFloor(|xs|, confidence);
    var k := VarIndex(|xs|, confidence);
    assert -v == Sort(xs)[k];
    RankOfSorted(xs, k);
    AroundIndex(Count(xs, Below(-v)), Count(xs, UpTo(-v)), k, |xs|, TailCount(|xs|, confidence));
  }

  // ---- Expected shortfall is the worst mean ----

  lemma TakeLast(s: seq<real>, part: seq<real>, other: seq<real>, j: nat)
    requires |s| > 0 && j < |part| && part[j] == s[|s| - 1]
    requires multiset(part) + multiset(other) == multiset(s)
    ensures multiset(part[..j] + part[j + 1..]) + multiset(other) == multiset(s[..|s| - 1])
  {
    var n := |s| - 1;
    assert s[..n] + s[n + 1..] == s[..n];
    MultisetRemove(s, n);
    MultisetRemove(part, j);
    MultisetCancel(multiset(s[..n]), multiset(part[..j] + part[j + 1..]) + multiset(other), s[n]);
  }

  lemma Located(s: seq<real>, part: seq<real>, other: seq<real>) returns (inPart: bool, j: nat)
    requires |s| > 0 && multiset(part) + multiset(other) == multiset(s)
    ensures if inPart then j < |part| && part[j] == s[|s| - 1] else j < |other| && other[j] == s[|s| - 1]
  {
    var x := s[|s| - 1];
    assert x in multiset(s);
    inPart := x in part;
    if inPart {
      j :| 0 <= j < |part| && part[j] == x;
    } else {
      assert x in multiset(other);
      j :| 0 <= j < |other| && other[j] == x;
    }
  }

  lemma {:induction false} PrefixIsLeast(s: seq<real>, chosen: seq<real>, rest: seq<real>)
    requires Sorted(s) && multiset(chosen) + multiset(rest) == multiset(s)
    ensures |chosen| <= |s| && Sum(s[..|chosen|]) <= Sum(chosen)
    decreases |s|
  {
    var k, n := |chosen|, |s| - 1;
    assert |multiset(chosen) + multiset(rest)| == k + |rest| && |multiset(s)| == |s|;
    if |s| > 0 {
      hide Sum;
      var inChosen, j := Located(s, chosen, rest);
      if inChosen {
        TakeLast(s, chosen, rest, j);
        PrefixIsLeast(s[..n], chosen[..j] + chosen[j + 1..], rest);
        assert s[..n][..k - 1] == s[..k - 1];
        SumStep(s, k - 1);
        SumRemove(chosen, j);
      } else {
        TakeLast(s, rest, chosen, j);
        PrefixIsLeast(s[..n], chosen, rest[..j] + rest[j + 1..]);
        assert s[..n][..k] == s[..k];
      }
    }
  }

  /** No selection of as many returns as the tail holds has a worse mean than the expected shortfall reports. */
  lemma CvarIsWorstMean(xs: seq<real>, confidence: real, chosen: seq<real>, rest: seq<real>)
    requires Answers(|xs|, confidence) && |chosen| == CvarCount(|xs|, confidence)
    requires multiset(chosen) + multiset(rest) == multiset(xs)
    ensures |chosen| > 0 && HistoricalCvar(xs, confidence).value >= -Mean(chosen)
  {
    IndexBounds(|xs|, confidence);
    SortSorts(xs);
    hide CvarCount, Sort;
    PrefixIsLeast(Sort(xs), chosen, rest);
    DivMonotone(Sum(Sort(xs)[..|chosen|]), Sum(chosen), |chosen| as real);
  }
}
