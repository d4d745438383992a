/** Win-rate significance and the binomial tail (src/research/significance.rs). The source
    multiplies ratios up to min(k, n - k); here that loop is proved to give Pascal's
    coefficient, and the doubled, clamped tail to be the exact two-sided p-value. */
module Significance {
  import opened Reals
  import opened Correlation

  /** Pascal's triangle. */
  function Choose(n: nat, k: nat): nat
  {
    if k == 0 then 1
    else if n == 0 then 0
    else Choose(n - 1, k - 1) + Choose(n - 1, k)
  }

  lemma {:induction false} ChooseAbove(n: nat, k: nat)
    requires k > n
    ensures Choose(n, k) == 0
  {
    if n > 0 {
      ChooseAbove(n - 1, k - 1);
      ChooseAbove(n - 1, k);
    }
  }

  lemma {:induction false} ChooseFull(n: nat)
    ensures Choose(n, n) == 1
  {
    if n > 0 {
      ChooseFull(n - 1);
      ChooseAbove(n - 1, n);
    }
  }

  lemma {:induction false} ChooseSymmetric(n: nat, k: nat)
    requires k <= n
    ensures Choose(n, k) == Choose(n, n - k)
  {
    if k == 0 || k == n {
      ChooseFull(n);
    } else {
      ChooseSymmetric(n - 1, k - 1);
      ChooseSymmetric(n - 1, k);
    }
  }

  lemma {:induction false} ChoosePositive(n: nat, k: nat)
    requires k <= n
    ensures Choose(n, k) >= 1
  {
    if k > 0 { ChoosePositive(n - 1, k - 1); }
  }

  lemma ChooseZero(n: nat)
    ensures Choose(n, 0) == 1
  {
  }

  lemma Pascal(n: nat, k: nat)
    requires n > 0 && k > 0
    ensures Choose(n, k) == Choose(n - 1, k - 1) + Choose(n - 1, k)
  {
  }

  /** The ratio between neighbours that the source's loop multiplies by. */
  lemma {:induction false} ChooseRatio(n: nat, i: nat)
    requires i < n
    ensures Choose(n, i + 1) * (i + 1) == Choose(n, i) * (n - i)
  {
    hide Choose;
    if i == 0 {
      ChooseOne(n);
      ChooseZero(n);
    } else if i == n - 1 {
      ChooseFull(n);
      ChooseSymmetric(n, n - 1);
      ChooseOne(n);
    } else {
      ChooseRatio(n - 1, i - 1);
      ChooseRatio(n - 1, i);
      Pascal(n, i);
      Pascal(n, i + 1);
      RatioAlgebra(Choose(n - 1, i - 1), Choose(n - 1, i), Choose(n - 1, i + 1), n, i);
    }
  }

  lemma RatioAlgebra(a: nat, b: nat, c: nat, n: nat, i: nat)
    requires i < n && b * i == a * (n - i) && c * (i + 1) == b * (n - 1 - i)
    ensures (b + c) * (i + 1) == (a + b) * (n - i)
  {
    assert (b + c) * (i + 1) == b * i + b + c * (i + 1);
    assert (a + b) * (n - i) == a * (n - i) + b * (n - 1 - i) + b;
  }

  lemma {:induction false} ChooseOne(n: nat)
    ensures Choose(n, 1) == n
  {
    if n > 0 { ChooseOne(n - 1); }
  }

  /** The probability of k successes in n trials. */
  function Mass(n: nat, k: nat, p: real): real
    requires k <= n
  {
    Times(Times(Choose(n, k) as real, Pow(p, k)), Pow(1.0 - p, n - k))
  }

  method BinomialProbability(n: nat, k: nat, p: real) returns (r: Option<real>)
    ensures r == if k > n || !(0.0 <= p <= 1.0) then None else Some(Mass(n, k, p))
  {
    hide Times;
    if k > n || !(0.0 <= p <= 1.0) { return None; }
    var kSmall := if k < n - k then k else n - k;
    var coeff := 1.0;
    for i := 0 to kSmall
      invariant coeff == Choose(n, i) as real
    {
      RatioStep(n, i);
      coeff := Times(coeff, (n - i) as real / (i + 1) as real);
    }
    ChooseSymmetric(n, k);
    r := Some(Times(Times(coeff, Pow(p, k)), Pow(1.0 - p, n - k)));
  }

  lemma RatioStep(n: nat, i: nat)
    requires i < n
    ensures Times(Choose(n, i) as real, (n - i) as real / (i + 1) as real) == Choose(n, i + 1) as real
  {
    ChooseRatio(n, i);
    hide Choose, Times;
    ProductAsReal(Choose(n, i + 1), i + 1);
    ProductAsReal(Choose(n, i), n - i);
    QuotientStep(Choose(n, i) as real, (n - i) as real, (i + 1) as real, Choose(n, i + 1) as real);
  }

  lemma ProductAsReal(x: nat, y: nat)
    ensures (x * y) as real == Times(x as real, y as real)
  {
  }

  lemma QuotientStep(a: real, b: real, c: real, d: real)
    requires c > 0.0 && Times(d, c) == Times(a, b)
    ensures Times(a, b / c) == d
  {
    assert a * (b / c) == (a * b) / c;
  }

  // ---- The binomial theorem: the masses sum to one ----

  /** Mass, extended by 0 above n. */
  function MassAt(n: nat, k: nat, p: real): real { if k <= n then Mass(n, k, p) else 0.0 }

  /** The probability of fewer than m successes. */
  function Below(n: nat, m: nat, p: real): real
  {
    if m == 0 then 0.0 else Below(n, m - 1, p) + MassAt(n, m - 1, p)
  }

  lemma FactorRight(c: real, x: real, q: real, y: real)
    ensures Times(Times(c, x), Times(q, y)) == Times(q, Times(Times(c, x), y))
  {
    TimesAssociative(q, Times(c, x), y);
    TimesAssociative(Times(c, x), q, y);
  }

  lemma FactorMiddle(c: real, p: real, x: real, y: real)
    ensures Times(Times(c, Times(p, x)), y) == Times(p, Times(Times(c, x), y))
  {
    assert Times(c, Times(p, x)) == Times(p, Times(c, x)) by { assert c * (p * x) == p * (c * x); }
    hide Times;
    TimesAssociative(p, Times(c, x), y);
  }

  /** Conditioning on the last trial. */
  lemma MassRecurrence(n: nat, k: nat, p: real)
    requires k > 0
    ensures MassAt(n + 1, k, p) == Times(p, MassAt(n, k - 1, p)) + Times(1.0 - p, MassAt(n, k, p))
  {
    hide Times;
    TimesZero(p);
    TimesZero(1.0 - p);
    if k <= n + 1 {
      var q := 1.0 - p;
      var a, b := Choose(n, k - 1) as real, Choose(n, k) as real;
      assert Choose(n + 1, k) == Choose(n, k - 1) + Choose(n, k);
      TimesDistributes(a, b, Pow(p, k));
      TimesDistributes(Times(a, Pow(p, k)), Times(b, Pow(p, k)), Pow(q, n + 1 - k));
      FactorMiddle(a, p, Pow(p, k - 1), Pow(q, n + 1 - k));
      if k <= n {
        assert Pow(q, n + 1 - k) == Times(q, Pow(q, n - k));
        FactorRight(b, Pow(p, k), q, Pow(q, n - k));
      } else {
        ChooseAbove(n, k);
        TimesZero(Pow(p, k));
        TimesZero(Pow(q, n + 1 - k));
      }
    }
  }

  lemma {:induction false} BelowRecurrence(n: nat, m: nat, p: real)
    ensures Below(n + 1, m + 1, p) == Times(p, Below(n, m, p)) + Times(1.0 - p, Below(n, m + 1, p))
  {
    hide Times, Mass;
    if m == 0 {
      var q := 1.0 - p;
      assert Below(n + 1, 1, p) == Below(n + 1, 0, p) + MassAt(n + 1, 0, p);
      assert Below(n, 1, p) == Below(n, 0, p) + MassAt(n, 0, p);
      MassNone(n, p);
      MassNone(n + 1, p);
      TimesZero(p);
    } else {
      BelowRecurrence(n, m - 1, p);
      MassRecurrence(n, m, p);
      TimesDistributes(Below(n, m - 1, p), MassAt(n, m - 1, p), p);
      TimesDistributes(Below(n, m, p), MassAt(n, m, p), 1.0 - p);
    }
  }

  lemma MassNone(n: nat, p: real)
    ensures MassAt(n, 0, p) == Pow(1.0 - p, n)
  {
    assert Times(1.0, Pow(1.0 - p, n)) == Pow(1.0 - p, n);
    assert Times(1.0, 1.0) == 1.0;
  }

  /** The probabilities of 0..n successes sum to 1 for every p. */
  lemma {:induction false} MassesSumToOne(n: nat, p: real)
    ensures Below(n, n + 1, p) == 1.0
  {
    if n == 0 {
      MassNone(0, p);
      assert Below(0, 1, p) == Below(0, 0, p) + MassAt(0, 0, p);
    } else {
      hide Times, Mass;
      MassesSumToOne(n - 1, p);
      BelowRecurrence(n - 1, n, p);
      assert Below(n - 1, n + 1, p) == Below(n - 1, n, p) + MassAt(n - 1, n, p);
      TimesDistributes(p, 1.0 - p, 1.0);
      TimesOne(1.0);
    }
  }

  lemma MassPositive(n: nat, k: nat, p: real)
    requires k <= n && 0.0 < p < 1.0
    ensures Mass(n, k, p) > 0.0
  {
    ChoosePositive(n, k);
    PowPositive(p, k);
    PowPositive(1.0 - p, n - k);
    hide Times;
    TimesSign(Choose(n, k) as real, Pow(p, k));
    TimesSign(Times(Choose(n, k) as real, Pow(p, k)), Pow(1.0 - p, n - k));
  }

  // ---- The fair coin and the two-sided p-value ----

  lemma MassMirror(n: nat, k: nat)
    requires k <= n
    ensures Mass(n, k, 0.5) == Mass(n, n - k, 0.5)
  {
    ChooseSymmetric(n, k);
    hide Times, Choose, Pow;
    var c, a, b := Choose(n, k) as real, Pow(0.5, k), Pow(0.5, n - k);
    SwapFactors(c, a, b);
  }

  lemma {:induction false} BelowMirror(n: nat, j: nat)
    requires j <= n + 1
    ensures Below(n, j, 0.5) + Below(n, n + 1 - j, 0.5) == 1.0
  {
    hide Mass;
    if j == 0 {
      MassesSumToOne(n, 0.5);
    } else {
      BelowMirror(n, j - 1);
      MassMirror(n, j - 1);
      assert Below(n, n + 2 - j, 0.5) == Below(n, n + 1 - j, 0.5) + MassAt(n, n + 1 - j, 0.5);
    }
  }

  lemma {:induction false} BelowMonotone(n: nat, i: nat, j: nat)
    requires i <= j <= n + 1
    ensures Below(n, i, 0.5) <= Below(n, j, 0.5)
    ensures i < j ==> Below(n, i, 0.5) < Below(n, j, 0.5)
  {
    hide Mass;
    if i < j {
      BelowMonotone(n, i, j - 1);
      MassPositive(n, j - 1, 0.5);
    }
  }

  /** How far a win count lies from an even split, doubled to stay whole. */
  function Excess(wins: nat, total: nat): nat { if 2 * wins >= total then 2 * wins - total else total - 2 * wins }

  /** The probability, for a fair coin, of at most m-1 wins lying at least `d` off centre. */
  function Extreme(n: nat, d: nat, m: nat): real
  {
    if m == 0 then 0.0
    else Extreme(n, d, m - 1) + (if Excess(m - 1, n) >= d then MassAt(n, m - 1, 0.5) else 0.0)
  }

  /** The exact two-sided p-value of an even win probability: the chance of a split at least as lopsided. */
  function TwoSided(wins: nat, total: nat): real { Extreme(total, Excess(wins, total), total + 1) }

  lemma {:induction false} ExtremeCentred(n: nat, m: nat)
    ensures Extreme(n, 0, m) == Below(n, m, 0.5)
  {
    if m > 0 { ExtremeCentred(n, m - 1); }
  }

  lemma {:induction false} ExtremeTails(n: nat, obs: nat, m: nat)
    requires n < 2 * obs && obs <= n && m <= n + 1
    ensures Extreme(n, 2 * obs - n, m) ==
              if m <= n - obs + 1 then Below(n, m, 0.5)
              else if m <= obs then Below(n, n - obs + 1, 0.5)
              else Below(n, n - obs + 1, 0.5) + Below(n, m, 0.5) - Below(n, obs, 0.5)
  {
    hide Mass;
    if m > 0 { ExtremeTails(n, obs, m - 1); }
  }

  function Observed(wins: nat, total: nat): nat
    requires wins <= total
  {
    if wins >= total - wins then wins else total - wins
  }

  /** Doubling one tail and clamping at 1 is the exact two-sided p-value. */
  lemma DoubledTail(wins: nat, total: nat)
    requires wins <= total
    ensures Min((1.0 - Below(total, Observed(wins, total), 0.5)) * 2.0, 1.0) == TwoSided(wins, total)
  {
    hide Mass;
    var obs := Observed(wins, total);
    BelowMirror(total, obs);
    MassesSumToOne(total, 0.5);
    if 2 * wins == total {
      ExtremeCentred(total, total + 1);
      BelowMonotone(total, obs, total + 1 - obs);
    } else {
      ExtremeTails(total, obs, total + 1);
      BelowMonotone(total, total - obs + 1, obs);
    }
  }

  method WinRateSignificance(wins: nat, total: nat) returns (r: Option<real>)
    ensures r == if total == 0 || wins > total then None else Some(TwoSided(wins, total))
  {
    if total == 0 || wins > total { return None; }
    var observed := Observed(wins, total);
    var tail := 0.0;
    hide Mass;
    for k := observed to total + 1
      invariant tail == Below(total, k, 0.5) - Below(total, observed, 0.5)
    {
      var m := BinomialProbability(total, k, 0.5);
      tail := tail + m.value;
    }
    MassesSumToOne(total, 0.5);
    DoubledTail(wins, total);
    r := Some(Min(tail * 2.0, 1.0));
  }

  lemma {:induction false} ExtremeMonotone(n: nat, d: nat, e: nat, m: nat)
    requires d <= e && m <= n + 1
    ensures Extreme(n, e, m) <= Extreme(n, d, m)
    ensures Extreme(n, e, m) >= 0.0
  {
    hide Mass;
    if m > 0 {
      ExtremeMonotone(n, d, e, m - 1);
      MassPositive(n, m - 1, 0.5);
    }
  }

  /** A p-value: in (0, 1], the same for wins and losses exchanged, never larger for a more lopsided split. */
  lemma TwoSidedLaws(wins: nat, wins': nat, total: nat)
    requires wins <= total && wins' <= total
    ensures 0.0 < TwoSided(wins, total) <= 1.0
    ensures TwoSided(total - wins, total) == TwoSided(wins, total)
    ensures Excess(wins, total) <= Excess(wins', total) ==> TwoSided(wins', total) <= TwoSided(wins, total)
  {
    hide Mass;
    DoubledTail(wins, total);
    MassesSumToOne(total, 0.5);
    BelowMonotone(total, Observed(wins, total), total + 1);
    if Excess(wins, total) <= Excess(wins', total) {
      ExtremeMonotone(total, Excess(wins, total), Excess(wins', total), total + 1);
    }
  }

  // ---- Permutation p-value ----

  function Wrap(i: nat, n: nat): (r: nat)
    requires n > 0
    ensures r < n
  {
    i % n
  }

  /** The returns moved round by `shift` places; the signals stay. */
  function Rotated(obs: seq<(real, real)>, shift: nat): (r: seq<(real, real)>)
    ensures |r| == |obs|
  {
    seq(|obs|, i requires 0 <= i < |obs| => (obs[i].0, obs[Wrap(i + shift, |obs|)].1))
  }

  lemma RotatedAt(obs: seq<(real, real)>, shift: nat, i: nat)
    requires i < |obs|
    ensures Rotated(obs, shift)[i] == (obs[i].0, obs[Wrap(i + shift, |obs|)].1)
  {
    hide Wrap;
  }

  method RotateReturns(values: array<(real, real)>, shift: nat)
    modifies values
    ensures values[..] == Rotated(old(values[..]), shift)
  {
    hide Wrap, Rotated;
    var n := values.Length;
    if n == 0 { return; }
    ghost var was := values[..];
    var gains := Seconds(values[..]);
    for i := 0 to n
      invariant forall k :: 0 <= k < i ==> values[k] == Rotated(was, shift)[k]
      invariant forall k :: i <= k < n ==> values[k] == was[k]
    {
      RotatedAt(was, shift, i);
      values[i] := (values[i].0, gains[Wrap(i + shift, n)]);
    }
    assert values[..] == Rotated(was, shift);
  }

  lemma RotateTwice(obs: seq<(real, real)>, a: nat, b: nat)
    ensures Rotated(Rotated(obs, a), b) == Rotated(obs, a + b)
  {
    hide Wrap, Rotated;
    forall i | 0 <= i < |obs| ensures Rotated(Rotated(obs, a), b)[i] == Rotated(obs, a + b)[i] {
      RotatedAt(Rotated(obs, a), b, i);
      RotatedAt(obs, a, i);
      RotatedAt(obs, a, Wrap(i + b, |obs|));
      RotatedAt(obs, a + b, i);
      WrapAdd(i + b, a, |obs|);
      assert i + b + a == i + (a + b);
    }
  }

  lemma RotateNone(obs: seq<(real, real)>)
    ensures Rotated(obs, 0) == obs
  {
    hide Wrap;
    forall i | 0 <= i < |obs| ensures Rotated(obs, 0)[i] == obs[i] {
      RotatedAt(obs, 0, i);
      WrapSmall(i, |obs|);
    }
  }

  lemma {:induction false} WrapAdd(x: nat, a: nat, n: nat)
    requires n > 0
    ensures Wrap(Wrap(x, n) + a, n) == Wrap(x + a, n)
  {
    if x < n {
      WrapSmall(x, n);
    } else {
      WrapAdd(x - n, a, n);
      WrapOnce(x - n, n);
      WrapOnce(x - n + a, n);
      hide Wrap;
      assert x - n + a + n == x + a;
    }
  }

  lemma WrapSmall(x: nat, n: nat)
    requires x < n
    ensures Wrap(x, n) == x
  {
  }

  lemma WrapOnce(y: nat, n: nat)
    requires n > 0
    ensures Wrap(y + n, n) == Wrap(y, n)
  {
    var k := (y + n) / n - y / n - 1;
    var d := y % n - (y + n) % n;
    assert n * k == d;
    assert d < n && d > 0 - n;
  }

  /** The rotations accumulate: after t of them the returns have moved 1 + 2 + ... + t places. */
  function Triangle(t: nat): nat { if t == 0 then 0 else Triangle(t - 1) + t }

  /** After t steps the rotations by 1, 2, ..., t have added up. */
  lemma {:induction false} TriangleMeaning(t: nat)
    ensures 2 * Triangle(t) == t * (t + 1)
  {
    if t > 0 { TriangleMeaning(t - 1); }
  }

  predicate AtLeastAsExtreme(obs: seq<(real, real)>, shift: nat, observed: real, sqrt: real -> real) {
    Abs(match Pearson(Rotated(obs, shift), sqrt) case None => 0.0 case Some(ic) => ic) >= observed
  }

  function ExtremeCount(obs: seq<(real, real)>, t: nat, observed: real, sqrt: real -> real): (c: nat)
    ensures c <= t
  {
    if t == 0 then 0
    else
      var more := if AtLeastAsExtreme(obs, Triangle(t), observed, sqrt) then 1 else 0;
      ExtremeCount(obs, t - 1, observed, sqrt) + more
  }

  /** The p-value counts the rotations of the original pairs by 1, 3, 6, 10, ... places whose
      correlation is at least as large, the unrotated pairs included; it lies in (0, 1]. */
  method PermutationPValue(observations: seq<(real, real)>, permutations: nat,
                           sqrt: real -> real) returns (r: Option<real>)
    ensures r == if |observations| < 4 || permutations == 0 || Pearson(observations, sqrt) == None then None
                 else
                   var observed := Abs(Pearson(observations, sqrt).value);
                   var extreme := ExtremeCount(observations, permutations, observed, sqrt);
                   Some((extreme as real + 1.0) / (permutations as real + 1.0))
    ensures r != None ==> 0.0 < r.value <= 1.0
  {
    hide Pearson, Wrap, Rotated;
    if |observations| < 4 || permutations == 0 { return None; }
    var ic := Pearson(observations, sqrt);
    if ic == None { return None; }
    var observed := Abs(ic.value);
    var shuffled := new (real, real)[|observations|](i requires 0 <= i < |observations| => observations[i]);
    assert shuffled[..] == observations;
    RotateNone(observations);
    var extreme := 0;
    for step := 0 to permutations
      invariant shuffled[..] == Rotated(observations, Triangle(step))
      invariant extreme == ExtremeCount(observations, step, observed, sqrt)
    {
      RotateTwice(observations, Triangle(step), step + 1);
      RotateReturns(shuffled, step + 1);
      var here := Pearson(shuffled[..], sqrt);
      var size := match here case None => 0.0 case Some(v) => v;
      if Abs(size) >= observed { extreme := extreme + 1; }
    }
    r := Some((extreme as real + 1.0) / (permutations as real + 1.0));
    ProperFraction(extreme as real + 1.0, permutations as real + 1.0);
  }

  lemma ProperFraction(x: real, y: real)
    requires 0.0 < x <= y
    ensures 0.0 < x / y <= 1.0
  {
  }
}
