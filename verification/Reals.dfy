/** Real arithmetic shared by the models: extrema, finite sums, and the few
    product facts the solver has to be told. Every f64 of the source is a `real`. */
module Reals {

  datatype Option<+T> = None | Some(value: T)

  function Max(a: real, b: real): real { if a >= b then a else b }

  function Min(a: real, b: real): real { if a <= b then a else b }

  function Abs(a: real): real { if a >= 0.0 then a else -a }

  function Clamp(x: real, lo: real, hi: real): real { if x < lo then lo else if x > hi then hi else x }

  function Sum(s: seq<real>): real
  {
    if |s| == 0 then 0.0 else Sum(s[..|s| - 1]) + s[|s| - 1]
  }

  function Mean(xs: seq<real>): real
    requires |xs| > 0
  {
    Sum(xs) / |xs| as real
  }

  function Pow(x: real, n: nat): real
  {
    if n == 0 then 1.0 else Times(x, Pow(x, n - 1))
  }

  /** A product under a name: proofs that only rearrange products hide the definition
      and use the Times lemmas below, which keeps them linear for the solver. */
  function Times(a: real, b: real): real { a * b }

  /** A square root: the only fact the models use about f64::sqrt. */
  ghost predicate IsSqrt(sqrt: real -> real) {
    forall x {:trigger sqrt(x)} :: x >= 0.0 ==> sqrt(x) >= 0.0 && sqrt(x) * sqrt(x) == x
  }

  lemma {:induction false} PowPositive(x: real, n: nat)
    requires x > 0.0
    ensures Pow(x, n) > 0.0
  {
    if n > 0 { PowPositive(x, n - 1); }
  }

  lemma SumSnoc(s: seq<real>, x: real)
    ensures Sum(s + [x]) == Sum(s) + x
  {
    assert (s + [x])[..|s|] == s;
  }

  lemma SumStep(s: seq<real>, i: nat)
    requires i < |s|
    ensures Sum(s[..i + 1]) == Sum(s[..i]) + s[i]
  {
    assert s[..i + 1] == s[..i] + [s[i]];
    SumSnoc(s[..i], s[i]);
  }

  lemma {:induction false} SumConcat(a: seq<real>, b: seq<real>)
    ensures Sum(a + b) == Sum(a) + Sum(b)
  {
    if |b| == 0 {
      assert a + b == a;
    } else {
      assert a + b == (a + b[..|b| - 1]) + [b[|b| - 1]];
      SumSnoc(a + b[..|b| - 1], b[|b| - 1]);
      SumConcat(a, b[..|b| - 1]);
    }
  }

  lemma SumHead(s: seq<real>)
    requires |s| > 0
    ensures Sum(s) == s[0] + Sum(s[1..])
  {
    assert s == [s[0]] + s[1..];
    SumConcat([s[0]], s[1..]);
    assert Sum([s[0]]) == Sum([]) + s[0] by { SumSnoc([], s[0]); assert [] + [s[0]] == [s[0]]; }
  }

  lemma {:induction false} SumNonNegative(s: seq<real>)
    requires forall i :: 0 <= i < |s| ==> s[i] >= 0.0
    ensures Sum(s) >= 0.0
    ensures forall i :: 0 <= i < |s| ==> s[i] <= Sum(s)
  {
    if |s| > 0 { SumNonNegative(s[..|s| - 1]); }
  }

  lemma SumRemove(t: seq<real>, k: nat)
    requires k < |t|
    ensures Sum(t) == Sum(t[..k] + t[k + 1..]) + t[k]
  {
    assert t == t[..k + 1] + t[k + 1..];
    SumConcat(t[..k + 1], t[k + 1..]);
    SumStep(t, k);
    SumConcat(t[..k], t[k + 1..]);
  }

  lemma MultisetRemove<T>(t: seq<T>, k: nat)
    requires k < |t|
    ensures multiset(t) == multiset(t[..k] + t[k + 1..]) + multiset{t[k]}
  {
    assert t == t[..k] + [t[k]] + t[k + 1..];
  }

  lemma MultisetCancel<T>(m: multiset<T>, n: multiset<T>, x: T)
    requires m + multiset{x} == n + multiset{x}
    ensures m == n
  {
    assert m == (m + multiset{x}) - multiset{x};
    assert n == (n + multiset{x}) - multiset{x};
  }

  /** Two arrangements of the same elements stay so when one common element is removed from each. */
  lemma RemoveCommon<T>(s: seq<T>, t: seq<T>) returns (k: nat)
    requires |s| > 0 && multiset(s) == multiset(t)
    ensures k < |t| && t[k] == s[|s| - 1]
    ensures multiset(s[..|s| - 1]) == multiset(t[..k] + t[k + 1..])
  {
    var x := s[|s| - 1];
    assert x in multiset(s);
    assert x in t;
    k :| 0 <= k < |t| && t[k] == x;
    MultisetRemove(s, |s| - 1);
    MultisetRemove(t, k);
    assert s[..|s| - 1] + s[|s| - 1 + 1..] == s[..|s| - 1];
    MultisetCancel(multiset(s[..|s| - 1]), multiset(t[..k] + t[k + 1..]), x);
  }

  lemma MulNonNegative(a: real, b: real)
    requires a >= 0.0 && b >= 0.0
    ensures a * b >= 0.0
  {
  }

  lemma MulPositive(a: real, b: real)
    requires a > 0.0 && b > 0.0
    ensures a * b > 0.0
  {
  }

  lemma MulMonotone(a: real, b: real, c: real)
    requires a <= b && c >= 0.0
    ensures a * c <= b * c
  {
    MulNonNegative(b - a, c);
  }

  /** Non-negative numbers are ordered as their squares are. */
  lemma SquareOrder(a: real, b: real)
    requires b >= 0.0 && a * a <= b * b
    ensures -b <= a <= b
  {
    if a > b { MulPositive(a - b, a + b); }
    if a < -b { MulPositive(-a - b, b - a); }
  }

  lemma DivBound(a: real, b: real, c: real)
    requires b > 0.0 && a <= c * b
    ensures a / b <= c
  {
  }

  lemma DivMonotone(a: real, b: real, c: real)
    requires a <= b && c > 0.0
    ensures a / c <= b / c
  {
  }

  // ---- Laws of Times ----

  lemma TimesSign(a: real, b: real)
    requires a >= 0.0 && b >= 0.0
    ensures Times(a, b) >= 0.0
    ensures a > 0.0 && b > 0.0 ==> Times(a, b) > 0.0
    ensures a == 0.0 || b == 0.0 ==> Times(a, b) == 0.0
  {
  }

  lemma TimesZero(a: real)
    ensures Times(0.0, a) == 0.0 && Times(a, 0.0) == 0.0
  {
  }

  lemma TimesAssociative(a: real, b: real, c: real)
    ensures Times(Times(a, b), c) == Times(a, Times(b, c))
  {
  }

  lemma SwapFactors(c: real, a: real, b: real)
    ensures Times(Times(c, a), b) == Times(Times(c, b), a)
  {
    assert (c * a) * b == (c * b) * a;
  }

  lemma TimesRotate(a: real, b: real, c: real)
    ensures Times(Times(a, b), c) == Times(Times(b, c), a)
  {
  }

  lemma TimesInverse(z: real, x: real)
    requires z > 0.0
    ensures Times(1.0 / z, x) == x / z
    ensures x >= 0.0 ==> x / z >= 0.0
  {
  }

  lemma TimesDistributes(a: real, b: real, c: real)
    ensures Times(a + b, c) == Times(a, c) + Times(b, c)
    ensures Times(c, a + b) == Times(c, a) + Times(c, b)
  {
  }

  lemma TimesMonotone(a: real, b: real, c: real)
    requires a <= b && c >= 0.0
    ensures Times(a, c) <= Times(b, c)
  {
    MulMonotone(a, b, c);
  }

  lemma TimesOrder(k: real, a: real, b: real)
    requires k >= 0.0 && a <= b
    ensures Times(k, a) <= Times(k, b)
  {
    MulMonotone(a, b, k);
  }

  lemma TimesOne(a: real)
    ensures Times(1.0, a) == a && Times(a, 1.0) == a
  {
  }

  lemma NegativeSquare(x: real, y: real)
    requires x < 0.0 && y == 0.0 - x
    ensures Times(x, x) == Times(y, y)
  {
  }

  /** A positive factor keeps the sign and scales the magnitude. */
  lemma TimesSigns(a: real, b: real)
    requires b > 0.0
    ensures (Times(a, b) > 0.0 <==> a > 0.0) && (Times(a, b) < 0.0 <==> a < 0.0)
    ensures Abs(Times(a, b)) == Times(b, Abs(a))
  {
    if a > 0.0 { MulPositive(a, b); }
    if a < 0.0 { MulPositive(0.0 - a, b); }
  }

  lemma SquareSign(x: real)
    ensures Times(x, x) >= 0.0
    ensures Times(x, x) == 0.0 <==> x == 0.0
  {
    hide Times;
    if x < 0.0 {
      NegativeSquare(x, 0.0 - x);
      TimesSign(0.0 - x, 0.0 - x);
    } else {
      TimesSign(x, x);
    }
  }

  lemma OneMore(n: nat, a: real)
    ensures Times((n + 1) as real, a) == Times(n as real, a) + a
  {
  }

  lemma {:induction false} SumAtMost(xs: seq<real>, y: real)
    requires forall i :: 0 <= i < |xs| ==> xs[i] <= y
    ensures Sum(xs) <= Times(|xs| as real, y)
  {
    hide Times;
    if |xs| == 0 {
      TimesZero(y);
    } else {
      SumAtMost(xs[..|xs| - 1], y);
      OneMore(|xs| - 1, y);
    }
  }

  lemma {:induction false} SumAtLeast(xs: seq<real>, y: real)
    requires forall i :: 0 <= i < |xs| ==> y <= xs[i]
    ensures Times(|xs| as real, y) <= Sum(xs)
  {
    hide Times;
    if |xs| == 0 {
      TimesZero(y);
    } else {
      SumAtLeast(xs[..|xs| - 1], y);
      OneMore(|xs| - 1, y);
    }
  }

  /** t is s with every entry multiplied by c. */
  ghost predicate Scaled(s: seq<real>, t: seq<real>, c: real) {
    |s| == |t| && forall i :: 0 <= i < |s| ==> t[i] == Times(c, s[i])
  }

  lemma {:induction false} ScaledSum(s: seq<real>, t: seq<real>, c: real)
    requires Scaled(s, t, c)
    ensures Sum(t) == Times(c, Sum(s))
  {
    if |s| == 0 {
    } else {
      var k := |s| - 1;
      assert Scaled(s[..k], t[..k], c) by { hide Times; }
      ScaledSum(s[..k], t[..k], c);
      TimesDistributes(Sum(s[..k]), s[k], c);
    }
  }
}
