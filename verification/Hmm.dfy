/** The hidden-Markov regime filter (src/strategy/hmm.rs). `Infer` renormalises after every
    observation; it is proved equal to Bayes' rule over all hidden-state paths, where each
    path is weighed once and the only division comes at the end. */
module Hmm {
  import opened Reals

  datatype Regime = TrendingBullish | TrendingBearish | Ranging | Volatile | Squeeze | Unknown

  /** The two library values `gaussian_likelihood` needs: exp and sqrt(2 pi). */
  datatype Gauss = Gauss(exp: real -> real, rootTwoPi: real) {
    ghost predicate Positive() { rootTwoPi > 0.0 && forall x {:trigger exp(x)} :: exp(x) > 0.0 }
  }

  datatype HmmRegimeModel = HmmRegimeModel(
    states: seq<Regime>,
    transition: seq<seq<real>>,
    emissionMean: seq<real>,
    emissionStd: seq<real>,
    prior: seq<real>)
  {
    predicate Shaped() {
      && |states| > 0
      && |transition| == |emissionMean| == |emissionStd| == |prior| == |states|
      && Square(transition, |states|)
    }
  }

  predicate Square(t: seq<seq<real>>, n: nat) {
    |t| == n && forall i :: 0 <= i < n ==> |t[i]| == n
  }

  function Positives(v: seq<real>): (r: seq<real>)
    ensures |r| == |v|
  {
    seq(|v|, i requires 0 <= i < |v| => Max(v[i], 0.0))
  }

  function Uniform(n: nat): (r: seq<real>)
    ensures |r| == n
  {
    if n == 0 then [] else seq(n, i => 1.0 / n as real)
  }

  /** Divides the positive entries by their sum; without any, falls back to the uniform law. */
  function Normalize(v: seq<real>): (r: seq<real>)
    ensures |r| == |v|
  {
    var sum := Sum(Positives(v));
    if sum <= 0.0 then Uniform(|v|)
    else seq(|v|, i requires 0 <= i < |v| => if v[i] > 0.0 then v[i] / sum else 0.0)
  }

  function New(states: seq<Regime>, transition: seq<seq<real>>, mean: seq<real>, std: seq<real>, prior: seq<real>)
    : (r: Option<HmmRegimeModel>)
  {
    var m := HmmRegimeModel(states, transition, mean, std, Normalize(prior));
    if m.Shaped() then Some(m) else None
  }

  function GaussianLikelihood(g: Gauss, x: real, mean: real, std: real): real
    requires g.rootTwoPi > 0.0
  {
    var s := Max(std, 0.000000001);
    var z := (x - mean) / s;
    MulPositive(s, g.rootTwoPi);
    g.exp(-0.5 * Times(z, z)) / Times(s, g.rootTwoPi)
  }

  /** The likelihood of one observation under every state. */
  function Likelihoods(m: HmmRegimeModel, g: Gauss, o: real): (r: seq<real>)
    requires m.Shaped() && g.rootTwoPi > 0.0
    ensures |r| == |m.states|
  {
    seq(|m.states|, to requires 0 <= to < |m.states| => GaussianLikelihood(g, o, m.emissionMean[to], m.emissionStd[to]))
  }

  function LikelihoodRows(m: HmmRegimeModel, g: Gauss, obs: seq<real>): (r: seq<seq<real>>)
    requires m.Shaped() && g.rootTwoPi > 0.0
    ensures |r| == |obs| && Rows(r, |m.states|)
  {
    seq(|obs|, k requires 0 <= k < |obs| => Likelihoods(m, g, obs[k]))
  }

  /** exp grows strictly, and is 1 at 0. */
  ghost predicate Growing(g: Gauss) {
    g.exp(0.0) == 1.0 && forall x, y {:trigger g.exp(x), g.exp(y)} :: x < y ==> g.exp(x) < g.exp(y)
  }

  /** Of two states with the same deviation the one whose mean lies nearer to the observation is the likelier, and
      equal distances are equally likely. */
  lemma NearerIsLikelier(m: HmmRegimeModel, g: Gauss, o: real, i: nat, j: nat)
    requires m.Shaped() && g.Positive() && Growing(g) && i < |m.states| && j < |m.states|
    requires m.emissionStd[i] == m.emissionStd[j]
    ensures var near, far := Abs(o - m.emissionMean[i]), Abs(o - m.emissionMean[j]);
      && (near < far ==> Likelihoods(m, g, o)[i] > Likelihoods(m, g, o)[j])
      && (near == far ==> Likelihoods(m, g, o)[i] == Likelihoods(m, g, o)[j])
  {
    DensityOrder(g, o, m.emissionMean[i], m.emissionMean[j], m.emissionStd[i]);
    hide GaussianLikelihood, Gauss.Positive, Growing, Abs;
  }

  lemma DensityOrder(g: Gauss, o: real, near: real, far: real, std: real)
    requires g.Positive() && Growing(g)
    ensures Abs(o - near) < Abs(o - far) ==> GaussianLikelihood(g, o, near, std) > GaussianLikelihood(g, o, far, std)
    ensures Abs(o - near) == Abs(o - far) ==> GaussianLikelihood(g, o, near, std) == GaussianLikelihood(g, o, far, std)
  {
    DensityForm(g, o, near, std);
    DensityForm(g, o, far, std);
    var s := Max(std, 0.000000001);
    hide GaussianLikelihood, StandardSquare, Times, Abs, Max, Gauss.Positive;
    assert s > 0.0 by { FloorPositive(std); }
    DistanceOrder(o - near, o - far, s);
    ExponentOrder(g, StandardSquare(o - near, s), StandardSquare(o - far, s));
    QuotientGrows(g.exp(-0.5 * StandardSquare(o - far, s)), g.exp(-0.5 * StandardSquare(o - near, s)),
                  Times(s, g.rootTwoPi));
  }

  lemma FloorPositive(std: real)
    ensures Max(std, 0.000000001) > 0.0
  {
  }

  lemma ExponentOrder(g: Gauss, near: real, far: real)
    requires Growing(g)
    ensures near < far ==> g.exp(-0.5 * near) > g.exp(-0.5 * far)
  {
    var x, y := -0.5 * near, -0.5 * far;
    assert near < far ==> y < x;
  }

  /** The squared distance in deviations. */
  function StandardSquare(d: real, s: real): real
    requires s > 0.0
  {
    Times(d / s, d / s)
  }

  lemma DensityForm(g: Gauss, o: real, mean: real, std: real)
    requires g.Positive()
    ensures var s := Max(std, 0.000000001);
      && Times(s, g.rootTwoPi) > 0.0
      && GaussianLikelihood(g, o, mean, std) == g.exp(-0.5 * StandardSquare(o - mean, s)) / Times(s, g.rootTwoPi)
  {
    MulPositive(Max(std, 0.000000001), g.rootTwoPi);
    assert Times(Max(std, 0.000000001), g.rootTwoPi) > 0.0;
    hide Times, Max;
  }

  lemma DistanceOrder(x: real, y: real, s: real)
    requires s > 0.0
    ensures Abs(x) < Abs(y) ==> StandardSquare(x, s) < StandardSquare(y, s)
    ensures Abs(x) == Abs(y) ==> StandardSquare(x, s) == StandardSquare(y, s)
  {
    SquareOfQuotient(x, s);
    SquareOfQuotient(y, s);
    if Abs(x) < Abs(y) {
      QuotientGrows(Abs(x), Abs(y), s);
      SquareGrows(Abs(x) / s, Abs(y) / s);
    }
    hide Abs, Times, StandardSquare;
  }

  lemma SquareOfQuotient(x: real, s: real)
    requires s > 0.0
    ensures StandardSquare(x, s) == Times(Abs(x) / s, Abs(x) / s) && Abs(x) / s >= 0.0
  {
    var a := x / s;
    assert a * s == x;
    if x < 0.0 {
      assert (0.0 - a) * s == 0.0 - x;
      assert Abs(x) / s == 0.0 - a;
    }
    TimesInverse(s, Abs(x));
  }

  lemma SquareGrows(a: real, b: real)
    requires 0.0 <= a < b
    ensures Times(a, a) < Times(b, b)
  {
    TimesOrder(a, a, b);
    TimesSigns(b - a, b);
    assert Times(b - a, b) == Times(b, b) - Times(a, b);
    hide Times;
  }

  lemma QuotientGrows(a: real, b: real, c: real)
    requires c > 0.0
    ensures a < b ==> a / c < b / c
  {
  }

  /** At its mean a state is likely in inverse proportion to its deviation. */
  lemma PeakLikelihood(g: Gauss, mean: real, std: real)
    requires g.Positive() && Growing(g) && std >= 0.000000001
    ensures Times(GaussianLikelihood(g, mean, mean, std), Times(std, g.rootTwoPi)) == 1.0
  {
    MulPositive(std, g.rootTwoPi);
    assert (mean - mean) / std == 0.0 && -0.5 * Times(0.0, 0.0) == 0.0;
    TimesInverse(Times(std, g.rootTwoPi), 1.0);
  }

  // ---- The forward filter, over a transition matrix t and likelihood rows ws ----

  predicate Rows(ws: seq<seq<real>>, n: nat) {
    forall k :: 0 <= k < |ws| ==> |ws[k]| == n
  }

  function Inflows(u: seq<real>, t: seq<seq<real>>, to: nat): (r: seq<real>)
    requires Square(t, |u|) && to < |u|
    ensures |r| == |u|
  {
    seq(|u|, from requires 0 <= from < |u| => Times(u[from], t[from][to]))
  }

  /** One unnormalised forward step: move, then weigh by the likelihood of the new observation. */
  function Advance(u: seq<real>, t: seq<seq<real>>, w: seq<real>): (r: seq<real>)
    requires Square(t, |u|) && |w| == |u|
    ensures |r| == |u|
  {
    seq(|u|, to requires 0 <= to < |u| => Times(Sum(Inflows(u, t, to)), w[to]))
  }

  /** What `infer` computes: normalise after every step. */
  function Filter(prior: seq<real>, t: seq<seq<real>>, ws: seq<seq<real>>): (r: seq<real>)
    requires Square(t, |prior|) && Rows(ws, |prior|)
    ensures |r| == |prior|
  {
    if |ws| == 0 then prior
    else Normalize(Advance(Filter(prior, t, ws[..|ws| - 1]), t, ws[|ws| - 1]))
  }

  /** The inner loops of `infer`: fills `next` slot by slot. */
  method AdvanceInto(m: HmmRegimeModel, g: Gauss, probs: seq<real>, obs: real, next: array<real>)
    requires m.Shaped() && g.rootTwoPi > 0.0 && |probs| == |m.states| == next.Length
    modifies next
    ensures next[..] == Advance(probs, m.transition, Likelihoods(m, g, obs))
  {
    ghost var w := Likelihoods(m, g, obs);
    ghost var goal := Advance(probs, m.transition, w);
    for to := 0 to next.Length
      invariant forall j :: 0 <= j < to ==> next[j] == goal[j]
    {
      var p := Sum(Inflows(probs, m.transition, to));
      var l := GaussianLikelihood(g, obs, m.emissionMean[to], m.emissionStd[to]);
      assert l == w[to];
      next[to] := Times(p, l);
    }
  }

  method Infer(m: HmmRegimeModel, g: Gauss, observations: seq<real>) returns (r: seq<(Regime, real)>)
    requires m.Shaped() && g.rootTwoPi > 0.0
    ensures |r| == |m.states|
    ensures forall i :: 0 <= i < |r| ==>
              r[i] == (m.states[i], Filter(m.prior, m.transition, LikelihoodRows(m, g, observations))[i])
  {
    var n := |m.states|;
    ghost var ws := LikelihoodRows(m, g, observations);
    if |observations| == 0 {
      return seq(n, i requires 0 <= i < n => (m.states[i], m.prior[i]));
    }
    var probs := m.prior;
    for k := 0 to |observations|
      invariant probs == Filter(m.prior, m.transition, ws[..k])
    {
      var next := new real[n](_ => 0.0);
      AdvanceInto(m, g, probs, observations[k], next);
      assert ws[..k + 1][..k] == ws[..k];
      probs := Normalize(next[..]);
    }
    assert ws[..|observations|] == ws;
    r := seq(n, i requires 0 <= i < n => (m.states[i], probs[i]));
  }

  /** `at` is the last position of the greatest weight. */
  predicate LastMaximum(f: seq<real>, at: nat) {
    at < |f| && (forall i :: 0 <= i < |f| ==> f[i] <= f[at]) && forall i :: at < i < |f| ==> f[i] < f[at]
  }

  /** `max_by` keeps the last of several maxima. */
  method MostLikely(m: HmmRegimeModel, g: Gauss, observations: seq<real>) returns (r: (Regime, real))
    requires m.Shaped() && g.rootTwoPi > 0.0
    ensures var f := Filter(m.prior, m.transition, LikelihoodRows(m, g, observations));
      exists at: nat :: LastMaximum(f, at) && r == (m.states[at], f[at])
  {
    var all := Infer(m, g, observations);
    var at: nat := 0;
    r := all[0];
    for k := 1 to |all|
      invariant at < k && r == all[at]
      invariant forall i :: 0 <= i < k ==> all[i].1 <= r.1
      invariant forall i :: at < i < k ==> all[i].1 < r.1
    {
      if all[k].1 >= r.1 { r, at := all[k], k; }
    }
    assert LastMaximum(Filter(m.prior, m.transition, LikelihoodRows(m, g, observations)), at);
  }

  // ---- Any inputs at all: the result is a probability law ----

  ghost predicate IsLaw(v: seq<real>) { NonNeg(v) && Sum(v) == 1.0 }

  lemma {:induction false} SumUniform(v: seq<real>, c: real)
    requires forall i :: 0 <= i < |v| ==> v[i] == c
    ensures Sum(v) == |v| as real * c
  {
    if |v| > 0 { SumUniform(v[..|v| - 1], c); }
  }

  lemma {:induction false} SumZero(v: seq<real>)
    requires forall i :: 0 <= i < |v| ==> v[i] == 0.0
    ensures Sum(v) == 0.0
  {
    if |v| > 0 { SumZero(v[..|v| - 1]); }
  }

  lemma NormalizeIsLaw(v: seq<real>)
    requires |v| > 0
    ensures IsLaw(Normalize(v))
  {
    hide Sum, Times;
    var sum, r := Sum(Positives(v)), Normalize(v);
    if sum <= 0.0 {
      SumUniform(r, 1.0 / |v| as real);
    } else {
      forall i | 0 <= i < |v| ensures r[i] >= 0.0 && r[i] == Times(1.0 / sum, Positives(v)[i]) {
        TimesInverse(sum, Positives(v)[i]);
      }
      ScaledSum(Positives(v), r, 1.0 / sum);
      TimesInverse(sum, sum);
    }
  }

  /** For any observations, matrix, emissions and raw prior whatsoever. */
  lemma FilterIsLaw(raw: seq<real>, t: seq<seq<real>>, ws: seq<seq<real>>)
    requires |raw| > 0 && Square(t, |raw|) && Rows(ws, |raw|)
    ensures IsLaw(Filter(Normalize(raw), t, ws))
  {
    if |ws| == 0 {
      NormalizeIsLaw(raw);
    } else {
      NormalizeIsLaw(Advance(Filter(Normalize(raw), t, ws[..|ws| - 1]), t, ws[|ws| - 1]));
    }
  }

  // ---- The reference: every hidden path, weighed once ----

  ghost function Snoc(ps: seq<seq<nat>>, to: nat): (r: seq<seq<nat>>)
    ensures |r| == |ps|
  {
    seq(|ps|, i requires 0 <= i < |ps| => ps[i] + [to])
  }

  ghost predicate IsPath(n: nat, len: nat, to: nat, p: seq<nat>) {
    |p| == len + 1 && p[len] == to && forall i :: 0 <= i <= len ==> p[i] < n
  }

  ghost predicate ArePaths(n: nat, len: nat, to: nat, ps: seq<seq<nat>>) {
    forall k :: 0 <= k < |ps| ==> IsPath(n, len, to, ps[k])
  }

  /** All paths of `len` moves among `n` states that end in `to`. */
  ghost function PathsTo(n: nat, len: nat, to: nat): (ps: seq<seq<nat>>)
    requires to < n
    ensures ArePaths(n, len, to, ps)
    decreases len, n + 1
  {
    if len == 0 then [[to]] else PathsVia(n, len, to, n)
  }

  /** Those of them whose last move leaves one of the states below `via`. */
  ghost function PathsVia(n: nat, len: nat, to: nat, via: nat): (ps: seq<seq<nat>>)
    requires len > 0 && via <= n && to < n
    ensures ArePaths(n, len, to, ps)
    decreases len, via
  {
    if via == 0 then [] else PathsVia(n, len, to, via - 1) + Snoc(PathsTo(n, len - 1, via - 1), to)
  }

  lemma {:induction false} PathsComplete(n: nat, len: nat, to: nat)
    requires to < n
    ensures forall p :: p in PathsTo(n, len, to) <==> IsPath(n, len, to, p)
    decreases len, n + 1
  {
    if len == 0 {
      forall p | IsPath(n, 0, to, p) ensures p in PathsTo(n, 0, to) { assert p == [to]; }
    } else {
      PathsViaComplete(n, len, to, n);
    }
  }

  lemma {:induction false} PathsViaComplete(n: nat, len: nat, to: nat, via: nat)
    requires len > 0 && via <= n && to < n
    ensures forall p :: p in PathsVia(n, len, to, via) <==> IsPath(n, len, to, p) && p[len - 1] < via
    decreases len, via
  {
    if via > 0 {
      PathsViaComplete(n, len, to, via - 1);
      PathsComplete(n, len - 1, via - 1);
      var ps := PathsTo(n, len - 1, via - 1);
      forall p ensures p in Snoc(ps, to) <==> IsPath(n, len, to, p) && p[len - 1] == via - 1 {
        if p in Snoc(ps, to) {
          var i :| 0 <= i < |ps| && p == ps[i] + [to];
          assert ps[i] in ps;
        }
        if IsPath(n, len, to, p) && p[len - 1] == via - 1 {
          assert p[..len] in ps;
          var i :| 0 <= i < |ps| && ps[i] == p[..len];
          assert p == Snoc(ps, to)[i];
        }
      }
    }
  }

  /** No path is counted twice. */
  ghost predicate Distinct(ps: seq<seq<nat>>) {
    forall i, j :: 0 <= i < j < |ps| ==> ps[i] != ps[j]
  }

  lemma {:induction false} PathsDistinct(n: nat, len: nat, to: nat)
    requires to < n
    ensures Distinct(PathsTo(n, len, to))
    decreases len, n + 1
  {
    if len > 0 { PathsViaDistinct(n, len, to, n); }
  }

  lemma {:induction false} PathsViaDistinct(n: nat, len: nat, to: nat, via: nat)
    requires len > 0 && via <= n && to < n
    ensures Distinct(PathsVia(n, len, to, via))
    decreases len, via
  {
    if via > 0 {
      PathsViaDistinct(n, len, to, via - 1);
      PathsDistinct(n, len - 1, via - 1);
      PathsViaComplete(n, len, to, via - 1);
      PathsComplete(n, len - 1, via - 1);
      var a, ps := PathsVia(n, len, to, via - 1), PathsTo(n, len - 1, via - 1);
      var b := Snoc(ps, to);
      forall i, j | 0 <= i < j < |b| ensures b[i] != b[j] {
        assert b[i][..|b[i]| - 1] == ps[i] && b[j][..|b[j]| - 1] == ps[j];
      }
      forall i, j | 0 <= i < |a| && 0 <= j < |b| ensures a[i] != b[j] {
        assert a[i] in a && ps[j] in ps;
      }
    }
  }

  /** Prior x transitions x likelihoods along one path. */
  function Joint(prior: seq<real>, t: seq<seq<real>>, ws: seq<seq<real>>, p: seq<nat>): real
    requires Square(t, |prior|) && Rows(ws, |prior|)
    requires |p| == |ws| + 1 && forall i :: 0 <= i < |p| ==> p[i] < |prior|
  {
    var k := |ws|;
    if k == 0 then prior[p[0]]
    else Times(Times(Joint(prior, t, ws[..k - 1], p[..k]), t[p[k - 1]][p[k]]), ws[k - 1][p[k]])
  }

  ghost function Joints(prior: seq<real>, t: seq<seq<real>>, ws: seq<seq<real>>, to: nat, ps: seq<seq<nat>>)
    : (r: seq<real>)
    requires Square(t, |prior|) && Rows(ws, |prior|) && ArePaths(|prior|, |ws|, to, ps)
    ensures |r| == |ps|
  {
    seq(|ps|, i requires 0 <= i < |ps| => assert IsPath(|prior|, |ws|, to, ps[i]); Joint(prior, t, ws, ps[i]))
  }

  /** The total weight of the hidden paths that end in `to`. */
  ghost function PathMass(prior: seq<real>, t: seq<seq<real>>, ws: seq<seq<real>>, to: nat): real
    requires Square(t, |prior|) && Rows(ws, |prior|) && to < |prior|
  {
    Sum(Joints(prior, t, ws, to, PathsTo(|prior|, |ws|, to)))
  }

  ghost function PathMasses(prior: seq<real>, t: seq<seq<real>>, ws: seq<seq<real>>): (r: seq<real>)
    requires Square(t, |prior|) && Rows(ws, |prior|)
    ensures |r| == |prior|
  {
    seq(|prior|, to requires 0 <= to < |prior| => PathMass(prior, t, ws, to))
  }

  /** The total weight of all hidden paths. */
  ghost function Evidence(prior: seq<real>, t: seq<seq<real>>, ws: seq<seq<real>>): real
    requires Square(t, |prior|) && Rows(ws, |prior|)
  {
    Sum(PathMasses(prior, t, ws))
  }

  lemma JointSnoc(prior: seq<real>, t: seq<seq<real>>, ws: seq<seq<real>>, p: seq<nat>, to: nat)
    requires Square(t, |prior|) && Rows(ws, |prior|) && |ws| > 0 && to < |prior|
    requires |p| == |ws| && forall i :: 0 <= i < |p| ==> p[i] < |prior|
    ensures Joint(prior, t, ws, p + [to])
         == Times(Times(t[p[|p| - 1]][to], ws[|ws| - 1][to]), Joint(prior, t, ws[..|ws| - 1], p))
  {
    hide Times;
    assert (p + [to])[..|ws|] == p;
    var j, x, y := Joint(prior, t, ws[..|ws| - 1], p), t[p[|p| - 1]][to], ws[|ws| - 1][to];
    assert Joint(prior, t, ws, p + [to]) == Times(Times(j, x), y);
    TimesRotate(j, x, y);
  }

  lemma SnocPaths(n: nat, len: nat, from: nat, ps: seq<seq<nat>>, to: nat)
    requires ArePaths(n, len, from, ps) && to < n
    ensures ArePaths(n, len + 1, to, Snoc(ps, to))
  {
    forall k | 0 <= k < |ps| ensures IsPath(n, len + 1, to, ps[k] + [to]) {
      assert IsPath(n, len, from, ps[k]);
    }
  }

  /** Extending every path by the same move multiplies its weight by the same factor. */
  lemma LastMoveSum(prior: seq<real>, t: seq<seq<real>>, ws: seq<seq<real>>, ps: seq<seq<nat>>, to: nat, from: nat)
    requires Square(t, |prior|) && Rows(ws, |prior|) && |ws| > 0 && to < |prior| && from < |prior|
    requires ArePaths(|prior|, |ws| - 1, from, ps)
    ensures ArePaths(|prior|, |ws|, to, Snoc(ps, to))
    ensures Sum(Joints(prior, t, ws, to, Snoc(ps, to)))
         == Times(Times(Sum(Joints(prior, t, ws[..|ws| - 1], from, ps)), t[from][to]), ws[|ws| - 1][to])
  {
    hide Times, Sum, Joint;
    SnocPaths(|prior|, |ws| - 1, from, ps, to);
    var before, after := Joints(prior, t, ws[..|ws| - 1], from, ps), Joints(prior, t, ws, to, Snoc(ps, to));
    forall i | 0 <= i < |ps| ensures after[i] == Times(Times(t[from][to], ws[|ws| - 1][to]), before[i]) {
      assert IsPath(|prior|, |ws| - 1, from, ps[i]);
      JointSnoc(prior, t, ws, ps[i], to);
    }
    ScaledSum(before, after, Times(t[from][to], ws[|ws| - 1][to]));
    TimesRotate(Sum(before), t[from][to], ws[|ws| - 1][to]);
  }

  lemma JointsConcat(prior: seq<real>, t: seq<seq<real>>, ws: seq<seq<real>>, to: nat, a: seq<seq<nat>>,
                     b: seq<seq<nat>>)
    requires Square(t, |prior|) && Rows(ws, |prior|)
    requires ArePaths(|prior|, |ws|, to, a) && ArePaths(|prior|, |ws|, to, b)
    ensures ArePaths(|prior|, |ws|, to, a + b)
    ensures Sum(Joints(prior, t, ws, to, a + b)) == Sum(Joints(prior, t, ws, to, a)) + Sum(Joints(prior, t, ws, to, b))
  {
    hide Joint, Sum, IsPath;
    assert Joints(prior, t, ws, to, a + b) == Joints(prior, t, ws, to, a) + Joints(prior, t, ws, to, b);
    SumConcat(Joints(prior, t, ws, to, a), Joints(prior, t, ws, to, b));
  }

  lemma InflowStep(u: seq<real>, t: seq<seq<real>>, to: nat, via: nat, w: real)
    requires Square(t, |u|) && to < |u| && via < |u|
    ensures Times(Sum(Inflows(u, t, to)[..via + 1]), w)
         == Times(Sum(Inflows(u, t, to)[..via]), w) + Times(Times(u[via], t[via][to]), w)
  {
    hide Times, Sum;
    SumStep(Inflows(u, t, to), via);
    TimesDistributes(Sum(Inflows(u, t, to)[..via]), Times(u[via], t[via][to]), w);
  }

  lemma {:induction false} ViaMass(prior: seq<real>, t: seq<seq<real>>, ws: seq<seq<real>>, to: nat, via: nat)
    requires Square(t, |prior|) && Rows(ws, |prior|) && |ws| > 0 && to < |prior| && via <= |prior|
    ensures Sum(Joints(prior, t, ws, to, PathsVia(|prior|, |ws|, to, via)))
         == Times(Sum(Inflows(PathMasses(prior, t, ws[..|ws| - 1]), t, to)[..via]), ws[|ws| - 1][to])
  {
    hide Times, Joint, Inflows;
    if via == 0 {
      TimesZero(ws[|ws| - 1][to]);
    } else {
      ViaMass(prior, t, ws, to, via - 1);
      ViaMassStep(prior, t, ws, to, via - 1);
    }
  }

  lemma ViaMassStep(prior: seq<real>, t: seq<seq<real>>, ws: seq<seq<real>>, to: nat, from: nat)
    requires Square(t, |prior|) && Rows(ws, |prior|) && |ws| > 0 && to < |prior| && from < |prior|
    requires Sum(Joints(prior, t, ws, to, PathsVia(|prior|, |ws|, to, from)))
          == Times(Sum(Inflows(PathMasses(prior, t, ws[..|ws| - 1]), t, to)[..from]), ws[|ws| - 1][to])
    ensures Sum(Joints(prior, t, ws, to, PathsVia(|prior|, |ws|, to, from + 1)))
         == Times(Sum(Inflows(PathMasses(prior, t, ws[..|ws| - 1]), t, to)[..from + 1]), ws[|ws| - 1][to])
  {
    hide Sum, Joints, PathsTo, Snoc, ArePaths, Inflows, Times;
    var ps := PathsTo(|prior|, |ws| - 1, from);
    LastMoveSum(prior, t, ws, ps, to, from);
    JointsConcat(prior, t, ws, to, PathsVia(|prior|, |ws|, to, from), Snoc(ps, to));
    InflowStep(PathMasses(prior, t, ws[..|ws| - 1]), t, to, from, ws[|ws| - 1][to]);
  }

  /** Summing over the last move: the path masses obey the unnormalised forward recursion. */
  lemma PathMassesAdvance(prior: seq<real>, t: seq<seq<real>>, ws: seq<seq<real>>)
    requires Square(t, |prior|) && Rows(ws, |prior|) && |ws| > 0
    ensures PathMasses(prior, t, ws) == Advance(PathMasses(prior, t, ws[..|ws| - 1]), t, ws[|ws| - 1])
  {
    var n := |prior|;
    var a := PathMasses(prior, t, ws[..|ws| - 1]);
    var next := Advance(a, t, ws[|ws| - 1]);
    forall to | 0 <= to < n ensures PathMass(prior, t, ws, to) == next[to] {
      ViaMass(prior, t, ws, to, n);
      assert Inflows(a, t, to)[..n] == Inflows(a, t, to);
    }
  }

  lemma PathMassesEmpty(prior: seq<real>, t: seq<seq<real>>, ws: seq<seq<real>>)
    requires Square(t, |prior|) && |ws| == 0
    ensures PathMasses(prior, t, ws) == prior
  {
    forall to | 0 <= to < |prior| ensures PathMass(prior, t, ws, to) == prior[to] {
      var js := Joints(prior, t, ws, to, PathsTo(|prior|, 0, to));
      assert js == [prior[to]];
      SumSnoc([], prior[to]);
      assert [] + [prior[to]] == js;
    }
  }

  // ---- Renormalising early changes nothing ----

  ghost predicate NonNeg(v: seq<real>) { forall i :: 0 <= i < |v| ==> v[i] >= 0.0 }

  ghost predicate NonNegRows(t: seq<seq<real>>) {
    forall i :: 0 <= i < |t| ==> NonNeg(t[i])
  }

  ghost predicate PositiveRows(ws: seq<seq<real>>) {
    forall k, i :: 0 <= k < |ws| && 0 <= i < |ws[k]| ==> ws[k][i] > 0.0
  }

  /** A Gaussian density is positive everywhere, also for a zero or negative deviation. */
  lemma LikelihoodRowsPositive(m: HmmRegimeModel, g: Gauss, obs: seq<real>)
    requires m.Shaped() && g.Positive()
    ensures PositiveRows(LikelihoodRows(m, g, obs))
  {
    forall x, mean, std ensures GaussianLikelihood(g, x, mean, std) > 0.0 {
      MulPositive(Max(std, 0.000000001), g.rootTwoPi);
    }
  }

  lemma InflowsScale(u: seq<real>, v: seq<real>, c: real, t: seq<seq<real>>, to: nat)
    requires Square(t, |u|) && Scaled(u, v, c) && to < |u|
    ensures Scaled(Inflows(u, t, to), Inflows(v, t, to), c)
  {
    hide Times;
    forall i | 0 <= i < |u| ensures Inflows(v, t, to)[i] == Times(c, Inflows(u, t, to)[i]) {
      TimesAssociative(c, u[i], t[i][to]);
    }
  }

  lemma AdvanceScales(u: seq<real>, v: seq<real>, c: real, t: seq<seq<real>>, w: seq<real>)
    requires Square(t, |u|) && |w| == |u| && Scaled(u, v, c)
    ensures Scaled(Advance(u, t, w), Advance(v, t, w), c)
  {
    hide Times, Sum, Inflows;
    forall to | 0 <= to < |u| ensures Advance(v, t, w)[to] == Times(c, Advance(u, t, w)[to]) {
      InflowsScale(u, v, c, t, to);
      ScaledSum(Inflows(u, t, to), Inflows(v, t, to), c);
      TimesAssociative(c, Sum(Inflows(u, t, to)), w[to]);
    }
  }

  lemma InflowsNonNegative(u: seq<real>, t: seq<seq<real>>, to: nat)
    requires Square(t, |u|) && NonNegRows(t) && NonNeg(u) && to < |u|
    ensures NonNeg(Inflows(u, t, to)) && Sum(Inflows(u, t, to)) >= 0.0
    ensures forall i :: 0 <= i < |u| ==> Inflows(u, t, to)[i] <= Sum(Inflows(u, t, to))
    ensures Sum(u) == 0.0 ==> Sum(Inflows(u, t, to)) == 0.0
  {
    hide Times, Sum;
    var flows := Inflows(u, t, to);
    forall from | 0 <= from < |u| ensures flows[from] >= 0.0 && (u[from] == 0.0 ==> flows[from] == 0.0) {
      assert NonNeg(t[from]);
      TimesSign(u[from], t[from][to]);
    }
    SumNonNegative(flows);
    SumNonNegative(u);
    if Sum(u) == 0.0 { SumZero(flows); }
  }

  lemma AdvanceNonNegative(u: seq<real>, t: seq<seq<real>>, w: seq<real>)
    requires Square(t, |u|) && |w| == |u| && NonNegRows(t) && NonNeg(u) && NonNeg(w)
    ensures NonNeg(Advance(u, t, w))
    ensures Sum(u) == 0.0 ==> Sum(Advance(u, t, w)) == 0.0
  {
    hide Times, Sum, Inflows;
    var a := Advance(u, t, w);
    forall to | 0 <= to < |u| ensures a[to] >= 0.0 && (Sum(u) == 0.0 ==> a[to] == 0.0) {
      InflowsNonNegative(u, t, to);
      TimesSign(Sum(Inflows(u, t, to)), w[to]);
    }
    if Sum(u) == 0.0 { SumZero(a); }
  }

  /** Evidence that vanishes stays vanished, so positive evidence means positive totals at every step. */
  lemma {:induction false} PathMassesNonNegative(prior: seq<real>, t: seq<seq<real>>, ws: seq<seq<real>>)
    requires Square(t, |prior|) && Rows(ws, |prior|) && NonNeg(prior) && NonNegRows(t) && PositiveRows(ws)
    ensures NonNeg(PathMasses(prior, t, ws))
    ensures |ws| > 0 && Evidence(prior, t, ws) > 0.0 ==> Evidence(prior, t, ws[..|ws| - 1]) > 0.0
  {
    if |ws| == 0 {
      PathMassesEmpty(prior, t, ws);
    } else {
      var front := ws[..|ws| - 1];
      PathMassesNonNegative(prior, t, front);
      PathMassesAdvance(prior, t, ws);
      SumNonNegative(PathMasses(prior, t, front));
      AdvanceNonNegative(PathMasses(prior, t, front), t, ws[|ws| - 1]);
    }
  }

  lemma QuotientScaled(c: real, x: real, z: real)
    requires c > 0.0 && z > 0.0
    ensures Times(c, z) > 0.0 && Times(c, x) / Times(c, z) == Times(1.0 / z, x)
  {
    TimesSign(c, z);
    assert (x / z) * (c * z) == c * x;
  }

  lemma NormalizeDivides(v: seq<real>)
    requires NonNeg(v) && Sum(v) > 0.0
    ensures forall i :: 0 <= i < |v| ==> Normalize(v)[i] == v[i] / Sum(v)
  {
    assert Positives(v) == v;
  }

  /** Scaling a non-negative vector does not change its normal form, which is division by the sum. */
  lemma NormalizeScaled(u: seq<real>, v: seq<real>, c: real)
    requires NonNeg(u) && Sum(u) > 0.0 && c > 0.0 && Scaled(u, v, c)
    ensures Scaled(u, Normalize(v), 1.0 / Sum(u))
  {
    hide Times, Sum, Normalize;
    ScaledSum(u, v, c);
    TimesSign(c, Sum(u));
    forall i | 0 <= i < |u| ensures v[i] >= 0.0 { TimesSign(c, u[i]); }
    NormalizeDivides(v);
    forall i | 0 <= i < |u| ensures Normalize(v)[i] == Times(1.0 / Sum(u), u[i]) {
      QuotientScaled(c, u[i], Sum(u));
    }
  }

  lemma FilterSnoc(prior: seq<real>, t: seq<seq<real>>, ws: seq<seq<real>>)
    requires Square(t, |prior|) && Rows(ws, |prior|) && |ws| > 0
    ensures Rows(ws[..|ws| - 1], |prior|) && |ws[|ws| - 1]| == |prior|
    ensures Filter(prior, t, ws) == Normalize(Advance(Filter(prior, t, ws[..|ws| - 1]), t, ws[|ws| - 1]))
  {
  }

  lemma PositiveRowsFront(ws: seq<seq<real>>)
    requires PositiveRows(ws) && |ws| > 0
    ensures PositiveRows(ws[..|ws| - 1])
  {
  }

  lemma PriorScaled(prior: seq<real>)
    requires Sum(prior) == 1.0
    ensures Scaled(prior, prior, 1.0 / Sum(prior))
  {
  }

  lemma {:induction false} FilterScalesMasses(prior: seq<real>, t: seq<seq<real>>, ws: seq<seq<real>>)
    requires Square(t, |prior|) && Rows(ws, |prior|) && IsLaw(prior) && NonNegRows(t) && PositiveRows(ws)
    requires Evidence(prior, t, ws) > 0.0
    ensures Scaled(PathMasses(prior, t, ws), Filter(prior, t, ws), 1.0 / Evidence(prior, t, ws))
    decreases |ws|, 1
  {
    PathMassesNonNegative(prior, t, ws);
    if |ws| == 0 {
      PathMassesEmpty(prior, t, ws);
      PriorScaled(prior);
    } else {
      FilterScalesFront(prior, t, ws);
    }
  }

  lemma {:induction false} FilterScalesFront(prior: seq<real>, t: seq<seq<real>>, ws: seq<seq<real>>)
    requires Square(t, |prior|) && Rows(ws, |prior|) && IsLaw(prior) && NonNegRows(t) && PositiveRows(ws) && |ws| > 0
    requires Evidence(prior, t, ws) > 0.0 && Evidence(prior, t, ws[..|ws| - 1]) > 0.0
    requires NonNeg(PathMasses(prior, t, ws))
    ensures Scaled(PathMasses(prior, t, ws), Filter(prior, t, ws), 1.0 / Evidence(prior, t, ws))
    decreases |ws|, 0
  {
    hide Times, Scaled, NonNeg, Sum, Normalize, Advance, Filter, PathMasses;
    var front, w := ws[..|ws| - 1], ws[|ws| - 1];
    FilterSnoc(prior, t, ws);
    PositiveRowsFront(ws);
    PathMassesAdvance(prior, t, ws);
    FilterScalesMasses(prior, t, front);
    var u, f := PathMasses(prior, t, front), Filter(prior, t, front);
    AdvanceScales(u, f, 1.0 / Sum(u), t, w);
    NormalizeScaled(PathMasses(prior, t, ws), Advance(f, t, w), 1.0 / Sum(u));
  }

  /** Bayes' rule: the weight of the hidden paths ending in each state over the weight of all of them. */
  ghost predicate IsPosterior(prior: seq<real>, t: seq<seq<real>>, ws: seq<seq<real>>, f: seq<real>)
    requires Square(t, |prior|) && Rows(ws, |prior|) && |f| == |prior|
  {
    && Evidence(prior, t, ws) > 0.0
    && forall to :: 0 <= to < |prior| ==> f[to] == PathMass(prior, t, ws, to) / Evidence(prior, t, ws)
  }

  /** Correctness of the filter: the step-normalised posterior is the weight of the hidden paths
      ending in a state over the weight of all hidden paths. */
  lemma FilterIsPosterior(prior: seq<real>, t: seq<seq<real>>, ws: seq<seq<real>>)
    requires Square(t, |prior|) && Rows(ws, |prior|) && IsLaw(prior) && NonNegRows(t) && PositiveRows(ws)
    requires Evidence(prior, t, ws) > 0.0
    ensures IsPosterior(prior, t, ws, Filter(prior, t, ws))
  {
    FilterScalesMasses(prior, t, ws);
    forall to | 0 <= to < |prior|
      ensures Filter(prior, t, ws)[to] == PathMass(prior, t, ws, to) / Evidence(prior, t, ws)
    {
      hide Filter, PathMass, Evidence, Joint, Times;
      assert PathMasses(prior, t, ws)[to] == PathMass(prior, t, ws, to);
      TimesInverse(Evidence(prior, t, ws), PathMass(prior, t, ws, to));
    }
  }

  lemma {:induction false} SomePositive(u: seq<real>) returns (i: nat)
    requires Sum(u) > 0.0
    ensures i < |u| && u[i] > 0.0
  {
    i := |u| - 1;
    if u[i] <= 0.0 { i := SomePositive(u[..i]); }
  }

  ghost predicate LeadsSomewhere(t: seq<seq<real>>) {
    forall from :: 0 <= from < |t| ==> exists to :: 0 <= to < |t[from]| && t[from][to] > 0.0
  }

  /** A caller can guarantee positive evidence: every row of the transition matrix leads somewhere. */
  lemma {:induction false} EvidencePositive(prior: seq<real>, t: seq<seq<real>>, ws: seq<seq<real>>)
    requires Square(t, |prior|) && Rows(ws, |prior|) && IsLaw(prior) && NonNegRows(t) && PositiveRows(ws)
    requires LeadsSomewhere(t)
    ensures Evidence(prior, t, ws) > 0.0
  {
    if |ws| == 0 {
      PathMassesEmpty(prior, t, ws);
    } else {
      var front, w := ws[..|ws| - 1], ws[|ws| - 1];
      EvidencePositive(prior, t, front);
      PathMassesNonNegative(prior, t, front);
      var u := PathMasses(prior, t, front);
      PathMassesAdvance(prior, t, ws);
      AdvanceNonNegative(u, t, w);
      var a := Advance(u, t, w);
      var from := SomePositive(u);
      var to :| 0 <= to < |t[from]| && t[from][to] > 0.0;
      InflowsNonNegative(u, t, to);
      TimesSign(u[from], t[from][to]);
      assert Inflows(u, t, to)[from] > 0.0;
      TimesSign(Sum(Inflows(u, t, to)), w[to]);
      SumNonNegative(a);
      assert a[to] > 0.0;
    }
  }

  // ---- Where Bayes' rule applies, and what the filter is elsewhere ----

  /** The state can be reached in n moves, each along a positive transition, from a state the prior allows. */
  ghost predicate ReachableIn(prior: seq<real>, t: seq<seq<real>>, n: nat, to: nat)
    requires Square(t, |prior|) && to < |prior|
    decreases n
  {
    if n == 0 then prior[to] > 0.0
    else exists from: nat :: from < |prior| && ReachableIn(prior, t, n - 1, from) && t[from][to] > 0.0
  }

  ghost predicate SomeReachable(prior: seq<real>, t: seq<seq<real>>, n: nat)
    requires Square(t, |prior|)
  {
    exists to: nat :: to < |prior| && ReachableIn(prior, t, n, to)
  }

  /** A step gives weight to a state exactly if weight can move to it. */
  lemma AdvancePositive(u: seq<real>, t: seq<seq<real>>, w: seq<real>, to: nat)
    requires Square(t, |u|) && |w| == |u| && NonNegRows(t) && NonNeg(u) && to < |u| && w[to] > 0.0
    ensures Advance(u, t, w)[to] > 0.0 <==> exists from: nat :: from < |u| && u[from] > 0.0 && t[from][to] > 0.0
  {
    hide Times, Sum;
    var flows := Inflows(u, t, to);
    InflowsNonNegative(u, t, to);
    TimesSign(Sum(flows), w[to]);
    forall from | 0 <= from < |u| ensures flows[from] > 0.0 <==> u[from] > 0.0 && t[from][to] > 0.0 {
      assert NonNeg(t[from]);
      TimesSign(u[from], t[from][to]);
      TimesPositive(u[from], t[from][to]);
    }
    if Sum(flows) > 0.0 {
      var from := SomePositive(flows);
      assert u[from] > 0.0;
    }
  }

  lemma TimesPositive(a: real, b: real)
    ensures Times(a, b) > 0.0 ==> a != 0.0 && b != 0.0
  {
  }

  /** Hidden paths that end in a state weigh something exactly if the state is reachable. */
  lemma {:induction false} MassIffReachable(prior: seq<real>, t: seq<seq<real>>, ws: seq<seq<real>>, to: nat)
    requires Square(t, |prior|) && Rows(ws, |prior|) && NonNeg(prior) && NonNegRows(t) && PositiveRows(ws)
    requires to < |prior|
    ensures PathMasses(prior, t, ws)[to] > 0.0 <==> ReachableIn(prior, t, |ws|, to)
    decreases |ws|
  {
    hide PathMasses, Advance, Sum, Times;
    if |ws| == 0 {
      PathMassesEmpty(prior, t, ws);
    } else {
      var front, w := ws[..|ws| - 1], ws[|ws| - 1];
      PathMassesNonNegative(prior, t, front);
      PathMassesAdvance(prior, t, ws);
      AdvancePositive(PathMasses(prior, t, front), t, w, to);
      forall from: nat | from < |prior|
        ensures PathMasses(prior, t, front)[from] > 0.0 <==> ReachableIn(prior, t, |ws| - 1, from)
      {
        MassIffReachable(prior, t, front, from);
      }
    }
  }

  /** There is evidence exactly if some state is reachable in as many moves as there are observations: the
      observations themselves do not matter. */
  lemma EvidenceIff(prior: seq<real>, t: seq<seq<real>>, ws: seq<seq<real>>)
    requires Square(t, |prior|) && Rows(ws, |prior|) && NonNeg(prior) && NonNegRows(t) && PositiveRows(ws)
    ensures Evidence(prior, t, ws) >= 0.0
    ensures Evidence(prior, t, ws) > 0.0 <==> SomeReachable(prior, t, |ws|)
  {
    hide PathMasses, ReachableIn;
    var u := PathMasses(prior, t, ws);
    PathMassesNonNegative(prior, t, ws);
    SumNonNegative(u);
    if Sum(u) > 0.0 {
      var to := SomePositive(u);
      MassIffReachable(prior, t, ws, to);
    }
    if to: nat :| to < |prior| && ReachableIn(prior, t, |ws|, to) { MassIffReachable(prior, t, ws, to); }
  }

  /** The filter is Bayes' rule exactly where some state is reachable. */
  lemma BayesIff(prior: seq<real>, t: seq<seq<real>>, ws: seq<seq<real>>)
    requires Square(t, |prior|) && Rows(ws, |prior|) && IsLaw(prior) && NonNegRows(t) && PositiveRows(ws)
    ensures IsPosterior(prior, t, ws, Filter(prior, t, ws)) <==> SomeReachable(prior, t, |ws|)
  {
    hide Filter, SomeReachable, PathMass;
    EvidenceIff(prior, t, ws);
    if Evidence(prior, t, ws) > 0.0 { FilterIsPosterior(prior, t, ws); }
  }

  /** Where the evidence first vanishes Bayes' rule says nothing, and the filter restarts from the uniform law. */
  lemma ZeroEvidenceRestarts(prior: seq<real>, t: seq<seq<real>>, ws: seq<seq<real>>)
    requires Square(t, |prior|) && Rows(ws, |prior|) && IsLaw(prior) && NonNegRows(t) && PositiveRows(ws) && |ws| > 0
    requires Evidence(prior, t, ws[..|ws| - 1]) > 0.0 && Evidence(prior, t, ws) == 0.0
    ensures Filter(prior, t, ws) == Uniform(|prior|)
  {
    hide Times, Sum, PathMass, Advance, Normalize, LeadsSomewhere;
    var front, w := ws[..|ws| - 1], ws[|ws| - 1];
    PathMassesNonNegative(prior, t, ws);
    PathMassesAdvance(prior, t, ws);
    FilterScalesMasses(prior, t, front);
    var f, z := Filter(prior, t, front), PathMasses(prior, t, ws);
    AdvanceScales(PathMasses(prior, t, front), f, 1.0 / Evidence(prior, t, front), t, w);
    SumNonNegative(z);
    ZeroIsUniform(z, Advance(f, t, w), 1.0 / Evidence(prior, t, front));
  }

  lemma ZeroIsUniform(z: seq<real>, v: seq<real>, c: real)
    requires |z| > 0 && Scaled(z, v, c) && forall i :: 0 <= i < |z| ==> z[i] == 0.0
    ensures Normalize(v) == Uniform(|v|)
  {
    hide Times, Sum;
    TimesZero(c);
    SumZero(Positives(v));
  }

  /** The law the filter last started from: the prior, or the uniform law after a restart. */
  function Base(prior: seq<real>, restart: nat): (r: seq<real>)
    ensures |r| == |prior|
  {
    if restart == 0 then prior else Uniform(|prior|)
  }

  /** After how many of n observations the filter last restarted; 0 if it never did. */
  ghost function LastRestart(prior: seq<real>, t: seq<seq<real>>, n: nat): (r: nat)
    requires Square(t, |prior|)
    ensures r <= n
  {
    if n == 0 then 0
    else
      var r := LastRestart(prior, t, n - 1);
      if SomeReachable(Base(prior, r), t, n - r) then r else n
  }

  lemma BaseIsLaw(prior: seq<real>, restart: nat)
    requires IsLaw(prior)
    ensures IsLaw(Base(prior, restart)) && |prior| > 0
  {
    var n := |prior|;
    assert n > 0;
    SumUniform(Uniform(n), 1.0 / n as real);
    assert n as real * (1.0 / n as real) == 1.0;
  }

  lemma UniformReaches(prior: seq<real>, t: seq<seq<real>>)
    requires |prior| > 0 && Square(t, |prior|)
    ensures SomeReachable(Uniform(|prior|), t, 0)
  {
    assert ReachableIn(Uniform(|prior|), t, 0, 0);
  }

  lemma FilterNone(base: seq<real>, t: seq<seq<real>>, ws: seq<seq<real>>)
    requires Square(t, |base|) && |ws| == 0
    ensures Filter(base, t, ws) == base
  {
  }

  lemma {:induction false} FilterFromRestart(prior: seq<real>, t: seq<seq<real>>, ws: seq<seq<real>>)
    requires Square(t, |prior|) && Rows(ws, |prior|) && IsLaw(prior) && NonNegRows(t) && PositiveRows(ws)
    ensures var r := LastRestart(prior, t, |ws|);
      && Filter(prior, t, ws) == Filter(Base(prior, r), t, ws[r..])
      && SomeReachable(Base(prior, r), t, |ws| - r)
    decreases |ws|
  {
    hide Filter, SomeReachable, Base, Uniform, IsLaw, Normalize, Evidence;
    BaseIsLaw(prior, LastRestart(prior, t, |ws|));
    if |ws| == 0 {
      assert ws[0..] == ws;
      StartReaches(prior, t);
    } else {
      var n := |ws| - 1;
      var front := ws[..n];
      FilterFromRestart(prior, t, front);
      var r := LastRestart(prior, t, n);
      var base, since := Base(prior, r), ws[r..];
      BaseIsLaw(prior, r);
      assert since[..|since| - 1] == front[r..];
      FilterSnoc(prior, t, ws);
      FilterSnoc(base, t, since);
      if !SomeReachable(base, t, |since|) {
        EvidenceOfLaw(base, t, front[r..]);
        EvidenceOfLaw(base, t, since);
        ZeroEvidenceRestarts(base, t, since);
        assert Filter(prior, t, ws) == Uniform(|prior|);
        FilterNone(Uniform(|prior|), t, ws[|ws|..]);
        UniformReaches(prior, t);
        BaseAfterRestart(prior, |ws|);
      }
    }
  }

  lemma BaseAfterRestart(prior: seq<real>, restart: nat)
    ensures Base(prior, 0) == prior && (restart > 0 ==> Base(prior, restart) == Uniform(|prior|))
  {
  }

  lemma EvidenceOfLaw(prior: seq<real>, t: seq<seq<real>>, ws: seq<seq<real>>)
    requires Square(t, |prior|) && Rows(ws, |prior|) && IsLaw(prior) && NonNegRows(t) && PositiveRows(ws)
    ensures Evidence(prior, t, ws) >= 0.0 && (Evidence(prior, t, ws) > 0.0 <==> SomeReachable(prior, t, |ws|))
  {
    EvidenceIff(prior, t, ws);
  }

  lemma StartReaches(prior: seq<real>, t: seq<seq<real>>)
    requires IsLaw(prior) && Square(t, |prior|)
    ensures Base(prior, 0) == prior && SomeReachable(prior, t, 0)
  {
    var i := SomePositive(prior);
    assert ReachableIn(prior, t, 0, i);
  }

  /** What the filter is for any observations: Bayes' rule over the observations since its last restart, from the
      law it then started from. */
  lemma FilterSinceRestart(prior: seq<real>, t: seq<seq<real>>, ws: seq<seq<real>>)
    requires Square(t, |prior|) && Rows(ws, |prior|) && IsLaw(prior) && NonNegRows(t) && PositiveRows(ws)
    ensures var r := LastRestart(prior, t, |ws|);
      IsPosterior(Base(prior, r), t, ws[r..], Filter(prior, t, ws))
  {
    var r := LastRestart(prior, t, |ws|);
    FilterFromRestart(prior, t, ws);
    BaseIsLaw(prior, r);
    hide Filter, SomeReachable, Base, IsLaw, IsPosterior, LastRestart;
    BayesIff(Base(prior, r), t, ws[r..]);
  }

  lemma ReachableBefore(prior: seq<real>, t: seq<seq<real>>, n: nat)
    requires Square(t, |prior|) && n > 0 && SomeReachable(prior, t, n)
    ensures SomeReachable(prior, t, n - 1)
  {
    var to: nat :| to < |prior| && ReachableIn(prior, t, n, to);
    var from: nat :| from < |prior| && ReachableIn(prior, t, n - 1, from) && t[from][to] > 0.0;
  }

  /** The filter has never restarted exactly where Bayes' rule from the prior itself applies. */
  lemma {:induction false} NeverRestartedIff(prior: seq<real>, t: seq<seq<real>>, n: nat)
    requires Square(t, |prior|) && IsLaw(prior)
    ensures LastRestart(prior, t, n) == 0 <==> SomeReachable(prior, t, n)
    decreases n
  {
    hide SomeReachable, IsLaw;
    if n == 0 {
      StartReaches(prior, t);
    } else {
      NeverRestartedIff(prior, t, n - 1);
      if SomeReachable(prior, t, n) { ReachableBefore(prior, t, n); }
    }
  }

  /** Every model `New` accepts whose transition rows are non-negative filters by Bayes' rule over the observations
      since its last restart; from its own prior exactly if some state is reachable in that many moves, and
      always if every row leads somewhere. */
  lemma InferIsBayes(states: seq<Regime>, t: seq<seq<real>>, mean: seq<real>, std: seq<real>, raw: seq<real>,
                     g: Gauss, obs: seq<real>)
    requires New(states, t, mean, std, raw).Some? && g.Positive() && NonNegRows(t)
    ensures var m := New(states, t, mean, std, raw).value;
      var ws, r := LikelihoodRows(m, g, obs), LastRestart(m.prior, t, |obs|);
      && IsPosterior(Base(m.prior, r), t, ws[r..], Filter(m.prior, t, ws))
      && (IsPosterior(m.prior, t, ws, Filter(m.prior, t, ws)) <==> SomeReachable(m.prior, t, |obs|))
      && (LeadsSomewhere(t) ==> SomeReachable(m.prior, t, |obs|))
  {
    var m := New(states, t, mean, std, raw).value;
    var ws := LikelihoodRows(m, g, obs);
    NormalizeIsLaw(raw);
    LikelihoodRowsPositive(m, g, obs);
    hide Normalize, LikelihoodRows, Filter, IsPosterior, Evidence, IsLaw, NonNegRows, PositiveRows, LeadsSomewhere,
         Rows, SomeReachable, LastRestart;
    FilterSinceRestart(m.prior, t, ws);
    BayesIff(m.prior, t, ws);
    if LeadsSomewhere(t) {
      EvidencePositive(m.prior, t, ws);
      EvidenceOfLaw(m.prior, t, ws);
    }
  }

  /** Bayes' rule does fail: `New` accepts a matrix without any positive transition, and after any observations at
      all the total weight is 0 and the filter uniform, although the prior is certain of the first state. */
  lemma ZeroMatrixRestarts(g: Gauss, obs: seq<real>)
    requires g.Positive() && |obs| > 0
    ensures var t := [[0.0, 0.0], [0.0, 0.0]];
      var model := New([Ranging, Volatile], t, [0.0, 0.0], [1.0, 1.0], [1.0, 0.0]);
      && model.Some? && model.value.prior == [1.0, 0.0]
      && var ws := LikelihoodRows(model.value, g, obs);
         Evidence(model.value.prior, t, ws) == 0.0 && Filter(model.value.prior, t, ws) == [0.5, 0.5]
  {
    var t, raw := [[0.0, 0.0], [0.0, 0.0]], [1.0, 0.0];
    CertainPrior(raw);
    var m := New([Ranging, Volatile], t, [0.0, 0.0], [1.0, 1.0], raw).value;
    var ws, r := LikelihoodRows(m, g, obs), LastRestart(m.prior, t, |obs|);
    NormalizeIsLaw(raw);
    LikelihoodRowsPositive(m, g, obs);
    hide Normalize, LikelihoodRows, Evidence, IsLaw, PositiveRows, Filter, LastRestart, Times, Sum;
    NothingReachable(m.prior, t, |obs|);
    EvidenceOfLaw(m.prior, t, ws);
    FilterFromRestart(m.prior, t, ws);
    if r < |obs| {
      NothingReachable(Base(m.prior, r), t, |obs| - r);
      assert false;
    }
    FilterNone(Uniform(2), t, ws[r..]);
  }

  lemma CertainPrior(raw: seq<real>)
    requires raw == [1.0, 0.0]
    ensures Normalize(raw) == raw
  {
    assert Positives(raw) == raw == [1.0] + [0.0] && [1.0] == [] + [1.0];
    SumSnoc([], 1.0);
    SumSnoc([1.0], 0.0);
  }

  lemma NothingReachable(prior: seq<real>, t: seq<seq<real>>, n: nat)
    requires Square(t, |prior|) && n > 0
    requires forall from, to :: 0 <= from < |t| && 0 <= to < |t[from]| ==> t[from][to] == 0.0
    ensures !SomeReachable(prior, t, n)
  {
  }
}
