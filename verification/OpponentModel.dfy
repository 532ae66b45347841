/**
 The Bayesian opponent model. Beliefs and likelihoods are vectors indexed by opponent type, in
 the order cooperative, strategic, stubborn, bluffing. Floats are modelled as reals, `exp` is any
 positive function and sqrt(2 pi) any positive number.
 */
module OpponentModel {
  import opened Money

  const TYPES := 4

  type Vec = v: seq<real> | |v| == TYPES witness [0.25, 0.25, 0.25, 0.25]

  const PRIOR: Vec := [0.25, 0.25, 0.25, 0.25]

  // ----- Vectors -------------------------------------------------------------------------------

  function Sum(v: seq<real>): real {
    if v == [] then 0.0 else Sum(v[..|v| - 1]) + v[|v| - 1]
  }

  function Times(v: Vec, w: Vec): Vec {
    seq(TYPES, i requires 0 <= i < TYPES => v[i] * w[i])
  }

  function Scale(v: Vec, k: real): Vec {
    seq(TYPES, i requires 0 <= i < TYPES => v[i] * k)
  }

  ghost predicate NonNegative(v: seq<real>) {
    forall i :: 0 <= i < |v| ==> v[i] >= 0.0
  }

  ghost predicate Positive(v: seq<real>) {
    forall i :: 0 <= i < |v| ==> v[i] > 0.0
  }

  /** A belief: non-negative and not all zero. Only its proportions matter. */
  ghost predicate Weighing(v: seq<real>) {
    NonNegative(v) && Sum(v) > 0.0
  }

  lemma SumOf(v: Vec)
    ensures Sum(v) == v[0] + v[1] + v[2] + v[3]
  {
    assert v[..3][..2] == v[..2] && v[..2][..1] == v[..1] && v[..1][..0] == [];
    assert Sum(v[..1]) == v[0];
    assert Sum(v[..2]) == v[0] + v[1];
    assert Sum(v[..3]) == v[0] + v[1] + v[2];
  }

  lemma SumScale(v: Vec, k: real)
    ensures Sum(Scale(v, k)) == Sum(v) * k
  {
    SumOf(v);
    SumOf(Scale(v, k));
  }

  // ----- Likelihoods ---------------------------------------------------------------------------

  datatype Metrics = Metrics(flexibility: real, responseTime: real, consistency: real)

  datatype Gauss = Gauss(mean: real, std: real)

  function FlexibilityGauss(t: nat): Gauss
    requires t < TYPES
  {
    [Gauss(0.8, 0.15), Gauss(0.45, 0.15), Gauss(0.1, 0.10), Gauss(0.5, 0.25)][t]
  }

  function ResponseTimeGauss(t: nat): Gauss
    requires t < TYPES
  {
    [Gauss(2.0, 2.0), Gauss(5.0, 3.0), Gauss(10.0, 5.0), Gauss(6.0, 4.0)][t]
  }

  function ConsistencyGauss(t: nat): Gauss
    requires t < TYPES
  {
    [Gauss(0.8, 0.15), Gauss(0.6, 0.20), Gauss(0.7, 0.15), Gauss(0.2, 0.20)][t]
  }

  type PositiveReal = x: real | x > 0.0 witness 1.0

  function Density(exp: real -> PositiveReal, rootTwoPi: PositiveReal, x: real, g: Gauss): real {
    if g.std <= 0.0 then (if x == g.mean then 1.0 else 0.0)
    else
      var z := (x - g.mean) / g.std;
      (1.0 / (g.std * rootTwoPi)) * exp(-0.5 * (z * z))
  }

  function LikelihoodOf(exp: real -> PositiveReal, rootTwoPi: PositiveReal, m: Metrics, t: nat): real
    requires t < TYPES
  {
    Density(exp, rootTwoPi, m.flexibility, FlexibilityGauss(t))
    * Density(exp, rootTwoPi, m.responseTime, ResponseTimeGauss(t))
    * Density(exp, rootTwoPi, m.consistency, ConsistencyGauss(t))
  }

  function Likelihood(exp: real -> PositiveReal, rootTwoPi: PositiveReal, m: Metrics): Vec {
    seq(TYPES, t requires 0 <= t < TYPES => LikelihoodOf(exp, rootTwoPi, m, t))
  }

  lemma DensityPositive(exp: real -> PositiveReal, rootTwoPi: PositiveReal, x: real, g: Gauss)
    requires g.std > 0.0
    ensures Density(exp, rootTwoPi, x, g) > 0.0
  {
    var z := (x - g.mean) / g.std;
    var c := 1.0 / (g.std * rootTwoPi);
    assert g.std * rootTwoPi > 0.0;
    assert c > 0.0 && exp(-0.5 * (z * z)) > 0.0;
  }

  /** No observation has likelihood zero under any type. */
  lemma LikelihoodPositive(exp: real -> PositiveReal, rootTwoPi: PositiveReal, m: Metrics)
    ensures Positive(Likelihood(exp, rootTwoPi, m))
  {
    forall t | 0 <= t < TYPES ensures LikelihoodOf(exp, rootTwoPi, m, t) > 0.0 {
      DensityPositive(exp, rootTwoPi, m.flexibility, FlexibilityGauss(t));
      DensityPositive(exp, rootTwoPi, m.responseTime, ResponseTimeGauss(t));
      DensityPositive(exp, rootTwoPi, m.consistency, ConsistencyGauss(t));
    }
  }

  // ----- The update ----------------------------------------------------------------------------

  function Normalise(v: Vec): Vec
    requires Sum(v) != 0.0
  {
    Scale(v, 1.0 / Sum(v))
  }

  function Updated(prior: Vec, likelihood: Vec): Vec {
    var posteriors := Times(prior, likelihood);
    if Sum(posteriors) == 0.0 then prior else Normalise(posteriors)
  }

  method UpdateBelief(exp: real -> PositiveReal, rootTwoPi: PositiveReal, m: Metrics, prior: Vec) returns (belief: Vec)
    ensures belief == Updated(prior, Likelihood(exp, rootTwoPi, m))
  {
    belief := UpdateWith(prior, Likelihood(exp, rootTwoPi, m));
  }

  /** The loop over the types, the likelihood of each being given. */
  method UpdateWith(prior: Vec, likelihood: Vec) returns (belief: Vec)
    ensures belief == Updated(prior, likelihood)
  {
    var posteriors: seq<real> := [];
    var total := 0.0;
    var t := 0;
    ghost var all := Times(prior, likelihood);
    while t < TYPES
      invariant 0 <= t <= TYPES
      invariant posteriors == all[..t] && total == Sum(posteriors)
    {
      var p := prior[t] * likelihood[t];
      assert p == all[t];
      posteriors := posteriors + [p];
      assert posteriors[..t] == all[..t] && posteriors == all[..t + 1];
      total := total + p;
      t := t + 1;
    }
    assert posteriors == all;
    if total == 0.0 {
      return prior;
    }
    belief := seq(TYPES, i requires 0 <= i < TYPES => posteriors[i] / total);
    forall i | 0 <= i < TYPES ensures belief[i] == Scale(all, 1.0 / total)[i] {
      Reciprocal(all[i], total);
    }
  }

  lemma Reciprocal(x: real, s: real)
    requires s != 0.0
    ensures x / s == x * (1.0 / s)
  {
    assert (x * (1.0 / s)) * s == x * ((1.0 / s) * s) == x;
  }

  function Fold(prior: Vec, observations: seq<Vec>): Vec {
    if observations == [] then prior
    else Updated(Fold(prior, observations[..|observations| - 1]), observations[|observations| - 1])
  }

  function Product(observations: seq<Vec>): Vec {
    if observations == [] then [1.0, 1.0, 1.0, 1.0]
    else Times(Product(observations[..|observations| - 1]), observations[|observations| - 1])
  }

  // ----- Folding is normalising once ---------------------------------------------------------------

  lemma TimesWeighing(v: Vec, w: Vec)
    requires Weighing(v) && Positive(w)
    ensures Weighing(Times(v, w))
    ensures forall i :: 0 <= i < TYPES ==> (Times(v, w)[i] == 0.0 <==> v[i] == 0.0)
  {
    SumOf(v);
    SumOf(Times(v, w));
    forall i | 0 <= i < TYPES ensures Times(v, w)[i] >= 0.0 && (Times(v, w)[i] == 0.0 <==> v[i] == 0.0) {
      assert w[i] > 0.0 && v[i] >= 0.0;
    }
  }

  lemma CancelFactor(x: real, k: real, s: real)
    requires k > 0.0 && s > 0.0
    ensures s * k != 0.0 && (x * k) * (1.0 / (s * k)) == x * (1.0 / s)
  {
    assert s * k > 0.0;
    assert (1.0 / (s * k)) * (s * k) == 1.0;
    assert (1.0 / s) * s == 1.0;
    var a, b := (x * k) * (1.0 / (s * k)), x * (1.0 / s);
    assert a * (s * k) == x * k;
    assert b * (s * k) == (b * s) * k == x * k;
  }

  lemma SwapFactors(a: real, b: real, c: real)
    ensures (a * b) * c == (a * c) * b
  {
  }

  /** Updating any multiple of a weighing normalises the product. */
  lemma UpdateScaled(v: Vec, k: real, likelihood: Vec)
    requires Weighing(v) && k > 0.0 && Positive(likelihood)
    ensures Weighing(Times(v, likelihood))
    ensures Updated(Scale(v, k), likelihood) == Normalise(Times(v, likelihood))
  {
    var p := Times(v, likelihood);
    TimesWeighing(v, likelihood);
    var scaled := Times(Scale(v, k), likelihood);
    forall i | 0 <= i < TYPES ensures scaled[i] == Scale(p, k)[i] {
      SwapFactors(v[i], k, likelihood[i]);
    }
    assert scaled == Scale(p, k);
    NormaliseScaled(p, k);
  }

  /** Normalising forgets a common factor. */
  lemma NormaliseScaled(p: Vec, k: real)
    requires Sum(p) > 0.0 && k > 0.0
    ensures Sum(Scale(p, k)) > 0.0 && Normalise(Scale(p, k)) == Normalise(p)
  {
    SumScale(p, k);
    assert Sum(p) * k > 0.0;
    var scaled := Scale(p, k);
    forall i | 0 <= i < TYPES ensures Normalise(scaled)[i] == Normalise(p)[i] {
      CancelInto(p[i], k, Sum(p), scaled[i], Sum(scaled));
    }
  }

  lemma CancelInto(x: real, k: real, s: real, xk: real, sk: real)
    requires k > 0.0 && s > 0.0 && xk == x * k && sk == s * k
    ensures sk != 0.0 && xk * (1.0 / sk) == x * (1.0 / s)
  {
    CancelFactor(x, k, s);
  }

  ghost predicate AllPositive(observations: seq<Vec>) {
    forall j :: 0 <= j < |observations| ==> Positive(observations[j])
  }

  lemma {:induction false} ProductPositive(observations: seq<Vec>)
    requires AllPositive(observations)
    ensures Positive(Product(observations))
  {
    if observations != [] {
      var front, last := observations[..|observations| - 1], observations[|observations| - 1];
      ProductPositive(front);
      assert Positive(last);
      forall i | 0 <= i < TYPES ensures Product(observations)[i] > 0.0 {
        assert Product(front)[i] > 0.0 && last[i] > 0.0;
      }
    }
  }

  /**
   Folding the update over any observations gives a multiple of the prior times the product of all
   likelihoods, and after at least one observation exactly its normalisation.
   */
  lemma {:induction false} FoldIsNormalisedProduct(prior: Vec, observations: seq<Vec>) returns (k: real)
    requires Weighing(prior) && AllPositive(observations)
    ensures k > 0.0 && Weighing(Times(prior, Product(observations)))
    ensures Fold(prior, observations) == Scale(Times(prior, Product(observations)), k)
    ensures observations != [] ==> Fold(prior, observations) == Normalise(Times(prior, Product(observations)))
  {
    ProductPositive(observations);
    TimesWeighing(prior, Product(observations));
    if observations == [] {
      k := 1.0;
      assert Fold(prior, observations) == Scale(Times(prior, Product(observations)), 1.0);
    } else {
      var front, last := observations[..|observations| - 1], observations[|observations| - 1];
      var k0 := FoldIsNormalisedProduct(prior, front);
      var v := Times(prior, Product(front));
      assert Positive(last);
      UpdateScaled(v, k0, last);
      TimesAssociative(prior, Product(front), last);
      k := 1.0 / Sum(Times(v, last));
    }
  }

  lemma Associate(a: real, b: real, c: real)
    ensures (a * b) * c == a * (b * c)
  {
  }

  lemma TimesAssociative(a: Vec, b: Vec, c: Vec)
    ensures Times(Times(a, b), c) == Times(a, Times(b, c))
  {
    forall i | 0 <= i < TYPES ensures Times(Times(a, b), c)[i] == Times(a, Times(b, c))[i] {
      Associate(a[i], b[i], c[i]);
    }
  }

  /** After an observation the belief is a distribution, and a type has probability zero exactly when its prior was zero. */
  lemma FoldIsDistribution(prior: Vec, observations: seq<Vec>)
    requires Weighing(prior) && AllPositive(observations) && observations != []
    ensures NonNegative(Fold(prior, observations)) && Sum(Fold(prior, observations)) == 1.0
    ensures forall i :: 0 <= i < TYPES ==> (Fold(prior, observations)[i] == 0.0 <==> prior[i] == 0.0)
  {
    var k := FoldIsNormalisedProduct(prior, observations);
    var w := Times(prior, Product(observations));
    ProductPositive(observations);
    TimesWeighing(prior, Product(observations));
    NormaliseSum(w);
    ScaleKeepsSigns(w, k);
  }

  lemma NormaliseSum(w: Vec)
    requires Sum(w) > 0.0
    ensures Sum(Normalise(w)) == 1.0
  {
    SumScale(w, 1.0 / Sum(w));
  }

  lemma ScaleKeepsSigns(w: Vec, k: real)
    requires NonNegative(w) && k > 0.0
    ensures NonNegative(Scale(w, k)) && forall i :: 0 <= i < TYPES ==> (Scale(w, k)[i] == 0.0 <==> w[i] == 0.0)
  {
    forall i | 0 <= i < TYPES ensures Scale(w, k)[i] >= 0.0 && (Scale(w, k)[i] == 0.0 <==> w[i] == 0.0) {
      assert w[i] > 0.0 ==> w[i] * k > 0.0;
    }
  }

  // ----- The order of observations does not matter --------------------------------------------------

  lemma TimesSwap(p: Vec, a: Vec, b: Vec)
    ensures Times(Times(p, a), b) == Times(Times(p, b), a)
  {
    forall i | 0 <= i < TYPES ensures Times(Times(p, a), b)[i] == Times(Times(p, b), a)[i] {
      SwapFactors(p[i], a[i], b[i]);
    }
  }

  lemma {:induction false} ProductPullOut(before: seq<Vec>, x: Vec, after: seq<Vec>)
    ensures Product(before + [x] + after) == Times(Product(before + after), x)
    decreases |after|
  {
    if after == [] {
      assert before + [x] + after == before + [x] && before + after == before;
      assert (before + [x])[..|before|] == before;
    } else {
      var front, last := after[..|after| - 1], after[|after| - 1];
      ProductPullOut(before, x, front);
      assert (before + [x] + after)[..|before| + |after|] == before + [x] + front;
      assert (before + after)[..|before| + |after| - 1] == before + front;
      TimesSwap(Product(before + front), x, last);
    }
  }

  lemma WithoutLast<T>(s: seq<T>)
    requires s != []
    ensures multiset(s) == multiset(s[..|s| - 1]) + multiset{s[|s| - 1]}
  {
    assert s == s[..|s| - 1] + [s[|s| - 1]];
  }

  lemma WithoutOne<T>(s: seq<T>, j: nat)
    requires j < |s|
    ensures s == s[..j] + [s[j]] + s[j + 1..]
    ensures multiset(s) == multiset(s[..j] + s[j + 1..]) + multiset{s[j]}
  {
    assert s == s[..j] + [s[j]] + s[j + 1..];
    assert multiset(s) == multiset(s[..j]) + multiset{s[j]} + multiset(s[j + 1..]);
  }

  lemma CancelOne<T>(a: multiset<T>, b: multiset<T>, x: T)
    requires a + multiset{x} == b + multiset{x}
    ensures a == b
  {
    assert a == (a + multiset{x}) - multiset{x};
    assert b == (b + multiset{x}) - multiset{x};
  }

  lemma MatchLast<T>(a: seq<T>, b: seq<T>) returns (j: nat)
    requires a != [] && multiset(a) == multiset(b)
    ensures j < |b| && b[j] == a[|a| - 1] && b == b[..j] + [b[j]] + b[j + 1..]
    ensures multiset(a[..|a| - 1]) == multiset(b[..j] + b[j + 1..])
  {
    var x := a[|a| - 1];
    WithoutLast(a);
    assert x in multiset(b);
    j :| 0 <= j < |b| && b[j] == x;
    WithoutOne(b, j);
    CancelOne(multiset(a[..|a| - 1]), multiset(b[..j] + b[j + 1..]), x);
  }

  lemma {:induction false} ProductPermuted(a: seq<Vec>, b: seq<Vec>)
    requires multiset(a) == multiset(b)
    ensures Product(a) == Product(b)
    decreases |a|
  {
    assert |multiset(a)| == |multiset(b)|;
    if a != [] {
      var j := MatchLast(a, b);
      ProductPullOut(b[..j], b[j], b[j + 1..]);
      ProductPermuted(a[..|a| - 1], b[..j] + b[j + 1..]);
    }
  }

  /** The same observations in another order lead to the same belief. */
  lemma BeliefIgnoresOrder(prior: Vec, a: seq<Vec>, b: seq<Vec>)
    requires Weighing(prior) && AllPositive(a) && multiset(a) == multiset(b)
    ensures Fold(prior, a) == Fold(prior, b)
  {
    assert |multiset(a)| == |multiset(b)|;
    forall j | 0 <= j < |b| ensures Positive(b[j]) {
      assert b[j] in multiset(a);
    }
    var k := FoldIsNormalisedProduct(prior, a);
    var l := FoldIsNormalisedProduct(prior, b);
    ProductPermuted(a, b);
  }

  // ----- Metrics computed from the opponent's prices ---------------------------------------------------

  const ALPHA := 0.4

  function Ema(values: seq<real>): real
    requires values != []
  {
    if |values| == 1 then values[0]
    else ALPHA * values[|values| - 1] + (1.0 - ALPHA) * Ema(values[..|values| - 1])
  }

  /** The moving average stays between any bounds on the values. */
  lemma {:induction false} EmaWithin(values: seq<real>, lo: real, hi: real)
    requires values != [] && forall i :: 0 <= i < |values| ==> lo <= values[i] <= hi
    ensures lo <= Ema(values) <= hi
  {
    if |values| > 1 {
      EmaWithin(values[..|values| - 1], lo, hi);
    }
  }

  method ComputeEma(values: seq<real>) returns (r: real)
    requires values != []
    ensures r == Ema(values)
  {
    r := values[0];
    var i := 1;
    while i < |values|
      invariant 1 <= i <= |values| && r == Ema(values[..i])
    {
      r := ALPHA * values[i] + (1.0 - ALPHA) * r;
      assert values[..i + 1][..i] == values[..i];
      i := i + 1;
    }
    assert values[..i] == values;
  }

  function RelativeChanges(prices: seq<real>): seq<real> {
    if |prices| < 2 then []
    else
      var n := |prices|;
      var front := RelativeChanges(prices[..n - 1]);
      if prices[n - 2] > 0.0 then front + [Abs(prices[n - 1] - prices[n - 2]) / prices[n - 2]] else front
  }

  /** Always in [0, 1], so building the metrics never fails; 0.5 when nothing was observed. */
  method ComputeFlexibility(prices: seq<real>) returns (r: real)
    ensures r == if RelativeChanges(prices) == [] then 0.5
                 else if Ema(RelativeChanges(prices)) < 1.0 then Ema(RelativeChanges(prices)) else 1.0
    ensures 0.0 <= r <= 1.0
  {
    if |prices| < 2 { return 0.5; }
    var deltas := [];
    var i := 1;
    assert RelativeChanges(prices[..1]) == [];
    while i < |prices|
      invariant 1 <= i <= |prices|
      invariant deltas == RelativeChanges(prices[..i])
      invariant forall j :: 0 <= j < |deltas| ==> deltas[j] >= 0.0
    {
      var prev, curr := prices[i - 1], prices[i];
      assert prices[..i + 1][..i] == prices[..i];
      if prev > 0.0 {
        deltas := deltas + [Abs(curr - prev) / prev];
      }
      i := i + 1;
    }
    assert prices[..i] == prices;
    if deltas == [] { return 0.5; }
    var ema := ComputeEma(deltas);
    EmaNonNegative(deltas);
    return if ema < 1.0 then ema else 1.0;
  }

  lemma {:induction false} EmaNonNegative(values: seq<real>)
    requires values != [] && forall i :: 0 <= i < |values| ==> values[i] >= 0.0
    ensures Ema(values) >= 0.0
  {
    if |values| > 1 {
      EmaNonNegative(values[..|values| - 1]);
    }
  }

  /** The sign of every move from one price to the next. */
  function Directions(prices: seq<real>): (r: seq<int>)
    ensures |r| == if prices == [] then 0 else |prices| - 1
  {
    if |prices| < 2 then []
    else
      var n := |prices|;
      Directions(prices[..n - 1]) + [if prices[n - 1] > prices[n - 2] then 1 else if prices[n - 1] < prices[n - 2] then -1 else 0]
  }

  function Count(s: seq<int>, d: int): nat {
    if s == [] then 0 else Count(s[..|s| - 1], d) + if s[|s| - 1] == d then 1 else 0
  }

  lemma {:induction false} CountExact(s: seq<int>, d: int)
    ensures Count(s, d) <= |s| && (Count(s, d) == |s| <==> forall i :: 0 <= i < |s| ==> s[i] == d)
  {
    if s != [] {
      CountExact(s[..|s| - 1], d);
    }
  }

  function Share(k: nat, n: nat): real
    requires n > 0
  {
    k as real / n as real
  }

  lemma ShareExact(k: nat, n: nat)
    requires k <= n && n > 0
    ensures 0.0 <= Share(k, n) <= 1.0 && (Share(k, n) == 1.0 <==> k == n)
  {
    var r := Share(k, n);
    assert r * n as real == k as real;
    assert (r - 1.0) * n as real == k as real - n as real;
  }

  /** The share of moves in the direction of the first one, 0.5 when there is nothing to compare. */
  function Consistency(prices: seq<real>): real {
    if |prices| < 3 || Directions(prices)[0] == 0 then 0.5
    else Share(Count(Directions(prices), Directions(prices)[0]), |Directions(prices)|)
  }

  /** Always in [0, 1]; with a first move, it is 1 exactly when every move goes the same way. */
  lemma ConsistencyExact(prices: seq<real>)
    ensures 0.0 <= Consistency(prices) <= 1.0
    ensures |prices| >= 3 && Directions(prices)[0] != 0 ==>
              (Consistency(prices) == 1.0 <==>
                 forall i :: 0 <= i < |Directions(prices)| ==> Directions(prices)[i] == Directions(prices)[0])
  {
    if |prices| >= 3 {
      var all := Directions(prices);
      CountExact(all, all[0]);
      ShareExact(Count(all, all[0]), |all|);
    }
  }

  method ComputeConsistency(prices: seq<real>) returns (r: real)
    ensures r == Consistency(prices)
  {
    if |prices| < 3 { return 0.5; }
    var directions := [];
    var i := 1;
    assert Directions(prices[..1]) == [];
    while i < |prices|
      invariant 1 <= i <= |prices| && directions == Directions(prices[..i])
    {
      assert prices[..i + 1][..i] == prices[..i];
      var diff := prices[i] - prices[i - 1];
      if diff > 0.0 {
        directions := directions + [1];
      } else if diff < 0.0 {
        directions := directions + [-1];
      } else {
        directions := directions + [0];
      }
      i := i + 1;
    }
    assert prices[..i] == prices;
    if directions[0] == 0 { return 0.5; }
    var same, k := 0, 0;
    while k < |directions|
      invariant 0 <= k <= |directions| && same == Count(directions[..k], directions[0])
    {
      assert directions[..k + 1][..k] == directions[..k];
      if directions[k] == directions[0] { same := same + 1; }
      k := k + 1;
    }
    assert directions[..k] == directions;
    return same as real / |directions| as real;
  }
}
