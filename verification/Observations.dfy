/**
 What the opponent model computes from a list of prices and from one observation, in closed form:
 the moving average as a weighted sum, the shares behind consistency, the bell curves of each type.
 */
module Observations {
  import opened Money
  import opened OpponentModel

  // ----- The moving average ---------------------------------------------------------------------------

  function Decay(n: nat): real {
    if n == 0 then 1.0 else 0.6 * Decay(n - 1)
  }

  /** The weight of the i-th of n values: 40% of what the later ones leave; the first takes what remains. */
  function Weight(n: nat, i: nat): real
    requires i < n
  {
    if i == 0 then Decay(n - 1) else 0.4 * Decay(n - 1 - i)
  }

  function Weighted(values: seq<real>): seq<real> {
    seq(|values|, i requires 0 <= i < |values| => Weight(|values|, i) * values[i])
  }

  lemma {:induction false} EmaIsWeightedSum(values: seq<real>)
    requires values != []
    ensures Ema(values) == Sum(Weighted(values))
  {
    var n := |values| - 1;
    if n == 0 {
      WeightedAlone(values);
    } else {
      EmaIsWeightedSum(values[..n]);
      WeightedLast(values);
    }
  }

  lemma WeightedAlone(values: seq<real>)
    requires |values| == 1
    ensures Sum(Weighted(values)) == values[0]
  {
    var all := Weighted(values);
    assert all[..0] == [] && Weight(1, 0) == 1.0 && all[0] == values[0];
  }

  /** One more value takes 40% of the weight and leaves 60% to the ones before. */
  lemma WeightedLast(values: seq<real>)
    requires |values| > 1
    ensures Sum(Weighted(values)) == 0.4 * values[|values| - 1] + 0.6 * Sum(Weighted(values[..|values| - 1]))
  {
    var n := |values| - 1;
    var all, front := Weighted(values), values[..n];
    forall i | 0 <= i < n ensures all[..n][i] == Weighted(front)[i] * 0.6 {
      Discounted(n, i, values[i]);
    }
    SumOfMultiples(Weighted(front), all[..n], 0.6);
    assert Weight(n + 1, n) == 0.4 * Decay(0) == 0.4;
    assert all[n] == 0.4 * values[n];
  }

  lemma Discounted(n: nat, i: nat, x: real)
    requires i < n
    ensures Weight(n + 1, i) * x == Weight(n, i) * x * 0.6
  {
    assert Weight(n + 1, i) == 0.6 * Weight(n, i);
  }

  lemma {:induction false} SumOfMultiples(v: seq<real>, w: seq<real>, k: real)
    requires |v| == |w| && forall i :: 0 <= i < |v| ==> w[i] == v[i] * k
    ensures Sum(w) == Sum(v) * k
  {
    if v != [] {
      SumOfMultiples(v[..|v| - 1], w[..|w| - 1], k);
    }
  }

  // ----- The moves between prices -----------------------------------------------------------------------

  /** One change for every two neighbours, relative to the earlier one. */
  lemma {:induction false} RelativeChangesExact(prices: seq<real>, i: nat)
    requires i + 1 < |prices| && forall j :: 0 <= j < |prices| ==> prices[j] > 0.0
    ensures |RelativeChanges(prices)| == |prices| - 1
    ensures RelativeChange(prices[i], prices[i + 1], RelativeChanges(prices)[i])
  {
    var n := |prices|;
    var front := prices[..n - 1];
    LastChange(prices);
    if n > 2 {
      RelativeChangesExact(front, if i + 2 < n then i else 0);
    } else {
      assert RelativeChanges(front) == [];
    }
  }

  ghost predicate RelativeChange(before: real, after: real, change: real) {
    change * before == if after < before then before - after else after - before
  }

  lemma LastChange(prices: seq<real>)
    requires |prices| >= 2 && prices[|prices| - 2] > 0.0
    ensures var changes, front := RelativeChanges(prices), RelativeChanges(prices[..|prices| - 1]);
            && changes != [] && changes[..|changes| - 1] == front
            && RelativeChange(prices[|prices| - 2], prices[|prices| - 1], changes[|changes| - 1])
  {
    var before, after := prices[|prices| - 2], prices[|prices| - 1];
    Quotient(Abs(after - before), before);
  }

  lemma Quotient(x: real, y: real)
    requires y > 0.0
    ensures (x / y) * y == x
  {
  }

  predicate SameWay(prices: seq<real>, i: nat)
    requires i + 1 < |prices| && |prices| >= 2
  {
    if prices[1] > prices[0] then prices[i + 1] > prices[i]
    else if prices[1] < prices[0] then prices[i + 1] < prices[i]
    else prices[i + 1] == prices[i]
  }

  lemma {:induction false} DirectionsExact(prices: seq<real>, i: nat)
    requires i + 1 < |prices|
    ensures Directions(prices)[i] == if prices[i + 1] > prices[i] then 1 else if prices[i + 1] < prices[i] then -1 else 0
  {
    if i + 2 < |prices| {
      DirectionsExact(prices[..|prices| - 1], i);
    }
  }

  lemma {:induction false} CountIsSize(s: seq<int>, d: int)
    ensures Count(s, d) == |set i: nat | i < |s| && s[i] == d|
  {
    var all := set i: nat | i < |s| && s[i] == d;
    if s == [] {
      assert all == {};
    } else {
      var n := |s| - 1;
      var front := set i: nat | i < n && s[..n][i] == d;
      CountIsSize(s[..n], d);
      if s[n] == d {
        assert all == front + {n};
      } else {
        assert all == front;
      }
    }
  }

  ghost function SameWays(prices: seq<real>): set<nat> {
    set i: nat | i + 1 < |prices| && SameWay(prices, i)
  }

  lemma SameWaysCounted(prices: seq<real>)
    requires |prices| >= 2
    ensures Count(Directions(prices), Directions(prices)[0]) == |SameWays(prices)|
  {
    var all := Directions(prices);
    forall i: nat | i + 1 < |prices|
      ensures all[i] == if prices[i + 1] > prices[i] then 1 else if prices[i + 1] < prices[i] then -1 else 0
    {
      DirectionsExact(prices, i);
    }
    CountIsSize(all, all[0]);
    assert (set i: nat | i < |all| && all[i] == all[0]) == SameWays(prices);
  }

  /** Consistency is the share of moves that go the way of the first one, which has to be a move at all. */
  lemma ConsistencyIsShare(prices: seq<real>)
    ensures if |prices| < 3 || prices[1] == prices[0] then Consistency(prices) == 0.5
            else Consistency(prices) == |SameWays(prices)| as real / (|prices| - 1) as real
  {
    if |prices| >= 3 {
      SameWaysCounted(prices);
      DirectionsExact(prices, 0);
    }
  }

  // ----- The likelihood of one observation ----------------------------------------------------------------

  /** `y` is the height at x of the normal distribution with this mean and deviation. */
  ghost predicate Bell(exp: real -> PositiveReal, rootTwoPi: PositiveReal, x: real, mean: real, deviation: real, y: real) {
    exists e :: 2.0 * deviation * deviation * e == -(x - mean) * (x - mean) && y * (deviation * rootTwoPi) == exp(e)
  }

  lemma DensityIsBell(exp: real -> PositiveReal, rootTwoPi: PositiveReal, x: real, g: Gauss)
    requires g.std > 0.0
    ensures Bell(exp, rootTwoPi, x, g.mean, g.std, Density(exp, rootTwoPi, x, g))
  {
    var z := (x - g.mean) / g.std;
    Exponent(x - g.mean, g.std, z);
    var k := g.std * rootTwoPi;
    assert k > 0.0;
    Cancelled(k, exp(-0.5 * (z * z)));
  }

  lemma Exponent(d: real, deviation: real, z: real)
    requires deviation > 0.0 && z == d / deviation
    ensures 2.0 * deviation * deviation * (-0.5 * (z * z)) == -d * d
  {
    assert z * deviation == d;
    assert 2.0 * deviation * deviation * (-0.5 * (z * z)) == -(z * deviation) * (z * deviation);
  }

  lemma Cancelled(k: real, y: real)
    requires k > 0.0
    ensures ((1.0 / k) * y) * k == y
  {
    assert ((1.0 / k) * y) * k == ((1.0 / k) * k) * y;
  }

  /** `y` is the product of three bells: over flexibility, response time and consistency. */
  ghost predicate ThreeBells(exp: real -> PositiveReal, rootTwoPi: PositiveReal, m: Metrics, y: real,
                             flexible: (real, real), slow: (real, real), steady: (real, real))
  {
    exists a, b, c ::
      && Bell(exp, rootTwoPi, m.flexibility, flexible.0, flexible.1, a)
      && Bell(exp, rootTwoPi, m.responseTime, slow.0, slow.1, b)
      && Bell(exp, rootTwoPi, m.consistency, steady.0, steady.1, c)
      && y == a * b * c
  }

  /** Mean and deviation of every feature for a cooperative, strategic, stubborn and bluffing opponent. */
  lemma LikelihoodExact(exp: real -> PositiveReal, rootTwoPi: PositiveReal, m: Metrics)
    ensures var l := Likelihood(exp, rootTwoPi, m);
            && ThreeBells(exp, rootTwoPi, m, l[0], (0.8, 0.15), (2.0, 2.0), (0.8, 0.15))
            && ThreeBells(exp, rootTwoPi, m, l[1], (0.45, 0.15), (5.0, 3.0), (0.6, 0.20))
            && ThreeBells(exp, rootTwoPi, m, l[2], (0.1, 0.10), (10.0, 5.0), (0.7, 0.15))
            && ThreeBells(exp, rootTwoPi, m, l[3], (0.5, 0.25), (6.0, 4.0), (0.2, 0.20))
  {
    LikelihoodOfType(exp, rootTwoPi, m, 0);
    LikelihoodOfType(exp, rootTwoPi, m, 1);
    LikelihoodOfType(exp, rootTwoPi, m, 2);
    LikelihoodOfType(exp, rootTwoPi, m, 3);
  }

  lemma LikelihoodOfType(exp: real -> PositiveReal, rootTwoPi: PositiveReal, m: Metrics, t: nat)
    requires t < TYPES
    ensures var (f, r, c) := (FlexibilityGauss(t), ResponseTimeGauss(t), ConsistencyGauss(t));
            ThreeBells(exp, rootTwoPi, m, LikelihoodOf(exp, rootTwoPi, m, t), (f.mean, f.std), (r.mean, r.std), (c.mean, c.std))
  {
    ProductOfBells(exp, rootTwoPi, m, FlexibilityGauss(t), ResponseTimeGauss(t), ConsistencyGauss(t));
  }

  lemma ProductOfBells(exp: real -> PositiveReal, rootTwoPi: PositiveReal, m: Metrics, f: Gauss, r: Gauss, c: Gauss)
    requires f.std > 0.0 && r.std > 0.0 && c.std > 0.0
    ensures ThreeBells(exp, rootTwoPi, m,
                       Density(exp, rootTwoPi, m.flexibility, f) * Density(exp, rootTwoPi, m.responseTime, r)
                       * Density(exp, rootTwoPi, m.consistency, c),
                       (f.mean, f.std), (r.mean, r.std), (c.mean, c.std))
  {
    DensityIsBell(exp, rootTwoPi, m.flexibility, f);
    DensityIsBell(exp, rootTwoPi, m.responseTime, r);
    DensityIsBell(exp, rootTwoPi, m.consistency, c);
  }

  ghost predicate TotalIs(v: Vec, total: real) {
    total == v[0] + v[1] + v[2] + v[3]
  }

  ghost predicate TermsOf(prior: Vec, likelihood: Vec, terms: Vec) {
    && terms[0] == prior[0] * likelihood[0] && terms[1] == prior[1] * likelihood[1]
    && terms[2] == prior[2] * likelihood[2] && terms[3] == prior[3] * likelihood[3]
  }

  /** Bayes' rule, type by type: the posterior times the total is the prior times the likelihood. */
  lemma UpdatedExact(prior: Vec, likelihood: Vec, terms: Vec, total: real, i: nat)
    requires i < TYPES && TotalIs(terms, total) && TermsOf(prior, likelihood, terms)
    ensures if total == 0.0 then Updated(prior, likelihood) == prior else Updated(prior, likelihood)[i] * total == terms[i]
  {
    TermsAreTimes(prior, likelihood, terms);
    SumOf(terms);
    if total != 0.0 {
      NormalisedAt(terms, i);
    }
  }

  lemma TermsAreTimes(prior: Vec, likelihood: Vec, terms: Vec)
    requires TermsOf(prior, likelihood, terms)
    ensures Times(prior, likelihood) == terms
  {
    var all := Times(prior, likelihood);
    assert all[0] == terms[0] && all[1] == terms[1] && all[2] == terms[2] && all[3] == terms[3];
    assert all == terms;
  }

  lemma NormalisedAt(terms: Vec, i: nat)
    requires i < TYPES && Sum(terms) != 0.0
    ensures Normalise(terms)[i] * Sum(terms) == terms[i]
  {
    CancelTotal(terms[i], Sum(terms));
  }

  /** Nobody is expected to be of any type beforehand: after the first observation the belief is its likelihood, in proportion. */
  lemma FirstObservation(likelihood: Vec)
    requires Sum(likelihood) > 0.0
    ensures Updated(PRIOR, likelihood) == Normalise(likelihood)
  {
    AQuarterEach(likelihood);
    NormaliseScaled(likelihood, 0.25);
  }

  lemma AQuarterEach(likelihood: Vec)
    ensures Times(PRIOR, likelihood) == Scale(likelihood, 0.25)
  {
    var quarter := Scale(likelihood, 0.25);
    assert PRIOR[0] == 0.25 && PRIOR[1] == 0.25 && PRIOR[2] == 0.25 && PRIOR[3] == 0.25;
    TermsAreTimes(PRIOR, likelihood, quarter);
  }

  lemma CancelTotal(x: real, total: real)
    requires total != 0.0
    ensures (x * (1.0 / total)) * total == x
  {
    assert (x * (1.0 / total)) * total == x * ((1.0 / total) * total);
  }
}
