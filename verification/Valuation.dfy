/** Layer 1: reservation and target prices from the budget ceiling, the margin floor and the risk appetite. */
module Valuation {
  import opened Wrappers
  import opened Offers
  import opened Money

  datatype Appetite = Low | Medium | High

  datatype Valuation = Valuation(reservation: real, target: real)

  /** RiskProfile and StrategyWeights, as far as the engine reads them. */
  datatype ProfileData = ProfileData(ceiling: real, marginFloor: real, appetite: Appetite, stallThreshold: nat)

  type Profile = p: ProfileData | 0.0 <= p.marginFloor <= 100.0 && p.stallThreshold >= 1
    witness ProfileData(1000000.0, 10.0, Medium, 10)

  function BuyerRisk(a: Appetite): real {
    match a case Low => 0.05 case Medium => 0.10 case High => 0.20
  }

  function BuyerMargin(a: Appetite): real {
    match a case Low => 0.03 case Medium => 0.05 case High => 0.10
  }

  function TargetMargin(a: Appetite): real {
    match a case Low => 0.15 case Medium => 0.20 case High => 0.30
  }

  function PositiveCents(x: real): real {
    if x <= 0.0 then 0.01 else x
  }

  function Markup(cost: real, factor: real): real {
    PositiveCents(RoundCent(cost * factor))
  }

  function ComputeValuation(intrinsic: real, risk: real, margin: real): Result<Valuation, Error> {
    if intrinsic <= 0.0 then Err(ValidationError)
    else if !(0.0 <= risk <= 1.0) then Err(ValidationError)
    else if !(0.0 <= margin <= 1.0) then Err(ValidationError)
    else Ok(Valuation(PositiveCents(RoundCent(intrinsic * (1.0 - risk))),
                      PositiveCents(RoundCent(intrinsic * (1.0 - margin)))))
  }

  function BuyerValuation(fairPrice: real, appetite: Appetite, ceiling: Option<real>): Result<Valuation, Error> {
    var v := ComputeValuation(fairPrice, BuyerRisk(appetite), BuyerMargin(appetite));
    if v.Err? then v
    else if ceiling.Some? && ceiling.value > 0.0 then
      Ok(v.value.(reservation := PositiveCents(Min(v.value.reservation, ceiling.value))))
    else v
  }

  function SellerValuation(cost: real, marginFloor: real, appetite: Appetite): Valuation {
    Valuation(Markup(cost, 1.0 + marginFloor / 100.0), Markup(cost, 1.0 + TargetMargin(appetite)))
  }

  /** The engine's layer 1: a buyer's fair price is 80% of its ceiling, a seller's cost basis 60% of its own. */
  function ValuationFor(p: Profile, role: Role): Result<Valuation, Error> {
    if role == Buyer then BuyerValuation(p.ceiling * 0.80, p.appetite, Some(p.ceiling))
    else Ok(SellerValuation(p.ceiling * 0.60, p.marginFloor, p.appetite))
  }

  lemma PositiveCentsAreCents(x: real)
    requires IsCents(x)
    ensures IsCents(PositiveCents(x)) && PositiveCents(x) >= 0.01
  {
    assert Cents(1) == 0.01;
    var n :| Cents(n) == x;
    assert x > 0.0 ==> n >= 1;
  }

  /**
   A buyer has a valuation exactly when its ceiling is positive. Both prices are positive; the
   reservation is within the ceiling and, against the naming, never above the target; from a
   ceiling of one rupee on it is strictly below it.
   */
  lemma BuyerThresholds(p: Profile)
    ensures ValuationFor(p, Buyer).Ok? <==> p.ceiling > 0.0
    ensures ValuationFor(p, Buyer).Ok? ==>
              var v := ValuationFor(p, Buyer).value;
              && 0.0 < v.reservation <= p.ceiling && v.reservation <= v.target
              && (p.ceiling >= 1.0 ==> v.reservation < v.target <= p.ceiling)
  {
    if p.ceiling > 0.0 {
      var intrinsic := p.ceiling * 0.80;
      var low, high := intrinsic * (1.0 - BuyerRisk(p.appetite)), intrinsic * (1.0 - BuyerMargin(p.appetite));
      RoundCentMonotone(low, high);
      RoundCentNear(low);
      RoundCentNear(high);
      RoundCentIsCents(high);
      PositiveCentsAreCents(RoundCent(high));
    }
  }

  /** Seller prices are positive whole cents; a margin floor within the target margin keeps them ordered. */
  lemma SellerThresholds(p: Profile)
    ensures ValuationFor(p, Seller).Ok?
    ensures var v := ValuationFor(p, Seller).value;
            && IsCents(v.reservation) && IsCents(v.target) && v.reservation >= 0.01 && v.target >= 0.01
            && (p.marginFloor / 100.0 <= TargetMargin(p.appetite) ==> v.reservation <= v.target)
  {
    var cost := p.ceiling * 0.60;
    var floor, goal := 1.0 + p.marginFloor / 100.0, 1.0 + TargetMargin(p.appetite);
    Marked(cost, floor);
    Marked(cost, goal);
    if floor <= goal {
      MarkedMonotone(cost, floor, goal);
    }
  }

  lemma Marked(cost: real, factor: real)
    ensures IsCents(Markup(cost, factor)) && Markup(cost, factor) >= 0.01
  {
    RoundCentIsCents(cost * factor);
    PositiveCentsAreCents(RoundCent(cost * factor));
  }

  lemma PositiveCentsMonotone(low: real, high: real)
    requires low <= high
    ensures PositiveCents(RoundCent(low)) <= PositiveCents(RoundCent(high))
  {
    RoundCentMonotone(low, high);
    RoundCentIsCents(high);
    PositiveCentsAreCents(RoundCent(high));
  }

  lemma MarkedMonotone(cost: real, floor: real, goal: real)
    requires 0.0 <= floor <= goal
    ensures Markup(cost, floor) <= Markup(cost, goal)
  {
    if cost >= 0.0 {
      Scaled(cost, floor, goal);
      PositiveCentsMonotone(cost * floor, cost * goal);
    } else {
      Opposite(cost, floor);
      Opposite(cost, goal);
      NotPositive(cost * floor);
      NotPositive(cost * goal);
    }
  }

  lemma Opposite(k: real, x: real)
    requires k <= 0.0 && x >= 0.0
    ensures k * x <= 0.0
  {
  }

  lemma NotPositive(x: real)
    requires x <= 0.0
    ensures PositiveCents(RoundCent(x)) == 0.01
  {
    assert Cents(0) == 0.0;
    RoundCentBounds(x, 0.0);
  }

  /** Once the margin floor asks for a cent more than the target margin yields, the two prices are reversed. */
  lemma SellerReversed(p: Profile)
    requires p.ceiling > 0.0
    requires p.ceiling * 0.60 * (p.marginFloor / 100.0 - TargetMargin(p.appetite)) >= 0.02
    ensures var v := ValuationFor(p, Seller).value; v.reservation > v.target
  {
    MarkedApart(p.ceiling * 0.60, p.marginFloor / 100.0, TargetMargin(p.appetite));
  }

  lemma MarkedApart(cost: real, floor: real, goal: real)
    requires cost > 0.0 && goal >= 0.0 && cost * (floor - goal) >= 0.02
    ensures Markup(cost, 1.0 + floor) > Markup(cost, 1.0 + goal)
  {
    var low, high := cost * (1.0 + goal), cost * (1.0 + floor);
    assert high - low == cost * (floor - goal);
    assert low == cost + cost * goal && cost * goal >= 0.0;
    RoundCentNear(low);
    RoundCentNear(high);
  }
}
