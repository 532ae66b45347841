/** Layer 4: the veto over what the model proposes. */
module Guardrails {
  import opened Wrappers
  import opened Offers

  datatype Action = OfferAction | CounterAction | AcceptAction | RejectAction

  /** agent_role and action are already of the right kind; the numeric ranges are checked on creation. */
  datatype Envelope = Envelope(role: Role, action: Action, offerValue: real, confidence: real)

  function CreateEnvelope(role: Role, action: Action, offerValue: real, confidence: real): Result<Envelope, Error> {
    if offerValue < 0.0 || !(0.0 <= confidence <= 1.0) then Err(ValidationError)
    else Ok(Envelope(role, action, offerValue, confidence))
  }

  datatype Violation = BudgetExceeded | BelowReservation | MarginViolation | ConfidenceTooLow

  const MIN_CONFIDENCE := 0.10

  predicate Proposes(action: Action) {
    action == OfferAction || action == CounterAction
  }

  // ----- The rules, one by one -------------------------------------------------------------------

  /** A ceiling of zero reads as no ceiling. */
  predicate OverBudget(e: Envelope, ceiling: Option<real>) {
    && Proposes(e.action) && e.role == Buyer
    && ceiling.Some? && ceiling.value != 0.0 && e.offerValue > ceiling.value
  }

  predicate UnderReservation(e: Envelope, reservation: real) {
    Proposes(e.action) && e.role == Seller && e.offerValue < reservation
  }

  predicate UnderMargin(e: Envelope, cost: Option<real>, marginFloor: Option<real>) {
    && e.role == Seller && Proposes(e.action)
    && cost.Some? && cost.value > 0.0 && marginFloor.Some?
    && Margin(e.offerValue, cost.value) < marginFloor.value
  }

  /** In percent. */
  function Margin(price: real, cost: real): real
    requires cost > 0.0
  {
    (price - cost) / cost * 100.0
  }

  /** In rupees: a price per hundred short of the cost plus its margin. */
  lemma UnderMarginExact(e: Envelope, cost: real, marginFloor: real)
    ensures UnderMargin(e, Some(cost), Some(marginFloor)) <==>
              e.role == Seller && Proposes(e.action) && cost > 0.0 && 100.0 * e.offerValue < cost * (100.0 + marginFloor)
  {
    if cost > 0.0 {
      MarginInRupees(e.offerValue, cost, marginFloor);
    }
  }

  lemma MarginInRupees(price: real, cost: real, floor: real)
    requires cost > 0.0
    ensures Margin(price, cost) < floor <==> 100.0 * price < cost * (100.0 + floor)
  {
    var m := Margin(price, cost);
    assert m * cost == (price - cost) / cost * cost * 100.0 == 100.0 * (price - cost);
    var d := floor - m;
    assert cost * (100.0 + floor) - 100.0 * price == d * cost;
    if d > 0.0 { assert d * cost > 0.0; } else { assert -d * cost >= 0.0; }
  }

  predicate Hesitant(e: Envelope) {
    e.confidence < MIN_CONFIDENCE && e.action != RejectAction
  }

  function Only(c: bool, v: Violation): seq<Violation> {
    if c then [v] else []
  }

  function Violations(e: Envelope, reservation: real, ceiling: Option<real>, cost: Option<real>, marginFloor: Option<real>)
    : seq<Violation>
  {
    Only(OverBudget(e, ceiling), BudgetExceeded) + Only(UnderReservation(e, reservation), BelowReservation)
    + Only(UnderMargin(e, cost, marginFloor), MarginViolation) + Only(Hesitant(e), ConfidenceTooLow)
  }

  /** One entry per broken rule and none else. */
  lemma ViolationsExact(e: Envelope, reservation: real, ceiling: Option<real>, cost: Option<real>, marginFloor: Option<real>)
    ensures var vs := Violations(e, reservation, ceiling, cost, marginFloor);
            && (BudgetExceeded in vs <==> OverBudget(e, ceiling))
            && (BelowReservation in vs <==> UnderReservation(e, reservation))
            && (MarginViolation in vs <==> UnderMargin(e, cost, marginFloor))
            && (ConfidenceTooLow in vs <==> Hesitant(e))
            && (forall i, j :: 0 <= i < j < |vs| ==> vs[i] != vs[j])
  {
    FourFlags(OverBudget(e, ceiling), UnderReservation(e, reservation), UnderMargin(e, cost, marginFloor), Hesitant(e));
  }

  lemma FourFlags(b: bool, r: bool, m: bool, h: bool)
    ensures var vs := Only(b, BudgetExceeded) + Only(r, BelowReservation) + Only(m, MarginViolation) + Only(h, ConfidenceTooLow);
            && (BudgetExceeded in vs <==> b) && (BelowReservation in vs <==> r)
            && (MarginViolation in vs <==> m) && (ConfidenceTooLow in vs <==> h)
            && (forall i, j :: 0 <= i < j < |vs| ==> vs[i] != vs[j])
  {
  }

  /** Built up in the order of the checks. */
  method ValidateEnvelope(e: Envelope, reservation: real, ceiling: Option<real>, cost: Option<real>, marginFloor: Option<real>)
    returns (violations: seq<Violation>)
    ensures violations == Violations(e, reservation, ceiling, cost, marginFloor)
    ensures BudgetExceeded in violations <==> OverBudget(e, ceiling)
    ensures BelowReservation in violations <==> UnderReservation(e, reservation)
    ensures MarginViolation in violations <==> UnderMargin(e, cost, marginFloor)
    ensures ConfidenceTooLow in violations <==> Hesitant(e)
  {
    ViolationsExact(e, reservation, ceiling, cost, marginFloor);
    violations := [];
    if Proposes(e.action) {
      if e.role == Buyer {
        if ceiling.Some? && ceiling.value != 0.0 && e.offerValue > ceiling.value {
          violations := violations + [BudgetExceeded];
        }
      } else if e.offerValue < reservation {
        violations := violations + [BelowReservation];
      }
    }
    if e.role == Seller && cost.Some? && cost.value > 0.0 && marginFloor.Some? && Proposes(e.action) {
      if Margin(e.offerValue, cost.value) < marginFloor.value {
        violations := violations + [MarginViolation];
      }
    }
    if e.confidence < MIN_CONFIDENCE && e.action != RejectAction {
      violations := violations + [ConfidenceTooLow];
    }
  }

  /** The veto: a lack of confidence alone is not critical. */
  method Enforce(e: Envelope, reservation: real, ceiling: Option<real>, cost: Option<real>, marginFloor: Option<real>)
    returns (error: Option<Error>)
    ensures error == Some(PolicyViolation) <==>
              OverBudget(e, ceiling) || UnderReservation(e, reservation) || UnderMargin(e, cost, marginFloor)
    ensures error == None || error == Some(PolicyViolation)
  {
    var violations := ValidateEnvelope(e, reservation, ceiling, cost, marginFloor);
    if BelowReservation in violations || BudgetExceeded in violations || MarginViolation in violations {
      return Some(PolicyViolation);
    }
    return None;
  }

  /** What passing the guardrail as the engine calls it guarantees (it never hands over a cost basis). */
  lemma PassedExact(role: Role, action: Action, value: real, confidence: real, reservation: real, limit: real)
    requires Proposes(action) && limit > 0.0
    ensures Violations(Envelope(role, action, value, confidence), reservation,
                       if role == Buyer then Some(limit) else None, None,
                       if role == Seller then Some(limit) else None) == []
            <==> confidence >= MIN_CONFIDENCE && (if role == Buyer then value <= limit else value >= reservation)
  {
  }
}
