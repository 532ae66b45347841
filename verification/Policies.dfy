/** NegotiationPolicy: the stateless guards, with the exact values of their float literals. */
module Policies {
  import opened Wrappers
  import opened Offers
  import opened Money

  /**
   Which gaps convert to a double of at most 0.02: those below the middle between the double 0.02
   and the next one up. The middle itself rounds up, because the last bit of the double 0.02 is odd.
   */
  const CONVERGENCE_TOLERANCE := 11529215046068471.0 / 576460752303423488.0

  /** float(|seller - buyer| / buyer) <= 0.02, when there is something to compare. */
  predicate CheckConvergence(buyer: Option<real>, seller: Option<real>) {
    && buyer.Some? && seller.Some? && buyer.value > 0.0
    && Abs(seller.value - buyer.value) / buyer.value < CONVERGENCE_TOLERANCE
  }

  /** The double nearest to 0.02 is 0x147AE147AE147B / 2^58; the middle above it is half a unit further. */
  lemma ToleranceExact()
    ensures CONVERGENCE_TOLERANCE == (0x147A_E147_AE14_7B as real + 0.5) / 288230376151711744.0
    ensures 0.02 < CONVERGENCE_TOLERANCE < 0.02 + 0.00000000000000001
  {
  }

  predicate CheckStall(round: nat, threshold: nat) {
    round >= threshold
  }

  function CheckBudget(price: real, ceiling: real): Option<Error> {
    if price > ceiling then Some(PolicyViolation) else None
  }

  function CheckTurnOrder(offers: seq<Offer>, role: Role): Option<Error> {
    if offers == [] then (if role != Buyer then Some(PolicyViolation) else None)
    else if offers[|offers| - 1].role == role then Some(PolicyViolation)
    else None
  }

  /** The side to move is the only one the turn order admits. */
  lemma TurnOrderExact(offers: seq<Offer>, role: Role)
    ensures CheckTurnOrder(offers, role) == None <==> role == NextProposer(offers)
  {
  }

  /** Converged means the seller's price lies within the tolerance of the buyer's, on either side: 2% always, a hair more never. */
  lemma ConvergedExact(buyer: real, seller: real)
    requires buyer > 0.0
    ensures CheckConvergence(Some(buyer), Some(seller)) <==> Abs(seller - buyer) < CONVERGENCE_TOLERANCE * buyer
    ensures 0.98 * buyer <= seller <= 1.02 * buyer ==> CheckConvergence(Some(buyer), Some(seller))
    ensures Abs(seller - buyer) >= 0.02000000000000001 * buyer ==> !CheckConvergence(Some(buyer), Some(seller))
  {
    Quotient(Abs(seller - buyer), buyer, CONVERGENCE_TOLERANCE);
    ToleranceExact();
    assert (CONVERGENCE_TOLERANCE - 0.02) * buyer > 0.0;
    assert (0.02000000000000001 - CONVERGENCE_TOLERANCE) * buyer > 0.0;
  }

  lemma Quotient(x: real, y: real, q: real)
    requires y > 0.0
    ensures x / y <= q <==> x <= q * y
    ensures x / y < q <==> x < q * y
  {
    var d := x / y;
    assert d * y == x;
    assert (d - q) * y == x - q * y;
    if d > q { assert (d - q) * y > 0.0; }
    if d < q { assert (q - d) * y > 0.0; }
  }

  /** 0.002 as a double: a change of exactly 0.2% lies below it. */
  const CONCESSION_THRESHOLD := 1152921504606847.0 / 576460752303423488.0

  predicate NoConcession(last: real, price: real)
    requires last > 0.0
  {
    Abs(price - last) / last < CONCESSION_THRESHOLD
  }

  /** Exactly 0.2% still counts as no concession. */
  lemma NoConcessionWithin(last: real, price: real)
    requires last > 0.0
    ensures Abs(price - last) <= 0.002 * last ==> NoConcession(last, price)
    ensures Abs(price - last) >= 0.0020000000000001 * last ==> !NoConcession(last, price)
  {
    Quotient(Abs(price - last), last, CONCESSION_THRESHOLD);
    assert 0.002 < CONCESSION_THRESHOLD < 0.0020000000000001;
    assert (CONCESSION_THRESHOLD - 0.002) * last > 0.0;
    assert (0.0020000000000001 - CONCESSION_THRESHOLD) * last > 0.0;
  }
}
