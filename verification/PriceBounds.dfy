/** What bounds the price of an agent's offer: the ceiling for a buyer, the reservation for a seller. */
module PriceBounds {
  import opened Wrappers
  import opened Money
  import opened Offers
  import opened Valuation
  import opened Policies
  import opened Session
  import opened Engine
  import opened AgentTurns
  import Guardrails
  import Strategy

  /** The engine works with the strategies of its own strategy engine. */
  ghost predicate Standard(x: Input) {
    x.strategist == Strategy.SelectStrategy
  }

  /** The turn goes through as a proposal of the model: no timeout, no breach, no error. */
  ghost predicate Proposal(s: State, buyer: Profile, seller: Profile, x: Input, offer: Offer) {
    && !x.expired && Proposing(x.reply)
    && var turn := TakeTurn(s, buyer, seller, x);
       turn.learned && turn.result.Completed? && turn.result.offer == offer
  }

  function Thresholds(s: State, buyer: Profile, seller: Profile): Valuation
    requires ValuationFor(Pick(NextProposer(s.offers), buyer, seller), NextProposer(s.offers)).Ok?
  {
    ValuationFor(Pick(NextProposer(s.offers), buyer, seller), NextProposer(s.offers)).value
  }

  lemma AdvisedProposal(s: State, p: Profile, v: Valuation, suggested: real, r: Reply)
    requires Proposing(r) && Advised(s, p, v, suggested, r).learned
    ensures var role := NextProposer(s.offers); var turn := Advised(s, p, v, suggested, r);
            && EnvelopeFor(role, r, suggested).Ok? && turn.result.Completed? && turn.result.offer.role == role
            && turn.result.offer.price == Clamped(p, role, if Overridden(p, role, v, suggested, r) then suggested
                                                           else PriceOr(r, suggested))
  {
  }

  /** The price of a proposal is the model's own, or the strategy's if the guardrail objects, cut to the ceiling. */
  lemma ProposalPrice(s: State, buyer: Profile, seller: Profile, x: Input, offer: Offer)
    requires Proposal(s, buyer, seller, x, offer)
    ensures var role := NextProposer(s.offers); var p := Pick(role, buyer, seller);
            && ValuationFor(p, role).Ok?
            && var v := Thresholds(s, buyer, seller);
               var suggested := Suggested(s, v, x);
               && EnvelopeFor(role, x.reply, suggested).Ok?
               && offer.role == role
               && offer.price == Clamped(p, role, if Overridden(p, role, v, suggested, x.reply) then suggested
                                                  else PriceOr(x.reply, suggested))
  {
    var role := NextProposer(s.offers);
    var p := Pick(role, buyer, seller);
    var v := ValuationFor(p, role);
    if v.Ok? && CheckTurnOrder(s.offers, role).None? {
      AdvisedProposal(s, p, v.value, Suggested(s, v.value, x), x.reply);
    }
  }

  /** No proposal of a buyer exceeds its budget ceiling, whatever the model, the strategy and the rounding do. */
  lemma BuyerWithinCeiling(s: State, buyer: Profile, seller: Profile, x: Input, offer: Offer)
    requires Proposal(s, buyer, seller, x, offer) && offer.role == Buyer
    ensures offer.price <= buyer.ceiling
  {
    ProposalPrice(s, buyer, seller, x, offer);
  }

  function Reservation(seller: Profile): real {
    ValuationFor(seller, Seller).value.reservation
  }

  /** The guardrail objects, and the strategy it falls back on undercuts the reservation. */
  ghost predicate FallsBackBelow(s: State, seller: Profile, x: Input) {
    var v := ValuationFor(seller, Seller).value;
    var advice := Strategy.SelectStrategy(ContextFor(s, v, x.flexibility, x.deadlineCurve));
    && Overridden(seller, Seller, v, advice.price, x.reply)
    && v.reservation > v.target
    && (advice.strategy == Strategy.Boulware || advice.strategy == Strategy.DeadlinePressure
        || (advice.strategy == Strategy.StrongAnchor && RoundCent(v.target * 1.10) < v.reservation))
  }

  /**
   A proposal of a seller falls below its reservation exactly when the guardrail overrides the
   model and the strategy it falls back on undercuts: the reservation is above the target, and the
   advice is a curve's, or an opening anchor short of the reservation.
   */
  lemma SellerBelowReservationExact(s: State, buyer: Profile, seller: Profile, x: Input, offer: Offer)
    requires Proposal(s, buyer, seller, x, offer) && offer.role == Seller && s.roundCount <= MAX_ROUNDS
    requires Standard(x)
    ensures NextProposer(s.offers) == Seller
    ensures offer.price < Reservation(seller) <==> FallsBackBelow(s, seller, x)
  {
    ProposalPrice(s, buyer, seller, x, offer);
    SellerThresholds(seller);
    Strategy.SellerUndercutExact(ContextFor(s, Thresholds(s, buyer, seller), x.flexibility, x.deadlineCurve));
  }

  /** A margin floor within the target margin of the risk appetite protects the seller on every proposal. */
  lemma SellerKeepsReservation(s: State, buyer: Profile, seller: Profile, x: Input, offer: Offer)
    requires Proposal(s, buyer, seller, x, offer) && offer.role == Seller && s.roundCount <= MAX_ROUNDS
    requires Standard(x) && seller.marginFloor / 100.0 <= TargetMargin(seller.appetite)
    ensures offer.price >= Reservation(seller)
  {
    SellerThresholds(seller);
    SellerBelowReservationExact(s, buyer, seller, x, offer);
  }

  /** In every sound state, whatever the buyer, the clock, the beliefs and the model do. */
  ghost predicate NeverBelowReservation(seller: Profile) {
    forall s: State, buyer: Profile, x: Input, offer: Offer ::
      Sound(s) && Standard(x) && Proposal(s, buyer, seller, x, offer) && offer.role == Seller
      ==> offer.price >= Reservation(seller)
  }

  /** The seller is protected on all proposals if and only if its reservation does not exceed its target. */
  lemma SellerProtectedIff(seller: Profile)
    ensures ValuationFor(seller, Seller).Ok?
    ensures var v := ValuationFor(seller, Seller).value;
            NeverBelowReservation(seller) <==> v.reservation <= v.target
  {
    if ValuationFor(seller, Seller).value.reservation <= ValuationFor(seller, Seller).value.target {
      forall s: State, buyer: Profile, x: Input, offer: Offer
        | Sound(s) && Standard(x) && Proposal(s, buyer, seller, x, offer) && offer.role == Seller
        ensures offer.price >= Reservation(seller)
      {
        SellerBelowReservationExact(s, buyer, seller, x, offer);
      }
    } else {
      var s, x, offer := ReversedExposes(seller);
    }
  }

  lemma ReversedExposes(seller: Profile) returns (s: State, x: Input, offer: Offer)
    requires ValuationFor(seller, Seller).value.reservation > ValuationFor(seller, Seller).value.target
    ensures Sound(s) && Standard(x) && Proposal(s, seller, seller, x, offer) && offer.role == Seller
    ensures offer.price < Reservation(seller)
  {
    SellerThresholds(seller);
    var v := ValuationFor(seller, Seller).value;
    s, x := FourthTurn(v), Hesitation(v);
    offer := HesitantProposal(seller);
    SellerBelowReservationExact(s, seller, seller, x, offer);
  }

  /** Three offers in, the buyer already bidding the seller's reservation. */
  function FourthTurn(v: Valuation): State
    requires v.reservation > 0.0
  {
    var bid, ask := Offer(0, 1, Buyer, v.reservation, None, "", false), Offer(0, 2, Seller, v.reservation, None, "", false);
    New(0).(status := ROUND_LOOP, roundCount := 3, offers := [bid, ask, bid])
  }

  function Hesitation(v: Valuation): Input {
    Input(false, 0.5, 0.0, Strategy.SelectStrategy, Reply(Some("COUNTER"), Some(v.reservation), Some(0.0), None))
  }

  /** A model without confidence is overridden, by the default curve. */
  lemma HesitantProposal(seller: Profile) returns (offer: Offer)
    requires var v := ValuationFor(seller, Seller).value;
             v.reservation >= 0.01 && v.reservation > v.target
    ensures var v := ValuationFor(seller, Seller).value;
            var advice := Strategy.SelectStrategy(ContextFor(FourthTurn(v), v, 0.5, 0.0));
            && Proposal(FourthTurn(v), seller, seller, Hesitation(v), offer) && offer.role == Seller
            && Overridden(seller, Seller, v, advice.price, Hesitation(v).reply) && advice.strategy == Strategy.Boulware
  {
    var v := ValuationFor(seller, Seller).value;
    var s, x := FourthTurn(v), Hesitation(v);
    assert LastPrice(s.offers, Buyer) == Some(v.reservation);
    var advice := Strategy.SelectStrategy(ContextFor(s, v, 0.5, 0.0));
    assert advice.strategy == Strategy.Boulware;
    assert advice.price >= 0.01;
    assert Guardrails.Hesitant(EnvelopeFor(Seller, x.reply, advice.price).value);
    assert Overridden(seller, Seller, v, advice.price, x.reply);
    offer := TakeTurn(s, seller, seller, x).result.offer;
  }

  /**
   A permitted profile with a 50% margin floor: the first answer of a hesitant model goes out at
   792000, against a reservation of 900000.
   */
  lemma GreedyFloorIsUndercut(id: nat, bid: Price)
    ensures var seller := ProfileData(1000000.0, 50.0, Medium, 10);
            var opening := Offer(id, 1, Buyer, bid, None, "", false);
            var s := New(id).(status := SELLER_RESPONSE, roundCount := 1, offers := [opening]);
            var x := Input(false, 0.5, 0.0, Strategy.SelectStrategy, Reply(Some("COUNTER"), Some(950000.0), Some(0.05), None));
            var turn := TakeTurn(s, seller, seller, x);
            && ValuationFor(seller, Seller).value == Valuation(900000.0, 720000.0)
            && turn.result.Completed? && turn.result.offer.price == 792000.0
  {
    var seller: Profile := ProfileData(1000000.0, 50.0, Medium, 10);
    var opening := Offer(id, 1, Buyer, bid, None, "", false);
    var s := New(id).(status := SELLER_RESPONSE, roundCount := 1, offers := [opening]);
    var x := Input(false, 0.5, 0.0, Strategy.SelectStrategy, Reply(Some("COUNTER"), Some(950000.0), Some(0.05), None));
    RoundCentExact(900000.0, 900000.0);
    RoundCentExact(720000.0, 720000.0);
    RoundCentExact(792000.0, 792000.0);
    assert Cents(90000000) == 900000.0 && Cents(72000000) == 720000.0 && Cents(79200000) == 792000.0;
    var v := Valuation(900000.0, 720000.0);
    assert ValuationFor(seller, Seller).value == v;
    assert LastPrice(s.offers, Seller) == None by { assert s.offers[..0] == []; }
    var c := ContextFor(s, v, 0.5, 0.0);
    assert Strategy.Select(c) == Strategy.StrongAnchor;
    assert Suggested(s, v, x) == 792000.0;
    assert ViolationsOf(seller, Seller, v, EnvelopeFor(Seller, x.reply, 792000.0).value) == [Guardrails.ConfidenceTooLow];
  }

  /** From a ceiling of one rupee on, what the guardrail falls back to never needs the budget guard. */
  lemma FallbackWithinCeiling(s: State, buyer: Profile, x: Input)
    requires NextProposer(s.offers) == Buyer && buyer.ceiling >= 1.0 && s.roundCount <= MAX_ROUNDS && Standard(x)
    ensures ValuationFor(buyer, Buyer).Ok?
    ensures Suggested(s, ValuationFor(buyer, Buyer).value, x) <= buyer.ceiling
  {
    BuyerThresholds(buyer);
    BuyerSpread(buyer);
    Strategy.BuyerAdviceRange(ContextFor(s, ValuationFor(buyer, Buyer).value, x.flexibility, x.deadlineCurve));
  }

  lemma BuyerSpread(p: Profile)
    requires p.ceiling >= 1.0
    ensures ValuationFor(p, Buyer).Ok?
    ensures var v := ValuationFor(p, Buyer).value;
            && IsCents(v.reservation) && IsCents(v.target) && v.reservation >= 0.01 && v.target >= 0.01
            && 2.0 * v.target - v.reservation <= p.ceiling
  {
    var intrinsic := p.ceiling * 0.80;
    var low, high := intrinsic * (1.0 - BuyerRisk(p.appetite)), intrinsic * (1.0 - BuyerMargin(p.appetite));
    RoundCentNear(low);
    RoundCentNear(high);
    RoundCentIsCents(low);
    RoundCentIsCents(high);
    PositiveCentsAreCents(RoundCent(low));
    PositiveCentsAreCents(RoundCent(high));
  }

  /** An action the engine does not know goes out at the model's price, or the suggested one, whatever the bounds. */
  lemma UnknownActionUnbounded(s: State, buyer: Profile, seller: Profile, x: Input)
    requires !x.expired && x.reply.Reply? && ActionOf(x.reply) !in {"OFFER", "COUNTER", "ACCEPT", "REJECT"}
    requires ValuationFor(Pick(NextProposer(s.offers), buyer, seller), NextProposer(s.offers)).Ok?
    ensures var turn := TakeTurn(s, buyer, seller, x); var v := Thresholds(s, buyer, seller);
            var named := PriceOr(x.reply, Suggested(s, v, x));
            && (turn.result.Completed? <==> named > 0.0 && 0.0 <= ConfidenceOf(x.reply) <= 1.0)
            && (turn.result.Completed? ==> turn.result.offer.price == named)
  {
    UnguardedExact(s, buyer, seller, x);
  }

  /** An acceptance is at the counterparty's own last price, when it has one; it ends the negotiation. */
  lemma AcceptanceAtTheirPrice(s: State, buyer: Profile, seller: Profile, x: Input)
    requires !x.expired && x.reply.Reply? && ActionOf(x.reply) == "ACCEPT"
    requires TakeTurn(s, buyer, seller, x).result.Completed?
    ensures var result := TakeTurn(s, buyer, seller, x).result;
            var theirs := LastPrice(s.offers, Other(NextProposer(s.offers)));
            result.terminal && (theirs.Some? ==> result.offer.price == theirs.value)
  {
  }

  /** A breach is declared on the third overridden proposal, and in no other case. */
  lemma BreachExact(s: State, buyer: Profile, seller: Profile, x: Input)
    requires !x.expired
    ensures var turn := TakeTurn(s, buyer, seller, x);
            var role := NextProposer(s.offers); var p := Pick(role, buyer, seller);
            turn.result.Completed? && !turn.learned <==>
              && ValuationFor(p, role).Ok?
              && Overridden(p, role, ValuationFor(p, role).value, Suggested(s, ValuationFor(p, role).value, x), x.reply)
              && s.schemaFailures + 1 >= MAX_SCHEMA_FAILURES
  {
    TurnOrderExact(s.offers, NextProposer(s.offers));
  }

  // ----- What that means for agreements ----------------------------------------------------------------

  /** An agreement by convergence is within 2% of the buyer's last price, on whichever side's turn it comes about. */
  lemma ConvergedAgreement(s: State, x: TurnInput, offer: Offer)
    requires IsActive(s.status) && Sound(s) && !x.expired && Proposal(s, x.buyer, x.seller, x.engine, offer)
    requires AgentTurn(s, x).result == Ok(offer) && AgentTurn(s, x).session.status == AGREED
    requires ConvergedWith(s, offer.role, offer.price)
    ensures AgentTurn(s, x).session.agreedPrice == Some(offer.price)
    ensures offer.role == Buyer ==> offer.price <= x.buyer.ceiling
    ensures offer.role == Seller ==>
              var bid := LastPrice(s.offers, Buyer);
              bid.Some? && Abs(offer.price - bid.value) < CONVERGENCE_TOLERANCE * bid.value
  {
    TurnExact(s, x);
    if offer.role == Buyer {
      BuyerWithinCeiling(s, x.buyer, x.seller, x.engine, offer);
    } else {
      ConvergedNear(s, offer.price);
    }
  }

  lemma ConvergedNear(s: State, price: real)
    requires ConvergedWith(s, Seller, price)
    ensures var bid := LastPrice(s.offers, Buyer);
            bid.Some? && Abs(price - bid.value) < CONVERGENCE_TOLERANCE * bid.value
  {
    ConvergedExact(LastPrice(s.offers, Buyer).value, price);
  }
}
