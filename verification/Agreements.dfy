/**
 At which price a negotiation ends in agreement, and when that price lies within the buyer's
 ceiling and at or above the seller's reservation.
 */
module Agreements {
  import opened Wrappers
  import opened Money
  import opened Offers
  import opened Valuation
  import opened Policies
  import opened Session
  import opened Engine
  import opened AgentTurns
  import opened PriceBounds
  import Strategy

  // ----- The agreed price, from what came in ---------------------------------------------------------

  /** A proposal's price: the model's, or the strategy's if the guardrail objects, cut to the ceiling. */
  function ProposedPrice(s: State, buyer: Profile, seller: Profile, x: Input): real
    requires Proposing(x.reply)
  {
    var role := NextProposer(s.offers);
    var p := Pick(role, buyer, seller);
    var v := ValuationFor(p, role);
    if v.Err? then 0.0
    else
      var suggested := Suggested(s, v.value, x);
      Clamped(p, role, if Overridden(p, role, v.value, suggested, x.reply) then suggested else PriceOr(x.reply, suggested))
  }

  function TurnPrice(s: State, x: TurnInput): real
    requires x.engine.reply.Reply?
  {
    if Proposing(x.engine.reply) then ProposedPrice(s, x.buyer, x.seller, x.engine)
    else UnguardedPrice(s, x.buyer, x.seller, x.engine)
  }

  lemma LearnedPrice(s: State, x: TurnInput)
    requires !x.engine.expired && EngineTurn(s, x).learned
    ensures x.engine.reply.Reply? && EngineTurn(s, x).result.Completed?
    ensures EngineTurn(s, x).result.offer.role == NextProposer(s.offers)
    ensures EngineTurn(s, x).result.offer.price == TurnPrice(s, x)
  {
    TurnIsRegular(s, x.buyer, x.seller, x.engine);
    if Proposing(x.engine.reply) {
      ProposalPrice(s, x.buyer, x.seller, x.engine, EngineTurn(s, x).result.offer);
    } else {
      UnguardedExact(s, x.buyer, x.seller, x.engine);
    }
  }

  ghost predicate Agrees(s: State, x: TurnInput) {
    IsActive(s.status) && Sound(s) && AgentTurn(s, x).session.status == AGREED
  }

  /** Only a turn that reached its end agrees, and at its own price. */
  lemma AgreedPriceExact(s: State, x: TurnInput)
    requires Agrees(s, x)
    ensures !x.engine.expired && EngineTurn(s, x).learned && x.engine.reply.Reply? && AgentTurn(s, x).result.Ok?
    ensures AgentTurn(s, x).session.agreedPrice.Some? && AgentTurn(s, x).session.agreedPrice.value == TurnPrice(s, x)
  {
    TurnExact(s, x);
    EndingExact(s, x);
    LearnedPrice(s, x);
  }

  function AgreedAt(s: State, x: TurnInput): real
    requires Agrees(s, x)
  {
    AgreedPriceExact(s, x);
    AgentTurn(s, x).session.agreedPrice.value
  }

  /**
   An agreement by anything but a proposal is at the counterparty's own last price for an
   acceptance, when there is one, at 1 for a rejection whose price is not positive, and otherwise
   at the price the model named, or else the suggested one.
   */
  lemma UnguardedAgreement(s: State, x: TurnInput)
    requires Agrees(s, x) && !Proposing(x.engine.reply)
    ensures x.engine.reply.Reply? && AgreedAt(s, x) == UnguardedPrice(s, x.buyer, x.seller, x.engine)
  {
    AgreedPriceExact(s, x);
  }

  // ----- On one's own turn ------------------------------------------------------------------------------

  /** What a buyer agrees to on its own turn is within its ceiling if and only if it proposes or that price is. */
  lemma BuyerAgreementIff(s: State, x: TurnInput)
    requires Agrees(s, x) && NextProposer(s.offers) == Buyer
    ensures x.engine.reply.Reply?
    ensures AgreedAt(s, x) <= x.buyer.ceiling <==>
              Proposing(x.engine.reply) || UnguardedPrice(s, x.buyer, x.seller, x.engine) <= x.buyer.ceiling
  {
    AgreedPriceExact(s, x);
    if Proposing(x.engine.reply) {
      var offer := EngineTurn(s, x).result.offer;
      LearnedPrice(s, x);
      BuyerWithinCeiling(s, x.buyer, x.seller, x.engine, offer);
    }
  }

  // ----- Over runs ------------------------------------------------------------------------------------------

  /** A side's own bound: the ceiling for a buyer, the reservation for a seller. */
  predicate OwnBound(role: Role, buyer: Profile, seller: Profile, price: real) {
    if role == Buyer then price <= buyer.ceiling else price >= Reservation(seller)
  }

  /** What can be said before the call about the side to move: its own bound will hold. */
  ghost predicate Careful(s: State, x: TurnInput) {
    x.engine.reply.Reply? ==>
      var role := NextProposer(s.offers);
      if Proposing(x.engine.reply) then role == Seller ==> !FallsBackBelow(s, x.seller, x.engine)
      else OwnBound(role, x.buyer, x.seller, UnguardedPrice(s, x.buyer, x.seller, x.engine))
  }

  lemma CarefulIff(s: State, x: TurnInput)
    requires Sound(s) && Standard(x.engine) && !x.engine.expired && EngineTurn(s, x).learned
    ensures EngineTurn(s, x).result.Completed?
    ensures OwnBound(NextProposer(s.offers), x.buyer, x.seller, EngineTurn(s, x).result.offer.price) <==> Careful(s, x)
  {
    LearnedPrice(s, x);
    if Proposing(x.engine.reply) {
      CarefulProposal(s, x, EngineTurn(s, x).result.offer);
    }
  }

  lemma CarefulProposal(s: State, x: TurnInput, offer: Offer)
    requires Sound(s) && Standard(x.engine) && Proposal(s, x.buyer, x.seller, x.engine, offer)
    requires offer.role == NextProposer(s.offers)
    ensures OwnBound(offer.role, x.buyer, x.seller, offer.price) <==>
              (offer.role == Seller ==> !FallsBackBelow(s, x.seller, x.engine))
  {
    if offer.role == Buyer {
      BuyerWithinCeiling(s, x.buyer, x.seller, x.engine, offer);
    } else {
      SellerBelowReservationExact(s, x.buyer, x.seller, x.engine, offer);
    }
  }

  /** The seller's counterpart: on a proposal unless the fallback undercuts, otherwise if that price does not. */
  lemma SellerAgreementIff(s: State, x: TurnInput)
    requires Agrees(s, x) && NextProposer(s.offers) == Seller && Standard(x.engine)
    ensures x.engine.reply.Reply?
    ensures AgreedAt(s, x) >= Reservation(x.seller) <==>
              if Proposing(x.engine.reply) then !FallsBackBelow(s, x.seller, x.engine)
              else UnguardedPrice(s, x.buyer, x.seller, x.engine) >= Reservation(x.seller)
  {
    AgreedPriceExact(s, x);
    LearnedPrice(s, x);
    CarefulIff(s, x);
  }

  ghost predicate OffersKeep(offers: seq<Offer>, buyer: Profile, seller: Profile) {
    forall i :: 0 <= i < |offers| ==> OwnBound(offers[i].role, buyer, seller, offers[i].price)
  }

  lemma {:induction false} LastPriceKeeps(offers: seq<Offer>, role: Role, buyer: Profile, seller: Profile)
    requires OffersKeep(offers, buyer, seller)
    ensures LastPrice(offers, role).Some? ==> OwnBound(role, buyer, seller, LastPrice(offers, role).value)
  {
    if offers != [] && offers[|offers| - 1].role != role {
      LastPriceKeeps(offers[..|offers| - 1], role, buyer, seller);
    }
  }

  /** A run between two given profiles, in which every turn is careful. */
  ghost predicate CarefulRun(s: State, turns: seq<TurnInput>, buyer: Profile, seller: Profile) {
    turns != [] ==>
      var front, last := turns[..|turns| - 1], turns[|turns| - 1];
      && CarefulRun(s, front, buyer, seller)
      && last.buyer == buyer && last.seller == seller && Standard(last.engine) && Careful(AgentRun(s, front), last)
  }

  ghost predicate BoundsKept(s: State, buyer: Profile, seller: Profile) {
    IsActive(s.status) || s.status == AGREED ==> OffersKeep(s.offers, buyer, seller)
  }

  lemma CarefulTurnKeeps(s: State, x: TurnInput)
    requires Sound(s) && BoundsKept(s, x.buyer, x.seller) && Standard(x.engine) && Careful(s, x)
    ensures Sound(AgentTurn(s, x).session) && BoundsKept(AgentTurn(s, x).session, x.buyer, x.seller)
  {
    AgentTurnKeepsSound(s, x);
    if IsActive(s.status) {
      TurnExact(s, x);
      if AgentTurn(s, x).result.Ok? {
        EndingExact(s, x);
        if !x.engine.expired && EngineTurn(s, x).learned {
          CarefulIff(s, x);
          EngineKeepsRest(s, x);
        } else {
          TurnIsRegular(s, x.buyer, x.seller, x.engine);
        }
      }
    }
  }

  /** In a careful run every offer keeps its own side's bound, as long as the session is active or agreed. */
  lemma {:induction false} CarefulRunKeeps(id: nat, turns: seq<TurnInput>, buyer: Profile, seller: Profile)
    requires CarefulRun(Activated(New(id)).value, turns, buyer, seller)
    ensures var s := AgentRun(Activated(New(id)).value, turns); Sound(s) && BoundsKept(s, buyer, seller)
  {
    if turns != [] {
      var front, last := turns[..|turns| - 1], turns[|turns| - 1];
      CarefulRunKeeps(id, front, buyer, seller);
      CarefulTurnKeeps(AgentRun(Activated(New(id)).value, front), last);
    }
  }

  predicate AcceptsTheirs(s: State, x: TurnInput)
    requires x.engine.reply.Reply?
  {
    ActionOf(x.engine.reply) == "ACCEPT" && LastPrice(s.offers, Other(NextProposer(s.offers))).Some?
  }

  /** Within the ceiling and at or above the reservation. */
  predicate Acceptable(buyer: Profile, seller: Profile, price: real) {
    OwnBound(Buyer, buyer, seller, price) && OwnBound(Seller, buyer, seller, price)
  }

  /**
   Where all offers so far have kept their own side's bound, an agreement is acceptable to both if
   and only if the agreeing side is careful, and either accepts a standing offer or goes out with a
   price that also keeps the other side's bound.
   */
  lemma AcceptableIff(s: State, x: TurnInput)
    requires Agrees(s, x) && OffersKeep(s.offers, x.buyer, x.seller) && Standard(x.engine)
    ensures x.engine.reply.Reply?
    ensures Acceptable(x.buyer, x.seller, AgreedAt(s, x)) <==>
              && Careful(s, x)
              && (AcceptsTheirs(s, x) || OwnBound(Other(NextProposer(s.offers)), x.buyer, x.seller, TurnPrice(s, x)))
  {
    AgreedPriceExact(s, x);
    LearnedPrice(s, x);
    CarefulIff(s, x);
    LastPriceKeeps(s.offers, Other(NextProposer(s.offers)), x.buyer, x.seller);
  }

  /** The same for the turn that ends a run of careful turns from a new session. */
  lemma AgreementOfRunIff(id: nat, front: seq<TurnInput>, x: TurnInput)
    requires CarefulRun(Activated(New(id)).value, front, x.buyer, x.seller) && Standard(x.engine)
    requires Agrees(AgentRun(Activated(New(id)).value, front), x)
    ensures x.engine.reply.Reply?
    ensures var s := AgentRun(Activated(New(id)).value, front);
            Acceptable(x.buyer, x.seller, AgreedAt(s, x)) <==>
              && Careful(s, x)
              && (AcceptsTheirs(s, x) || OwnBound(Other(NextProposer(s.offers)), x.buyer, x.seller, TurnPrice(s, x)))
  {
    CarefulRunKeeps(id, front, x.buyer, x.seller);
    AcceptableIff(AgentRun(Activated(New(id)).value, front), x);
  }

  /** When a careful proposal converges, the other side's bound is missed by less than the tolerance. */
  lemma ConvergedNearBoth(s: State, x: TurnInput)
    requires Agrees(s, x) && OffersKeep(s.offers, x.buyer, x.seller) && Standard(x.engine) && Careful(s, x)
    requires Proposing(x.engine.reply) && ConvergedWith(s, NextProposer(s.offers), AgreedAt(s, x))
    ensures var p := AgreedAt(s, x);
            && p < x.buyer.ceiling * (1.0 + CONVERGENCE_TOLERANCE)
            && p * (1.0 + CONVERGENCE_TOLERANCE) > Reservation(x.seller)
  {
    AgreedPriceExact(s, x);
    LearnedPrice(s, x);
    CarefulIff(s, x);
    var role, p := NextProposer(s.offers), AgreedAt(s, x);
    LastPriceKeeps(s.offers, Other(role), x.buyer, x.seller);
    if role == Buyer {
      NearAsk(p, LastPrice(s.offers, Seller).value, x.buyer.ceiling, Reservation(x.seller));
    } else {
      NearBid(LastPrice(s.offers, Buyer).value, p, x.buyer.ceiling, Reservation(x.seller));
    }
  }

  lemma NearAsk(bid: real, ask: real, ceiling: real, reservation: real)
    requires 0.0 < bid <= ceiling && ask >= reservation && CheckConvergence(Some(bid), Some(ask))
    ensures bid < ceiling * (1.0 + CONVERGENCE_TOLERANCE) && bid * (1.0 + CONVERGENCE_TOLERANCE) > reservation
  {
    ConvergedExact(bid, ask);
    assert CONVERGENCE_TOLERANCE * ceiling > 0.0;
  }

  lemma NearBid(bid: real, ask: real, ceiling: real, reservation: real)
    requires 0.0 < bid <= ceiling && ask >= reservation && ask > 0.0 && CheckConvergence(Some(bid), Some(ask))
    ensures ask < ceiling * (1.0 + CONVERGENCE_TOLERANCE) && ask * (1.0 + CONVERGENCE_TOLERANCE) > reservation
  {
    ConvergedExact(bid, ask);
    Scaled(CONVERGENCE_TOLERANCE, bid, ceiling);
    assert CONVERGENCE_TOLERANCE * ask > 0.0;
  }

  // ----- Agreements that are not acceptable -----------------------------------------------------------------

  /**
   The guardrail does not see an acceptance: on a buyer's turn it is agreed to unless a tag or a
   stall says otherwise, and then above the ceiling exactly when its price is.
   */
  lemma AcceptanceEscapesCeiling(s: State, x: TurnInput)
    requires IsActive(s.status) && Sound(s) && !x.engine.expired && NextProposer(s.offers) == Buyer
    requires x.engine.reply.Reply? && ActionOf(x.engine.reply) == "ACCEPT" && AgentTurn(s, x).result.Ok?
    ensures AgentTurn(s, x).session.status == AGREED <==> Untagged(ReasoningOf(x.engine.reply)) && s.stallCounter < 3
    ensures AgentTurn(s, x).session.status == AGREED ==>
              (AgreedAt(s, x) > x.buyer.ceiling <==> UnguardedPrice(s, x.buyer, x.seller, x.engine) > x.buyer.ceiling)
  {
    TurnExact(s, x);
    EndingExact(s, x);
    UnguardedExact(s, x.buyer, x.seller, x.engine);
    TurnIsRegular(s, x.buyer, x.seller, x.engine);
    if AgentTurn(s, x).session.status == AGREED {
      BuyerAgreementIff(s, x);
    }
  }

  /** A default profile: ceiling 1000000, reservation 660000 as a seller. */
  const CAUTIOUS: Profile := ProfileData(1000000.0, 10.0, Medium, 10)

  lemma CautiousReservation()
    ensures Reservation(CAUTIOUS) == 660000.0
  {
    assert Cents(66000000) == 660000.0;
    RoundCentFixed(660000.0);
  }

  function Silent(action: string, price: Option<real>): TurnInput {
    TurnInput(CAUTIOUS, CAUTIOUS, false, Input(false, 0.5, 0.0, Strategy.SelectStrategy, Reply(Some(action), price, None, None)), 0)
  }

  lemma SilentAcceptanceAgrees(s: State, price: Option<real>)
    requires IsActive(s.status) && Sound(s) && s.roundCount < MAX_ROUNDS && s.stallCounter == 0
    requires UnguardedPrice(s, CAUTIOUS, CAUTIOUS, Silent("ACCEPT", price).engine) > 0.0
    ensures var x := Silent("ACCEPT", price);
            Agrees(s, x) && AgreedAt(s, x) == UnguardedPrice(s, CAUTIOUS, CAUTIOUS, x.engine)
  {
    var x := Silent("ACCEPT", price);
    BuyerThresholds(CAUTIOUS);
    SellerThresholds(CAUTIOUS);
    UnguardedExact(s, CAUTIOUS, CAUTIOUS, x.engine);
    TurnIsRegular(s, CAUTIOUS, CAUTIOUS, x.engine);
    EngineKeepsRest(s, x);
    AfterEngineExact(s, EngineTurn(s, x), x.now);
    NothingInEmpty();
    EndingExact(s, x);
    UnguardedAgreement(s, x);
  }

  /** A bid, and an ask of twice the buyer's ceiling. */
  const BID := Offer(0, 1, Buyer, 700000.0, None, "", false)
  const ASK := Offer(0, 2, Seller, 2000000.0, None, "", false)
  const ASKED_DOUBLE: State := New(0).(status := ROUND_LOOP, roundCount := 2, offers := [BID, ASK])

  /** The buyer's ceiling is 1000000, and it agrees to 2000000. */
  lemma AcceptanceCanEscape()
    ensures var x := Silent("ACCEPT", None);
            Agrees(ASKED_DOUBLE, x) && AgreedAt(ASKED_DOUBLE, x) == 2000000.0 && x.buyer.ceiling == 1000000.0
  {
    assert LastPrice(ASKED_DOUBLE.offers, Seller) == Some(2000000.0);
    SilentAcceptanceAgrees(ASKED_DOUBLE, None);
  }

  /** Nobody has asked for anything, and the buyer accepts whatever price its model names, above any ceiling. */
  lemma AcceptanceWithoutAsk(id: nat, price: Price)
    ensures var s, x := Activated(New(id)).value, Silent("ACCEPT", Some(price));
            s.offers == [] && Agrees(s, x) && AgreedAt(s, x) == price
  {
    SilentAcceptanceAgrees(Activated(New(id)).value, Some(price));
  }

  /** The seller's reservation is 660000, and it agrees to any opening bid. */
  lemma SellerAcceptsAnything(id: nat, bid: Price)
    ensures var s, x := SecondRound(id, bid), Silent("ACCEPT", None);
            Reservation(x.seller) == 660000.0 && Agrees(s, x) && AgreedAt(s, x) == bid
  {
    CautiousReservation();
    var s := SecondRound(id, bid);
    assert LastPrice(s.offers, Buyer) == Some(bid);
    SilentAcceptanceAgrees(s, None);
  }

  /** Nine rounds in, by turns, at the default threshold of ten. */
  const NINE_ROUNDS: State := New(0).(status := ROUND_LOOP, roundCount := 9, offers := [BID, ASK, BID, ASK, BID, ASK, BID, ASK, BID])

  /** In the tenth round the seller's ask is agreed to whatever it is, from its reservation on, and whatever the buyer bid. */
  lemma ThresholdTakesAnyAsk(ask: Price)
    requires ask >= 660000.0
    ensures var x := Silent("OFFER", Some(ask)); Agrees(NINE_ROUNDS, x) && AgreedAt(NINE_ROUNDS, x) == ask
  {
    var s, x := NINE_ROUNDS, Silent("OFFER", Some(ask));
    AskGoesThrough(ask);
    QuietEndAgrees(s, x);
  }

  /** An unstalled proposal without words that ends the session ends it agreed, at its own price. */
  lemma QuietEndAgrees(s: State, x: TurnInput)
    requires IsActive(s.status) && Sound(s) && !x.expired && x.engine.reply.Reply? && x.engine.reply.reasoning == None
    requires var turn := EngineTurn(s, x);
             && turn.learned && turn.result.Completed? && turn.result.terminal && turn.session.stallCounter < STALL_ROUNDS
             && s.roundCount < MAX_ROUNDS && !x.engine.expired && x.engine.reply.action == Some("OFFER")
    ensures Agrees(s, x) && AgreedAt(s, x) == EngineTurn(s, x).result.offer.price
  {
    EngineKeepsRest(s, x);
    AfterEngineExact(s, EngineTurn(s, x), x.now);
    NothingInEmpty();
    EndingExact(s, x);
    AgreedPriceExact(s, x);
  }

  lemma AskGoesThrough(ask: Price)
    requires ask >= 660000.0
    ensures var turn := EngineTurn(NINE_ROUNDS, Silent("OFFER", Some(ask)));
            && turn.learned && turn.result.Completed? && turn.result.terminal
            && turn.result.offer.price == ask && turn.session.stallCounter < STALL_ROUNDS
  {
    var s, x := NINE_ROUNDS, Silent("OFFER", Some(ask));
    CautiousReservation();
    SellerThresholds(CAUTIOUS);
    var v := ValuationFor(CAUTIOUS, Seller).value;
    assert ViolationsOf(CAUTIOUS, Seller, v, EnvelopeFor(Seller, x.engine.reply, Suggested(s, v, x.engine)).value) == [];
  }
}
