/** Offers: who made them, at what price, with what text; and the price histories read off a list of them. */
module Offers {
  import opened Wrappers

  datatype Role = Buyer | Seller

  datatype Error = ConflictError | PolicyViolation | ValidationError | NotFoundError | LlmError

  /** OfferValue refuses any other amount. */
  type Price = x: real | x > 0.0 witness 1.0

  datatype Offer = Offer(
    sessionId: nat,
    round: nat,
    role: Role,
    price: Price,
    confidence: Option<real>,
    reasoning: string,
    isHuman: bool)

  function Other(role: Role): Role {
    if role == Buyer then Seller else Buyer
  }

  /** Amounts must be positive, the confidence a fraction. */
  function CreateAgentOffer(sessionId: nat, round: nat, role: Role, price: real, confidence: real, reasoning: string)
    : Result<Offer, Error>
  {
    if price <= 0.0 then Err(ValidationError)
    else if !(0.0 <= confidence <= 1.0) then Err(ValidationError)
    else Ok(Offer(sessionId, round, role, price, Some(confidence), reasoning, false))
  }

  function CreateHumanOffer(sessionId: nat, round: nat, role: Role, price: real, knownCurrency: bool): Result<Offer, Error> {
    if price <= 0.0 || !knownCurrency then Err(ValidationError)
    else Ok(Offer(sessionId, round, role, price, None, "HUMAN_OVERRIDE", true))
  }

  /** All prices of one side in chronological order. */
  function Prices(offers: seq<Offer>, role: Role): seq<Price> {
    if offers == [] then []
    else
      var last := offers[|offers| - 1];
      Prices(offers[..|offers| - 1], role) + if last.role == role then [last.price] else []
  }

  /** The most recent price of one side. */
  function LastPrice(offers: seq<Offer>, role: Role): Option<Price> {
    if offers == [] then None
    else if offers[|offers| - 1].role == role then Some(offers[|offers| - 1].price)
    else LastPrice(offers[..|offers| - 1], role)
  }

  lemma {:induction false} LastPriceEndsPrices(offers: seq<Offer>, role: Role)
    ensures LastPrice(offers, role) ==
            var ps := Prices(offers, role); if ps == [] then None else Some(ps[|ps| - 1])
  {
    if offers != [] {
      LastPriceEndsPrices(offers[..|offers| - 1], role);
    }
  }

  /** Whose turn it is: the buyer opens, then the side that did not speak last. */
  function NextProposer(offers: seq<Offer>): Role {
    if offers == [] then Buyer else Other(offers[|offers| - 1].role)
  }

  /** Offers made in turn from the start. */
  ghost predicate Alternating(offers: seq<Offer>) {
    forall i :: 0 <= i < |offers| ==> offers[i].role == if i % 2 == 0 then Buyer else Seller
  }

  lemma AlternatingNext(offers: seq<Offer>)
    requires Alternating(offers)
    ensures NextProposer(offers) == if |offers| % 2 == 0 then Buyer else Seller
  {
    if offers != [] {
      assert offers[|offers| - 1].role == if (|offers| - 1) % 2 == 0 then Buyer else Seller;
    }
  }

  /** In an alternating history the proposer's own last price stands two positions before the new offer. */
  lemma OwnLastPrice(offers: seq<Offer>)
    requires Alternating(offers)
    ensures LastPrice(offers, NextProposer(offers)) ==
            if |offers| < 2 then None else Some(offers[|offers| - 2].price)
  {
    AlternatingNext(offers);
    if |offers| >= 1 {
      var front := offers[..|offers| - 1];
      assert offers[|offers| - 1].role != NextProposer(offers);
      if |offers| >= 2 {
        assert front[|front| - 1] == offers[|offers| - 2];
      } else {
        assert front == [];
      }
    }
  }

  /** Every offer is in exactly one of the two price histories. */
  lemma {:induction false} PricesPartition(offers: seq<Offer>)
    ensures |Prices(offers, Buyer)| + |Prices(offers, Seller)| == |offers|
  {
    if offers != [] {
      PricesPartition(offers[..|offers| - 1]);
    }
  }

  /** In an alternating history the k-th last price of the side that spoke last stands 2k positions before the end. */
  lemma {:induction false} OpponentHistory(offers: seq<Offer>, k: nat)
    requires Alternating(offers) && 2 * k < |offers|
    ensures var theirs := Prices(offers, offers[|offers| - 1].role);
            k < |theirs| && theirs[|theirs| - 1 - k] == offers[|offers| - 1 - 2 * k].price
  {
    var n := |offers|;
    var role := offers[n - 1].role;
    if k > 0 {
      var front := offers[..n - 1];
      var rest := front[..n - 2];
      assert rest[n - 3].role == role && front[n - 2].role != role;
      OpponentHistory(rest, k - 1);
      assert Prices(front, role) == Prices(rest, role);
    }
  }
}
