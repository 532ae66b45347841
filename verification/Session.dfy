/** NegotiationSession: the aggregate root, its state machine, and what every sequence of lifecycle calls keeps. */
module Session {
  import opened Wrappers
  import opened Offers
  import opened Policies

  datatype Status =
    | INIT | BUYER_ANCHOR | SELLER_RESPONSE | ROUND_LOOP | ACTIVE
    | STALLED | HUMAN_REVIEW
    | AGREED | WALK_AWAY | TIMEOUT | POLICY_BREACH | FAILED | EXPIRED

  predicate IsActive(s: Status) {
    s == INIT || s == BUYER_ANCHOR || s == SELLER_RESPONSE || s == ROUND_LOOP || s == ACTIVE
  }

  predicate IsTerminal(s: Status) {
    s == AGREED || s == WALK_AWAY || s == TIMEOUT || s == POLICY_BREACH || s == FAILED || s == EXPIRED
  }

  const MAX_ROUNDS: nat := 20
  const STALL_ROUNDS: nat := 3
  const MAX_SCHEMA_FAILURES: nat := 3

  datatype State = State(
    id: nat,
    status: Status,
    agreedPrice: Option<Price>,
    roundCount: nat,
    offers: seq<Offer>,
    completedAt: Option<int>,
    schemaFailures: nat,
    stallCounter: nat)

  function New(id: nat): State {
    State(id, INIT, None, 0, [], None, 0, 0)
  }

  // ----- What each lifecycle method does -----------------------------------------------------------

  function Activated(s: State): Result<State, Error> {
    if s.status != INIT && s.status != ACTIVE then Err(ConflictError)
    else Ok(s.(status := BUYER_ANCHOR))
  }

  /** transition(): reached only from add_offer, with the offer already appended. */
  function NextStatus(status: Status, offers: seq<Offer>, offer: Offer): Status {
    match status
    case BUYER_ANCHOR => if offer.role == Buyer then SELLER_RESPONSE else status
    case SELLER_RESPONSE => if offer.role == Seller then ROUND_LOOP else status
    case ACTIVE => if |offers| >= 2 then ROUND_LOOP else if |offers| == 0 then BUYER_ANCHOR else SELLER_RESPONSE
    case _ => status
  }

  function WithOffer(s: State, offer: Offer): Result<State, Error> {
    if !IsActive(s.status) && s.status != HUMAN_REVIEW then Err(ConflictError)
    else if s.roundCount >= MAX_ROUNDS then Err(ConflictError)
    else if offer.sessionId != s.id then Err(ConflictError)
    else
      var offers := s.offers + [offer];
      Ok(s.(offers := offers, roundCount := s.roundCount + 1, status := NextStatus(s.status, offers, offer)))
  }

  function Agreed(s: State, price: Price, now: int): Result<State, Error> {
    if !IsActive(s.status) then Err(ConflictError)
    else Ok(s.(status := AGREED, agreedPrice := Some(price), completedAt := Some(now)))
  }

  /** mark_walk_away and mark_failed share their guard. */
  function Given(s: State, outcome: Status, now: int): Result<State, Error> {
    if !IsActive(s.status) && s.status != HUMAN_REVIEW then Err(ConflictError)
    else Ok(s.(status := outcome, completedAt := Some(now)))
  }

  /** mark_timeout, mark_expired and mark_policy_breach share theirs. */
  function Ended(s: State, outcome: Status, now: int): Result<State, Error> {
    if IsTerminal(s.status) then Err(ConflictError)
    else Ok(s.(status := outcome, completedAt := Some(now)))
  }

  function Stalled(s: State): Result<State, Error> {
    if !IsActive(s.status) then Err(ConflictError)
    else Ok(s.(status := STALLED))
  }

  /** Every active state but INIT can be escalated. */
  function Escalated(s: State): Result<State, Error> {
    if s.status != STALLED && (!IsActive(s.status) || s.status == INIT) then Err(ConflictError)
    else Ok(s.(status := HUMAN_REVIEW))
  }

  function Resumed(s: State): Result<State, Error> {
    if s.status != HUMAN_REVIEW then Err(ConflictError)
    else Ok(s.(status := if |s.offers| >= 2 then ROUND_LOOP else ACTIVE))
  }

  // ----- The aggregate object ----------------------------------------------------------------------

  class NegotiationSession {
    const id: nat
    var status: Status
    var agreedPrice: Option<Price>
    var roundCount: nat
    var offers: seq<Offer>
    var completedAt: Option<int>
    var schemaFailures: nat
    var stallCounter: nat

    function Snapshot(): State
      reads this
    {
      State(id, status, agreedPrice, roundCount, offers, completedAt, schemaFailures, stallCounter)
    }

    constructor (s: State)
      ensures Snapshot() == s
    {
      id, status, agreedPrice, roundCount := s.id, s.status, s.agreedPrice, s.roundCount;
      offers, completedAt, schemaFailures, stallCounter := s.offers, s.completedAt, s.schemaFailures, s.stallCounter;
    }

    /** A call that raises leaves the object as it was. */
    ghost predicate Follows(before: State, step: Result<State, Error>, error: Option<Error>)
      reads this
    {
      match step
      case Ok(after) => Snapshot() == after && error == None
      case Err(e) => Snapshot() == before && error == Some(e)
    }

    method Activate() returns (error: Option<Error>)
      modifies this
      ensures Follows(old(Snapshot()), Activated(old(Snapshot())), error)
    {
      if status != INIT && status != ACTIVE { return Some(ConflictError); }
      status := BUYER_ANCHOR;
      return None;
    }

    method Transition(offer: Offer)
      modifies this`status
      ensures status == NextStatus(old(status), offers, offer)
    {
      if status == BUYER_ANCHOR {
        if offer.role == Buyer { status := SELLER_RESPONSE; }
      } else if status == SELLER_RESPONSE {
        if offer.role == Seller { status := ROUND_LOOP; }
      } else if status == ACTIVE {
        if |offers| >= 2 {
          status := ROUND_LOOP;
        } else if |offers| == 0 {
          status := BUYER_ANCHOR;
        } else {
          status := SELLER_RESPONSE;
        }
      }
    }

    method AddOffer(offer: Offer) returns (error: Option<Error>)
      modifies this
      ensures Follows(old(Snapshot()), WithOffer(old(Snapshot()), offer), error)
    {
      if !IsActive(status) && status != HUMAN_REVIEW { return Some(ConflictError); }
      if roundCount >= MAX_ROUNDS { return Some(ConflictError); }
      if offer.sessionId != id { return Some(ConflictError); }
      offers := offers + [offer];
      roundCount := roundCount + 1;
      Transition(offer);
      return None;
    }

    method MarkAgreed(price: Price, now: int) returns (error: Option<Error>)
      modifies this
      ensures Follows(old(Snapshot()), Agreed(old(Snapshot()), price, now), error)
    {
      if !IsActive(status) { return Some(ConflictError); }
      status := AGREED;
      agreedPrice := Some(price);
      completedAt := Some(now);
      return None;
    }

    method MarkWalkAway(now: int) returns (error: Option<Error>)
      modifies this
      ensures Follows(old(Snapshot()), Given(old(Snapshot()), WALK_AWAY, now), error)
    {
      if !IsActive(status) && status != HUMAN_REVIEW { return Some(ConflictError); }
      status := WALK_AWAY;
      completedAt := Some(now);
      return None;
    }

    method MarkFailed(now: int) returns (error: Option<Error>)
      modifies this
      ensures Follows(old(Snapshot()), Given(old(Snapshot()), FAILED, now), error)
    {
      if !IsActive(status) && status != HUMAN_REVIEW { return Some(ConflictError); }
      status := FAILED;
      completedAt := Some(now);
      return None;
    }

    method MarkStalled() returns (error: Option<Error>)
      modifies this
      ensures Follows(old(Snapshot()), Stalled(old(Snapshot())), error)
    {
      if !IsActive(status) { return Some(ConflictError); }
      status := STALLED;
      return None;
    }

    method EscalateToHumanReview() returns (error: Option<Error>)
      modifies this
      ensures Follows(old(Snapshot()), Escalated(old(Snapshot())), error)
    {
      if status !in {STALLED, ACTIVE, ROUND_LOOP, BUYER_ANCHOR, SELLER_RESPONSE} { return Some(ConflictError); }
      status := HUMAN_REVIEW;
      return None;
    }

    method ResumeFromHumanReview() returns (error: Option<Error>)
      modifies this
      ensures Follows(old(Snapshot()), Resumed(old(Snapshot())), error)
    {
      if status != HUMAN_REVIEW { return Some(ConflictError); }
      if |offers| >= 2 {
        status := ROUND_LOOP;
      } else {
        status := ACTIVE;
      }
      return None;
    }

    method MarkTimeout(now: int) returns (error: Option<Error>)
      modifies this
      ensures Follows(old(Snapshot()), Ended(old(Snapshot()), TIMEOUT, now), error)
    {
      if IsTerminal(status) { return Some(ConflictError); }
      status := TIMEOUT;
      completedAt := Some(now);
      return None;
    }

    method MarkExpired(now: int) returns (error: Option<Error>)
      modifies this
      ensures Follows(old(Snapshot()), Ended(old(Snapshot()), EXPIRED, now), error)
    {
      if IsTerminal(status) { return Some(ConflictError); }
      status := EXPIRED;
      completedAt := Some(now);
      return None;
    }

    method MarkPolicyBreach(now: int) returns (error: Option<Error>)
      modifies this
      ensures Follows(old(Snapshot()), Ended(old(Snapshot()), POLICY_BREACH, now), error)
    {
      if IsTerminal(status) { return Some(ConflictError); }
      status := POLICY_BREACH;
      completedAt := Some(now);
      return None;
    }

    method RecordSchemaFailure() returns (exhausted: bool)
      modifies this
      ensures Snapshot() == old(Snapshot()).(schemaFailures := old(schemaFailures) + 1)
      ensures exhausted == (schemaFailures >= MAX_SCHEMA_FAILURES)
    {
      schemaFailures := schemaFailures + 1;
      return schemaFailures >= MAX_SCHEMA_FAILURES;
    }

    method RecordNoConcession() returns (stalled: bool)
      modifies this
      ensures Snapshot() == old(Snapshot()).(stallCounter := old(stallCounter) + 1)
      ensures stalled == (stallCounter >= STALL_ROUNDS)
    {
      stallCounter := stallCounter + 1;
      return stallCounter >= STALL_ROUNDS;
    }

    method ResetStallCounter()
      modifies this
      ensures Snapshot() == old(Snapshot()).(stallCounter := 0)
    {
      stallCounter := 0;
    }
  }

  /** The session's own convergence test is the policy's on the last prices of the two sides. */
  predicate Converged(s: State) {
    CheckConvergence(LastPrice(s.offers, Buyer), LastPrice(s.offers, Seller))
  }

  // ----- Every sequence of lifecycle calls ----------------------------------------------------------

  datatype Call =
    | CallActivate
    | CallAddOffer(offer: Offer)
    | CallAgreed(price: Price, now: int)
    | CallWalkAway(now: int)
    | CallFailed(now: int)
    | CallStalled
    | CallEscalate
    | CallResume
    | CallTimeout(now: int)
    | CallExpired(now: int)
    | CallBreach(now: int)
    | CallSchemaFailure
    | CallNoConcession
    | CallResetStall

  function Outcome(s: State, c: Call): Result<State, Error> {
    match c
    case CallActivate => Activated(s)
    case CallAddOffer(offer) => WithOffer(s, offer)
    case CallAgreed(price, now) => Agreed(s, price, now)
    case CallWalkAway(now) => Given(s, WALK_AWAY, now)
    case CallFailed(now) => Given(s, FAILED, now)
    case CallStalled => Stalled(s)
    case CallEscalate => Escalated(s)
    case CallResume => Resumed(s)
    case CallTimeout(now) => Ended(s, TIMEOUT, now)
    case CallExpired(now) => Ended(s, EXPIRED, now)
    case CallBreach(now) => Ended(s, POLICY_BREACH, now)
    case CallSchemaFailure => Ok(s.(schemaFailures := s.schemaFailures + 1))
    case CallNoConcession => Ok(s.(stallCounter := s.stallCounter + 1))
    case CallResetStall => Ok(s.(stallCounter := 0))
  }

  function Step(s: State, c: Call): State {
    var r := Outcome(s, c);
    if r.Ok? then r.value else s
  }

  function Run(s: State, calls: seq<Call>): State
    decreases |calls|
  {
    if calls == [] then s else Run(Step(s, calls[0]), calls[1..])
  }

  ghost predicate Sound(s: State) {
    && s.roundCount == |s.offers| <= MAX_ROUNDS
    && (s.completedAt.Some? <==> IsTerminal(s.status))
    && (s.agreedPrice.Some? <==> s.status == AGREED)
    && (s.status == SELLER_RESPONSE ==> |s.offers| >= 1)
    && (s.status == ROUND_LOOP ==> |s.offers| >= 2)
    && (forall i :: 0 <= i < |s.offers| ==> s.offers[i].sessionId == s.id)
  }

  lemma StepKeepsSound(s: State, c: Call)
    requires Sound(s)
    ensures Sound(Step(s, c))
  {
    if c.CallAddOffer? && WithOffer(s, c.offer).Ok? {
      OfferKeepsSound(s, c.offer);
    }
  }

  lemma OfferKeepsSound(s: State, offer: Offer)
    requires Sound(s) && WithOffer(s, offer).Ok?
    ensures Sound(WithOffer(s, offer).value)
  {
  }

  lemma {:induction false} RunKeepsSound(s: State, calls: seq<Call>)
    requires Sound(s)
    ensures Sound(Run(s, calls))
    decreases |calls|
  {
    if calls != [] {
      StepKeepsSound(s, calls[0]);
      RunKeepsSound(Step(s, calls[0]), calls[1..]);
    }
  }

  /** Whatever is called on a new session, in whatever order. */
  lemma EveryRunSound(id: nat, calls: seq<Call>)
    ensures Sound(Run(New(id), calls))
  {
    RunKeepsSound(New(id), calls);
  }

  /** What a finished session has settled: everything but the two unguarded counters. */
  function Settled(s: State): State {
    s.(schemaFailures := 0, stallCounter := 0)
  }

  lemma {:induction false} TerminalIsFinal(s: State, calls: seq<Call>)
    requires IsTerminal(s.status)
    ensures Settled(Run(s, calls)) == Settled(s)
    decreases |calls|
  {
    if calls != [] {
      assert Settled(Step(s, calls[0])) == Settled(s);
      TerminalIsFinal(Step(s, calls[0]), calls[1..]);
    }
  }

  /** The list of offers only ever grows at its end, and by at most one offer a call. */
  lemma {:induction false} OffersOnlyGrow(s: State, calls: seq<Call>)
    ensures s.offers <= Run(s, calls).offers && |Run(s, calls).offers| <= |s.offers| + |calls|
    decreases |calls|
  {
    if calls != [] {
      OffersOnlyGrow(Step(s, calls[0]), calls[1..]);
    }
  }

  /** A session leaves the terminal states never, and enters AGREED only by mark_agreed, from an active state. */
  lemma AgreementOnlyFromActive(s: State, c: Call)
    requires s.status != AGREED && Step(s, c).status == AGREED
    ensures c.CallAgreed? && IsActive(s.status) && Step(s, c).agreedPrice == Some(c.price)
  {
  }

  /** Which calls each state admits. */
  lemma AdmittedExact(s: State, c: Call)
    ensures Outcome(s, c).Ok? <==>
              match c
              case CallActivate => s.status in {INIT, ACTIVE}
              case CallAddOffer(offer) =>
                && s.status in {INIT, BUYER_ANCHOR, SELLER_RESPONSE, ROUND_LOOP, ACTIVE, HUMAN_REVIEW}
                && s.roundCount < 20 && offer.sessionId == s.id
              case CallAgreed(_, _) => s.status in {INIT, BUYER_ANCHOR, SELLER_RESPONSE, ROUND_LOOP, ACTIVE}
              case CallWalkAway(_) => s.status in {INIT, BUYER_ANCHOR, SELLER_RESPONSE, ROUND_LOOP, ACTIVE, HUMAN_REVIEW}
              case CallFailed(_) => s.status in {INIT, BUYER_ANCHOR, SELLER_RESPONSE, ROUND_LOOP, ACTIVE, HUMAN_REVIEW}
              case CallStalled => s.status in {INIT, BUYER_ANCHOR, SELLER_RESPONSE, ROUND_LOOP, ACTIVE}
              case CallEscalate => s.status in {STALLED, ACTIVE, ROUND_LOOP, BUYER_ANCHOR, SELLER_RESPONSE}
              case CallResume => s.status == HUMAN_REVIEW
              case CallTimeout(_) => s.status !in {AGREED, WALK_AWAY, TIMEOUT, POLICY_BREACH, FAILED, EXPIRED}
              case CallExpired(_) => s.status !in {AGREED, WALK_AWAY, TIMEOUT, POLICY_BREACH, FAILED, EXPIRED}
              case CallBreach(_) => s.status !in {AGREED, WALK_AWAY, TIMEOUT, POLICY_BREACH, FAILED, EXPIRED}
              case _ => true
  {
  }

  /** Where an admitted call leads: the status it ends in, and the time it puts down. */
  lemma ReachedExact(s: State, c: Call)
    requires Outcome(s, c).Ok?
    ensures var t := Outcome(s, c).value;
            match c
            case CallActivate => t.status == BUYER_ANCHOR
            case CallAddOffer(offer) =>
              && t.offers == s.offers + [offer] && t.roundCount == s.roundCount + 1
              && (t.status == SELLER_RESPONSE <==>
                    || (s.status == BUYER_ANCHOR && offer.role == Buyer)
                    || (s.status == SELLER_RESPONSE && offer.role == Buyer)
                    || (s.status == ACTIVE && s.offers == []))
              && (t.status == ROUND_LOOP <==>
                    || s.status == ROUND_LOOP
                    || (s.status == SELLER_RESPONSE && offer.role == Seller)
                    || (s.status == ACTIVE && s.offers != []))
              && (t.status !in {SELLER_RESPONSE, ROUND_LOOP} ==> t.status == s.status)
            case CallAgreed(price, now) => t.status == AGREED && t.agreedPrice == Some(price) && t.completedAt == Some(now)
            case CallWalkAway(now) => t.status == WALK_AWAY && t.completedAt == Some(now)
            case CallFailed(now) => t.status == FAILED && t.completedAt == Some(now)
            case CallStalled => t.status == STALLED
            case CallEscalate => t.status == HUMAN_REVIEW
            case CallResume => t.status == if |s.offers| >= 2 then ROUND_LOOP else ACTIVE
            case CallTimeout(now) => t.status == TIMEOUT && t.completedAt == Some(now)
            case CallExpired(now) => t.status == EXPIRED && t.completedAt == Some(now)
            case CallBreach(now) => t.status == POLICY_BREACH && t.completedAt == Some(now)
            case CallSchemaFailure => t.schemaFailures == s.schemaFailures + 1
            case CallNoConcession => t.stallCounter == s.stallCounter + 1
            case CallResetStall => t.stallCounter == 0
  {
  }
}
