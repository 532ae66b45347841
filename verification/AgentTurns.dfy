/**
 What one agent turn does to a stored session: the engine's result becomes a transition. The text
 of the offer, searched for tags, decides how a terminal turn ends the session.
 */
module AgentTurns {
  import opened Wrappers
  import opened Offers
  import opened Valuation
  import opened Policies
  import opened Session
  import opened Engine
  import opened Texts
  import Strategy

  /** expired: the service's own look at the clock; the engine looks again, hence the flag inside `engine`. */
  datatype TurnInput = TurnInput(buyer: Profile, seller: Profile, expired: bool, engine: Input, now: int)

  /** What the repository holds afterwards, and what the caller gets. */
  datatype Served = Served(session: State, result: Result<Offer, Error>)

  datatype Ending = EndWalkAway | EndBreach | EndTimeout | EndStall | EndAgreement

  function EndingOf(text: string, stallCounter: nat): Ending {
    if Contains(text, "REJECTED") || Contains(text, "WALK_AWAY") then EndWalkAway
    else if Contains(text, "POLICY_BREACH") then EndBreach
    else if Contains(text, "TIMEOUT") then EndTimeout
    else if stallCounter >= STALL_ROUNDS then EndStall
    else EndAgreement
  }

  /** A stalled session is escalated in the same breath. */
  function Handled(s: State, ending: Ending, price: Price, now: int): Result<State, Error> {
    match ending
    case EndWalkAway => Given(s, WALK_AWAY, now)
    case EndBreach => Ended(s, POLICY_BREACH, now)
    case EndTimeout => Ended(s, TIMEOUT, now)
    case EndStall => if Stalled(s).Err? then Stalled(s) else Escalated(Stalled(s).value)
    case EndAgreement => Agreed(s, price, now)
  }

  function AfterEngine(s: State, turn: Turn, now: int): Served {
    match turn.result
    case Raised(e) => Served(s, Err(e))
    case Completed(offer, terminal) =>
      var added := WithOffer(turn.session, offer);
      if added.Err? then Served(s, Err(added.error))
      else if !terminal then Served(added.value, Ok(offer))
      else
        var handled := Handled(added.value, EndingOf(offer.reasoning, added.value.stallCounter), offer.price, now);
        if handled.Err? then Served(added.value, Err(handled.error)) else Served(handled.value, Ok(offer))
  }

  function EngineTurn(s: State, x: TurnInput): Turn {
    TakeTurn(s, x.buyer, x.seller, x.engine)
  }

  function AgentTurn(s: State, x: TurnInput): Served {
    if !IsActive(s.status) then Served(s, Err(ConflictError))
    else if x.expired then
      var ended := Ended(s, TIMEOUT, x.now);
      Served(if ended.Ok? then ended.value else s, Err(ConflictError))
    else AfterEngine(s, EngineTurn(s, x), x.now)
  }

  // ----- One turn ----------------------------------------------------------------------------------

  /** The engine touches nothing but the two counters. */
  lemma EngineKeepsRest(s: State, x: TurnInput)
    ensures Settled(EngineTurn(s, x).session) == Settled(s)
    ensures EngineTurn(s, x).result.Completed? ==> FitsSession(s, EngineTurn(s, x).result.offer)
  {
    TurnIsRegular(s, x.buyer, x.seller, x.engine);
  }

  lemma AddedStaysActive(s: State, offer: Offer)
    requires IsActive(s.status) && WithOffer(s, offer).Ok?
    ensures IsActive(WithOffer(s, offer).value.status)
  {
  }

  /** From an active session every ending succeeds and leaves the active states. */
  lemma EndingSucceeds(s: State, ending: Ending, price: Price, now: int)
    requires IsActive(s.status)
    ensures Handled(s, ending, price, now).Ok?
    ensures var s' := Handled(s, ending, price, now).value;
            && s'.id == s.id && s'.status == StatusOf(ending) && s'.offers == s.offers && s'.roundCount == s.roundCount
            && s'.agreedPrice == (if ending == EndAgreement then Some(price) else s.agreedPrice)
            && (Sound(s) ==> Sound(s'))
  {
  }

  function StatusOf(ending: Ending): Status {
    match ending
    case EndWalkAway => WALK_AWAY
    case EndBreach => POLICY_BREACH
    case EndTimeout => TIMEOUT
    case EndStall => HUMAN_REVIEW
    case EndAgreement => AGREED
  }

  /**
   A completed turn appends exactly its offer; it leaves the active states if and only if the engine
   called it terminal, and then in the state its text and the stall counter select. A turn that
   raises stores nothing, except that an expired session is timed out: no handler raises once
   the offer is in.
   */
  lemma TurnExact(s: State, x: TurnInput)
    requires IsActive(s.status) && Sound(s)
    ensures var served := AgentTurn(s, x); var turn := EngineTurn(s, x);
            match served.result
            case Ok(offer) =>
              && !x.expired && turn.result.Completed? && turn.result.offer == offer
              && served.session.offers == s.offers + [offer]
              && served.session.roundCount == s.roundCount + 1 <= MAX_ROUNDS
              && (turn.result.terminal <==> !IsActive(served.session.status))
              && (turn.result.terminal ==>
                    served.session.status == StatusOf(EndingOf(offer.reasoning, turn.session.stallCounter)))
              && (!turn.result.terminal ==> served.session.stallCounter == turn.session.stallCounter)
              && (served.session.status == AGREED ==> served.session.agreedPrice == Some(offer.price))
            case Err(e) =>
              if x.expired then e == ConflictError && served.session == s.(status := TIMEOUT, completedAt := Some(x.now))
              else served.session == s
                   && (if turn.result.Raised? then e == turn.result.error
                       else s.roundCount == MAX_ROUNDS && e == ConflictError)
    ensures Sound(AgentTurn(s, x).session) && AgentTurn(s, x).session.id == s.id
  {
    EngineKeepsRest(s, x);
    AfterEngineExact(s, EngineTurn(s, x), x.now);
  }

  lemma AfterEngineExact(s: State, turn: Turn, now: int)
    requires IsActive(s.status) && Sound(s) && Settled(turn.session) == Settled(s)
    requires turn.result.Completed? ==> FitsSession(s, turn.result.offer)
    ensures var served := AfterEngine(s, turn, now);
            match served.result
            case Ok(offer) =>
              && turn.result.Completed? && turn.result.offer == offer
              && served.session.offers == s.offers + [offer]
              && served.session.roundCount == s.roundCount + 1 <= MAX_ROUNDS
              && (turn.result.terminal <==> !IsActive(served.session.status))
              && (turn.result.terminal ==>
                    served.session.status == StatusOf(EndingOf(offer.reasoning, turn.session.stallCounter)))
              && (!turn.result.terminal ==> served.session.stallCounter == turn.session.stallCounter)
              && (served.session.status == AGREED ==> served.session.agreedPrice == Some(offer.price))
            case Err(e) =>
              && served.session == s
              && (if turn.result.Raised? then e == turn.result.error
                  else s.roundCount == MAX_ROUNDS && e == ConflictError)
    ensures Sound(AfterEngine(s, turn, now).session) && AfterEngine(s, turn, now).session.id == s.id
  {
    if turn.result.Completed? {
      var offer := turn.result.offer;
      var added := WithOffer(turn.session, offer);
      if added.Ok? {
        AddedStaysActive(turn.session, offer);
        OfferKeepsSound(turn.session, offer);
        EndingSucceeds(added.value, EndingOf(offer.reasoning, added.value.stallCounter), offer.price, now);
      }
    }
  }

  /** An agreement reached by an acceptance is at the counterparty's own last price, when it has one. */
  lemma AcceptedPrice(s: State, x: TurnInput)
    requires IsActive(s.status) && Sound(s) && !x.engine.expired
    requires x.engine.reply.Reply? && ActionOf(x.engine.reply) == "ACCEPT"
    requires AgentTurn(s, x).result.Ok? && AgentTurn(s, x).session.status == AGREED
    ensures var theirs := LastPrice(s.offers, Other(NextProposer(s.offers)));
            theirs.Some? ==> AgentTurn(s, x).session.agreedPrice == Some(theirs.value)
  {
    TurnExact(s, x);
  }

  // ----- Tags --------------------------------------------------------------------------------------

  /** The words the engine puts in front of the model's text contain no tag and cannot complete one. */
  lemma RejectCarriesNoTag(text: string, stall: nat)
    ensures EndingOf("REJECT: " + text, stall) == EndingOf(text, stall)
  {
    ClashesAfter("REJECT: ", "REJECTED", 0, 6);
    ClashesByFirst("REJECT: ", "WALK_AWAY");
    ClashesByFirst("REJECT: ", "POLICY_BREACH");
    ClashesAfter("REJECT: ", "TIMEOUT", 5, 1);
    SameEnding("REJECT: ", text, stall);
  }

  lemma OverrideCarriesNoTag(text: string, stall: nat)
    ensures EndingOf("Guardrail override: " + text, stall) == EndingOf(text, stall)
  {
    ClashesByFirst("Guardrail override: ", "REJECTED");
    ClashesByFirst("Guardrail override: ", "WALK_AWAY");
    ClashesByFirst("Guardrail override: ", "POLICY_BREACH");
    ClashesByFirst("Guardrail override: ", "TIMEOUT");
    SameEnding("Guardrail override: ", text, stall);
  }

  lemma SameEnding(p: string, text: string, stall: nat)
    requires Clashes(p, "REJECTED") && Clashes(p, "WALK_AWAY") && Clashes(p, "POLICY_BREACH") && Clashes(p, "TIMEOUT")
    ensures EndingOf(p + text, stall) == EndingOf(text, stall)
  {
    PrefixIrrelevant(p, text, "REJECTED");
    PrefixIrrelevant(p, text, "WALK_AWAY");
    PrefixIrrelevant(p, text, "POLICY_BREACH");
    PrefixIrrelevant(p, text, "TIMEOUT");
  }

  /** The placeholders of the engine carry their own tag and none that is looked for earlier. */
  lemma TimeoutTagged(stall: nat)
    ensures EndingOf(TIMEOUT_TEXT, stall) == EndTimeout
  {
    Absent("TIMEOUT", ": Session TTL expired.", "REJECTED");
    Absent("TIMEOUT", ": Session TTL expired.", "WALK_AWAY");
    Absent("TIMEOUT", ": Session TTL expired.", "POLICY_BREACH");
    Begins("TIMEOUT", ": Session TTL expired.");
  }

  lemma BreachTagged(stall: nat)
    ensures EndingOf(BREACH_TEXT, stall) == EndBreach
  {
    BreachIsNoRejection();
    Absent("POLICY_BREACH", ": Schema validation failed 3 times.", "WALK_AWAY");
    Begins("POLICY_BREACH", ": Schema validation failed 3 times.");
  }

  /** The R of BREACH does not begin REJECTED. */
  lemma BreachIsNoRejection()
    ensures !Contains("POLICY_BREACH" + ": Schema validation failed 3 times.", "REJECTED")
  {
    ClashesAfter("POLICY_BREACH", "REJECTED", 8, 2);
    ClashesByFirst(": Schema validation failed 3 times.", "REJECTED");
    NowhereIn(": Schema validation failed 3 times.", "REJECTED");
    PrefixIrrelevant("POLICY_BREACH", ": Schema validation failed 3 times.", "REJECTED");
  }

  /** How a terminal turn ends, in terms of what came in. */
  function ExpectedEnding(s: State, x: TurnInput): Ending {
    if x.engine.expired then EndTimeout
    else if !EngineTurn(s, x).learned then EndBreach
    else if x.engine.reply.Reply? then
      var words := ReasoningOf(x.engine.reply);
      if Contains(words, "REJECTED") || Contains(words, "WALK_AWAY") then EndWalkAway
      else if Contains(words, "POLICY_BREACH") then EndBreach
      else if Contains(words, "TIMEOUT") then EndTimeout
      else if EngineTurn(s, x).session.stallCounter >= 3 then EndStall
      else EndAgreement
    else EndAgreement
  }

  /** The words carry none of the four tags the dispatch looks for. */
  predicate Untagged(words: string) {
    !Contains(words, "REJECTED") && !Contains(words, "WALK_AWAY") && !Contains(words, "POLICY_BREACH") && !Contains(words, "TIMEOUT")
  }

  lemma EndingExact(s: State, x: TurnInput)
    requires EngineTurn(s, x).result.Completed?
    ensures var turn := EngineTurn(s, x);
            EndingOf(turn.result.offer.reasoning, turn.session.stallCounter) == ExpectedEnding(s, x)
  {
    var turn := EngineTurn(s, x);
    var stall := turn.session.stallCounter;
    TurnIsRegular(s, x.buyer, x.seller, x.engine);
    if x.engine.expired {
      TimeoutTagged(stall);
    } else if !turn.learned {
      BreachTagged(stall);
    } else {
      RejectCarriesNoTag(ReasoningOf(x.engine.reply), stall);
      OverrideCarriesNoTag(ReasoningOf(x.engine.reply), stall);
    }
  }

  /**
   A rejection leads to WALK_AWAY if and only if the model's own words contain REJECTED or
   WALK_AWAY: the REJECT the engine writes itself does not count. Without any tag, and short of
   three rounds of stalling, the rejecting side ends up in an agreement, at the price it rejected with.
   */
  lemma RejectionExact(s: State, x: TurnInput)
    requires IsActive(s.status) && Sound(s) && !x.engine.expired
    requires x.engine.reply.Reply? && ActionOf(x.engine.reply) == "REJECT"
    requires AgentTurn(s, x).result.Ok?
    ensures var s' := AgentTurn(s, x).session; var words := ReasoningOf(x.engine.reply);
            && (s'.status == WALK_AWAY <==> Contains(words, "REJECTED") || Contains(words, "WALK_AWAY"))
            && (s'.status == AGREED <==> Untagged(words) && s.stallCounter < 3)
            && !IsActive(s'.status)
            && (s'.status == AGREED ==> s'.agreedPrice.Some? && s'.agreedPrice.value == UnguardedPrice(s, x.buyer, x.seller, x.engine))
  {
    TurnExact(s, x);
    EndingExact(s, x);
    UnguardedExact(s, x.buyer, x.seller, x.engine);
  }

  function SecondRound(id: nat, bid: Price): State {
    New(id).(status := SELLER_RESPONSE, roundCount := 1, offers := [Offer(id, 1, Buyer, bid, None, "", false)])
  }

  function SilentRejection(ask: Price, now: int): TurnInput {
    var p := ProfileData(1000000.0, 10.0, Medium, 10);
    TurnInput(p, p, false, Input(false, 0.5, 0.0, Strategy.SelectStrategy, Reply(Some("REJECT"), Some(ask), None, None)), now)
  }

  lemma SilentRejectionCompletes(id: nat, bid: Price, ask: Price, now: int)
    ensures var turn := EngineTurn(SecondRound(id, bid), SilentRejection(ask, now));
            turn.result.Completed? && turn.result.offer.price == ask
  {
  }

  /** A seller that rejects with empty words in the second round has agreed, at its own price. */
  lemma RejectionCanAgree(id: nat, bid: Price, ask: Price, now: int)
    ensures var s := SecondRound(id, bid); var s' := AgentTurn(s, SilentRejection(ask, now)).session;
            Sound(s) && s'.status == AGREED && s'.agreedPrice == Some(ask)
  {
    var s, x := SecondRound(id, bid), SilentRejection(ask, now);
    SilentRejectionCompletes(id, bid, ask, now);
    TurnExact(s, x);
    assert AgentTurn(s, x).result.Ok?;
    NothingInEmpty();
    RejectionExact(s, x);
  }

  lemma NothingInEmpty()
    ensures Untagged("") && forall stall: nat :: stall < 3 ==> EndingOf("", stall) == EndAgreement
  {
    ClashesByFirst("", "REJECTED");
    ClashesByFirst("", "WALK_AWAY");
    ClashesByFirst("", "POLICY_BREACH");
    ClashesByFirst("", "TIMEOUT");
    NowhereIn("", "REJECTED");
    NowhereIn("", "WALK_AWAY");
    NowhereIn("", "POLICY_BREACH");
    NowhereIn("", "TIMEOUT");
  }

  // ----- Bounded runs ------------------------------------------------------------------------------

  /**
   A proposal ends the negotiation exactly when it converges or its round reaches the acting side's
   threshold. At the threshold, converged or not, an untagged proposal is agreed to as it stands,
   unless three proposals in a row made no concession.
   */
  lemma ProposalEndsExact(s: State, x: TurnInput)
    requires IsActive(s.status) && Sound(s) && !x.engine.expired
    requires x.engine.reply.Reply? && ActionOf(x.engine.reply) !in {"ACCEPT", "REJECT"}
    requires AgentTurn(s, x).result.Ok? && EngineTurn(s, x).learned
    ensures var role := NextProposer(s.offers); var p := Pick(role, x.buyer, x.seller);
            var served := AgentTurn(s, x); var price := served.result.value.price;
            && (!IsActive(served.session.status) <==> ConvergedWith(s, role, price) || s.roundCount + 1 >= p.stallThreshold)
            && (served.session.status == AGREED <==>
                  && (ConvergedWith(s, role, price) || s.roundCount + 1 >= p.stallThreshold)
                  && Untagged(ReasoningOf(x.engine.reply)) && StallAfter(s, role, price) < 3)
  {
    TurnExact(s, x);
    EndingExact(s, x);
    LearnedStall(s, x);
  }

  lemma LearnedStall(s: State, x: TurnInput)
    requires !x.engine.expired && EngineTurn(s, x).learned
    requires x.engine.reply.Reply? && ActionOf(x.engine.reply) !in {"ACCEPT", "REJECT"}
    ensures var role := NextProposer(s.offers); var turn := EngineTurn(s, x);
            && turn.result.Completed?
            && turn.session.stallCounter == StallAfter(s, role, turn.result.offer.price)
            && (turn.result.terminal <==>
                  || ConvergedWith(s, role, turn.result.offer.price)
                  || s.roundCount + 1 >= Pick(role, x.buyer, x.seller).stallThreshold)
  {
    TurnIsRegular(s, x.buyer, x.seller, x.engine);
  }

  function FirstOffer(price: Price, now: int): TurnInput {
    var p := ProfileData(1000000.0, 10.0, Medium, 1);
    TurnInput(p, p, false, Input(false, 0.5, 0.0, Strategy.SelectStrategy, Reply(Some("OFFER"), Some(price), None, None)), now)
  }

  lemma FirstOfferCompletes(id: nat, price: Price, now: int)
    requires price <= 1000000.0
    ensures var turn := EngineTurn(Activated(New(id)).value, FirstOffer(price, now));
            && turn.learned && turn.result.Completed? && turn.result.terminal
            && turn.result.offer.price == price && turn.result.offer.reasoning == ""
            && turn.session.stallCounter == 0
  {
    var s, x := Activated(New(id)).value, FirstOffer(price, now);
    var v := ValuationFor(x.buyer, Buyer).value;
    assert ViolationsOf(x.buyer, Buyer, v, EnvelopeFor(Buyer, x.engine.reply, Suggested(s, v, x.engine)).value) == [];
  }

  lemma AgreedAlone(s: State, turn: Turn, now: int)
    requires s.offers == [] && IsActive(s.status) && Sound(s) && Settled(turn.session) == Settled(s)
    requires turn.result.Completed? && turn.result.terminal && FitsSession(s, turn.result.offer)
    requires turn.result.offer.reasoning == "" && turn.session.stallCounter == 0
    ensures var s' := AfterEngine(s, turn, now).session;
            && AfterEngine(s, turn, now).result.Ok?
            && s'.status == AGREED && s'.agreedPrice == Some(turn.result.offer.price)
            && |s'.offers| == 1 && LastPrice(s'.offers, Seller) == None
  {
    AfterEngineExact(s, turn, now);
    NothingInEmpty();
    var offers := AfterEngine(s, turn, now).session.offers;
    assert offers == [turn.result.offer] && offers[..0] == [];
  }

  /** With a legal threshold of one round, the buyer's first offer is agreed to with nobody on the other side. */
  lemma ThresholdCanAgreeAlone(id: nat, price: Price, now: int)
    requires price <= 1000000.0
    ensures var served := AgentTurn(Activated(New(id)).value, FirstOffer(price, now)); var s' := served.session;
            && served.result.Ok? && s'.status == AGREED && s'.agreedPrice == Some(price)
            && |s'.offers| == 1 && LastPrice(s'.offers, Seller) == None
  {
    var s, x := Activated(New(id)).value, FirstOffer(price, now);
    FirstOfferCompletes(id, price, now);
    EngineKeepsRest(s, x);
    AgreedAlone(s, EngineTurn(s, x), now);
  }

  /** Whatever is replied, no session is active after a turn whose round reaches the acting side's threshold. */
  lemma ThresholdEndsIt(s: State, x: TurnInput)
    requires IsActive(s.status) && Sound(s) && AgentTurn(s, x).result.Ok?
    requires s.roundCount + 1 >= Pick(NextProposer(s.offers), x.buyer, x.seller).stallThreshold
    ensures !IsActive(AgentTurn(s, x).session.status)
  {
    TurnExact(s, x);
    if !x.engine.expired && EngineTurn(s, x).learned && ActionOf(x.engine.reply) !in {"ACCEPT", "REJECT"} {
      LearnedStall(s, x);
    }
  }

  /** The engine looks at the offer to come, the session at the offers it has: they agree on convergence. */
  lemma ConvergenceAgrees(s: State, offer: Offer)
    requires WithOffer(s, offer).Ok?
    ensures Converged(WithOffer(s, offer).value) <==> ConvergedWith(s, offer.role, offer.price)
  {
    assert (s.offers + [offer])[..|s.offers|] == s.offers;
  }

  function AgentRun(s: State, turns: seq<TurnInput>): State {
    if turns == [] then s else AgentTurn(AgentRun(s, turns[..|turns| - 1]), turns[|turns| - 1]).session
  }

  /** How many turns of a run completed. */
  function CompletedTurns(s: State, turns: seq<TurnInput>): nat {
    if turns == [] then 0
    else
      var front, last := turns[..|turns| - 1], turns[|turns| - 1];
      CompletedTurns(s, front) + if AgentTurn(AgentRun(s, front), last).result.Ok? then 1 else 0
  }

  lemma AgentTurnKeepsSound(s: State, x: TurnInput)
    requires Sound(s)
    ensures Sound(AgentTurn(s, x).session)
  {
    if IsActive(s.status) {
      TurnExact(s, x);
    }
  }

  /** Each completed turn uses up one of the rounds that are left. */
  lemma {:induction false} RunsAreBounded(s: State, turns: seq<TurnInput>)
    requires Sound(s)
    ensures Sound(AgentRun(s, turns))
    ensures AgentRun(s, turns).roundCount == s.roundCount + CompletedTurns(s, turns) <= MAX_ROUNDS
  {
    if turns != [] {
      var front, last := turns[..|turns| - 1], turns[|turns| - 1];
      RunsAreBounded(s, front);
      var before := AgentRun(s, front);
      if IsActive(before.status) {
        TurnExact(before, last);
      }
    }
  }

  // ----- The stall counter -------------------------------------------------------------------------

  /** The offer at i changes its side's price, two positions earlier, by less than the threshold. */
  predicate Repeats(offers: seq<Offer>, i: nat)
    requires i < |offers|
  {
    i >= 2 && NoConcession(offers[i - 2].price, offers[i].price)
  }

  function TrailingRepeats(offers: seq<Offer>): nat {
    if offers == [] || !Repeats(offers, |offers| - 1) then 0 else 1 + TrailingRepeats(offers[..|offers| - 1])
  }

  /** TrailingRepeats is the length of the longest suffix in which every offer repeats. */
  lemma {:induction false} TrailingRepeatsExact(offers: seq<Offer>, k: nat)
    requires k <= |offers|
    ensures k <= TrailingRepeats(offers) <==> forall i :: |offers| - k <= i < |offers| ==> Repeats(offers, i)
    ensures TrailingRepeats(offers) <= |offers|
  {
    if offers != [] {
      var front := offers[..|offers| - 1];
      TrailingRepeatsExact(front, if k > 0 then k - 1 else 0);
      assert forall i :: 0 <= i < |front| ==> Repeats(front, i) == Repeats(offers, i);
      if k > 0 {
        assert Repeats(offers, |offers| - 1) && (forall i :: |front| - (k - 1) <= i < |front| ==> Repeats(front, i))
               ==> forall i :: |offers| - k <= i < |offers| ==> Repeats(offers, i);
      }
    }
  }

  /** In an active session reached by agent turns alone, sides alternate and the counter counts the repeats. */
  ghost predicate CounterExact(s: State) {
    IsActive(s.status) ==> Alternating(s.offers) && s.stallCounter == TrailingRepeats(s.offers)
  }

  lemma CounterStep(s: State, offer: Offer)
    requires Alternating(s.offers) && s.stallCounter == TrailingRepeats(s.offers)
    requires offer.role == NextProposer(s.offers)
    ensures Alternating(s.offers + [offer])
    ensures TrailingRepeats(s.offers + [offer]) == StallAfter(s, offer.role, offer.price)
  {
    AlternatingNext(s.offers);
    OwnLastPrice(s.offers);
    assert (s.offers + [offer])[..|s.offers|] == s.offers;
  }

  lemma TurnKeepsCounter(s: State, x: TurnInput)
    requires Sound(s) && CounterExact(s)
    ensures CounterExact(AgentTurn(s, x).session)
  {
    if IsActive(s.status) {
      TurnExact(s, x);
      EngineKeepsRest(s, x);
      var served := AgentTurn(s, x);
      if served.result.Ok? && IsActive(served.session.status) {
        StillActive(s, x);
        CounterStep(s, served.result.value);
      }
    }
  }

  lemma StillActive(s: State, x: TurnInput)
    requires IsActive(s.status) && Sound(s)
    requires AgentTurn(s, x).result.Ok? && IsActive(AgentTurn(s, x).session.status)
    ensures AgentTurn(s, x).session.stallCounter
            == StallAfter(s, NextProposer(s.offers), AgentTurn(s, x).result.value.price)
  {
    EngineKeepsRest(s, x);
    TurnIsRegular(s, x.buyer, x.seller, x.engine);
    StillActiveAfter(s, x, EngineTurn(s, x));
  }

  lemma StillActiveAfter(s: State, x: TurnInput, turn: Turn)
    requires IsActive(s.status) && Sound(s) && Settled(turn.session) == Settled(s)
    requires turn.result.Completed? ==> FitsSession(s, turn.result.offer)
    requires if x.engine.expired then turn.result.Completed? && turn.result.terminal
             else Regular(s, Pick(NextProposer(s.offers), x.buyer, x.seller), x.engine.reply, turn)
    requires AfterEngine(s, turn, x.now).result.Ok? && IsActive(AfterEngine(s, turn, x.now).session.status)
    ensures AfterEngine(s, turn, x.now).session.stallCounter
            == StallAfter(s, NextProposer(s.offers), AfterEngine(s, turn, x.now).result.value.price)
  {
    AfterEngineExact(s, turn, x.now);
  }

  /** At any point of any run of agent turns from a new session, with any replies, errors and profiles. */
  lemma {:induction false} StallCounterExact(id: nat, turns: seq<TurnInput>)
    ensures var s := AgentRun(Activated(New(id)).value, turns); Sound(s) && CounterExact(s)
  {
    if turns != [] {
      var front, last := turns[..|turns| - 1], turns[|turns| - 1];
      StallCounterExact(id, front);
      var s := AgentRun(Activated(New(id)).value, front);
      AgentTurnKeepsSound(s, last);
      TurnKeepsCounter(s, last);
    }
  }
}
