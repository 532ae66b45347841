/**
 What a turn does, told in numbers and words from outside: prices, confidences, ceilings and tags
 against the state, without the functions the engine and the service are made of.
 */
module TurnOutcomes {
  import opened Wrappers
  import opened Money
  import opened Offers
  import opened Valuation
  import opened Policies
  import opened Session
  import opened Engine
  import opened AgentTurns
  import opened Texts
  import Strategy

  // ----- What the strategy is asked ------------------------------------------------------------------

  /**
   In a session in which the sides have alternated, the strategy is given the side's own last price
   from two offers back, the opponent's from the last offer, and the number of offers made.
   */
  lemma ContextExact(s: State, v: Valuation, flexibility: real, curve: Fraction)
    requires Sound(s) && Alternating(s.offers)
    ensures var c := ContextFor(s, v, flexibility, curve); var n := |s.offers|;
            && c.round == n && (c.isBuyer <==> n % 2 == 0)
            && c.myLast == (if n < 2 then None else Some(s.offers[n - 2].price))
            && c.opponentLast == (if n < 1 then None else Some(s.offers[n - 1].price))
            && c.reservation == v.reservation && c.target == v.target
            && c.flexibility == flexibility && c.sinceConcession == s.stallCounter && c.deadlineCurve == curve
  {
    AlternatingNext(s.offers);
    OwnLastPrice(s.offers);
  }

  /** The history a side learns from is the other side's: every second offer, back from the last. */
  lemma TheirsExact(s: State, k: nat)
    requires Alternating(s.offers) && 2 * k < |s.offers|
    ensures k < |Theirs(s)| && Theirs(s)[|Theirs(s)| - 1 - k] == s.offers[|s.offers| - 1 - 2 * k].price
    ensures KeyOf(s) == Key(s.id, if |s.offers| % 2 == 0 then Buyer else Seller)
  {
    AlternatingNext(s.offers);
    OpponentHistory(s.offers, k);
  }

  /** The flexibility of a belief: its weight on cooperative and half its weight on strategic. */
  lemma FlexibilityExact(cooperative: real, strategic: real, stubborn: real, bluffing: real)
    ensures Flexibility([cooperative, strategic, stubborn, bluffing]) == cooperative + strategic / 2.0
  {
  }

  // ----- Proposals --------------------------------------------------------------------------------------

  /** The side to move's own bound is broken, or the model is not sure enough. */
  predicate Objectionable(s: State, buyer: Profile, seller: Profile, price: real, confidence: real) {
    || confidence < 0.10
    || (if NextProposer(s.offers) == Buyer then price > buyer.ceiling
        else price < SellerValuation(seller.ceiling * 0.60, seller.marginFloor, seller.appetite).reservation)
  }

  /** An OFFER or COUNTER at price P with confidence c, on a session whose side to move has a valuation. */
  ghost predicate ProposalOf(s: State, buyer: Profile, seller: Profile, x: Input, price: real, confidence: real, advice: real) {
    var role := NextProposer(s.offers);
    && !x.expired && x.reply.Reply? && x.reply.action in {None, Some("OFFER"), Some("COUNTER")}
    && (role == Buyer ==> buyer.ceiling > 0.0)
    && ValuationFor(if role == Buyer then buyer else seller, role).Ok?
    && advice == x.strategist(ContextFor(s, ValuationFor(if role == Buyer then buyer else seller, role).value,
                                         x.flexibility, x.deadlineCurve)).price
    && price == (if x.reply.price.Some? then x.reply.price.value else advice) && price >= 0.0
    && confidence == (if x.reply.confidence.Some? then x.reply.confidence.value else 0.5) && 0.0 <= confidence <= 1.0
  }

  /** What a proposal of the buyer may be cut to. */
  function Cut(s: State, buyer: Profile, price: real): real {
    if NextProposer(s.offers) == Buyer && price > buyer.ceiling then buyer.ceiling else price
  }

  /** The failure counted or not, then a breach, an error, or the offer as it was sent. */
  ghost predicate ProposalTells(s: State, turn: Turn, objected: bool, sent: real, confidence: real, words: string) {
    && turn.session.schemaFailures == s.schemaFailures + (if objected then 1 else 0)
    && if objected && s.schemaFailures + 1 >= 3 then
         && turn.result.Completed? && turn.result.terminal && !turn.learned
         && turn.result.offer == Offer(s.id, s.roundCount + 1, NextProposer(s.offers), 1.0, Some(0.0),
                                       "POLICY_BREACH" + ": Schema validation failed 3 times.", false)
       else if sent <= 0.0 then turn.result == Raised(ValidationError)
       else
         && turn.learned && turn.result.Completed?
         && turn.result.offer == Offer(s.id, s.roundCount + 1, NextProposer(s.offers), sent, Some(confidence),
                                       if objected then "Guardrail override: " + words else words, false)
  }

  /**
   A schema failure is counted exactly when the proposal is objectionable. A third one is a breach.
   Short of that an objectionable proposal goes out at the strategist's price, for a buyer cut to
   the ceiling, and says so; any other goes out as the model made it.
   */
  lemma ProposalExact(s: State, buyer: Profile, seller: Profile, x: Input, price: real, confidence: real, advice: real)
    requires ProposalOf(s, buyer, seller, x, price, confidence, advice)
    ensures var turn := TakeTurn(s, buyer, seller, x);
            var objected := Objectionable(s, buyer, seller, price, confidence);
            var words := if x.reply.reasoning.Some? then x.reply.reasoning.value else "";
            var sent := if objected then Cut(s, buyer, advice) else price;
            ProposalTells(s, turn, objected, sent, confidence, words)
  {
    var role := NextProposer(s.offers);
    var p := Pick(role, buyer, seller);
    TurnOrderExact(s.offers, role);
    AdvisedProposalExact(s, p, ValuationFor(p, role).value, advice, x.reply, price, confidence);
  }

  /** The guardrail as the engine uses it, in the reply's own numbers. */
  lemma ObjectionExact(p: Profile, role: Role, v: Valuation, advice: real, r: Reply, price: real, confidence: real)
    requires r.Reply? && r.action in {None, Some("OFFER"), Some("COUNTER")}
    requires price == (if r.price.Some? then r.price.value else advice) && price >= 0.0
    requires confidence == (if r.confidence.Some? then r.confidence.value else 0.5) && 0.0 <= confidence <= 1.0
    requires role == Buyer ==> p.ceiling > 0.0
    ensures Proposing(r) && EnvelopeFor(role, r, advice).Ok? && PriceOr(r, advice) == price && ConfidenceOf(r) == confidence
    ensures Overridden(p, role, v, advice, r) <==>
              confidence < 0.10 || (if role == Buyer then price > p.ceiling else price < v.reservation)
  {
  }

  lemma DecisionExact(s: State, p: Profile, role: Role, v: Valuation, advice: real, r: Reply, price: real, confidence: real)
    requires r.Reply? && r.action in {None, Some("OFFER"), Some("COUNTER")}
    requires price == (if r.price.Some? then r.price.value else advice) && price >= 0.0
    requires confidence == (if r.confidence.Some? then r.confidence.value else 0.5) && 0.0 <= confidence <= 1.0
    requires role == Buyer ==> p.ceiling > 0.0
    ensures var objected := confidence < 0.10 || (if role == Buyer then price > p.ceiling else price < v.reservation);
            var words := if r.reasoning.Some? then r.reasoning.value else "";
            && Decide(s, p, role, v, advice, r) ==
               (if !objected then Chosen(price, false, words)
                else if s.schemaFailures + 1 >= 3 then Breach
                else Chosen(if role == Buyer && advice > p.ceiling then p.ceiling else advice, false, "Guardrail override: " + words))
            && Failures(s, p, role, v, advice, r) == s.(schemaFailures := s.schemaFailures + if objected then 1 else 0)
  {
    ObjectionExact(p, role, v, advice, r, price, confidence);
  }

  lemma AdvisedAs(s: State, p: Profile, v: Valuation, advice: real, r: Reply, price: real, confidence: real)
    requires r.Reply? && r.action in {None, Some("OFFER"), Some("COUNTER")}
    requires price == (if r.price.Some? then r.price.value else advice) && price >= 0.0
    requires confidence == (if r.confidence.Some? then r.confidence.value else 0.5) && 0.0 <= confidence <= 1.0
    requires NextProposer(s.offers) == Buyer ==> p.ceiling > 0.0
    ensures var role := NextProposer(s.offers); var counted := s.(schemaFailures := s.schemaFailures + 1);
            var objected := confidence < 0.10 || (if role == Buyer then price > p.ceiling else price < v.reservation);
            var words := if r.reasoning.Some? then r.reasoning.value else "";
            Advised(s, p, v, advice, r) ==
              if !objected then Conclude(s, p, role, r, Chosen(price, false, words))
              else if s.schemaFailures + 1 >= 3 then Turn(counted, Completed(Placeholder(s, role, BREACH_TEXT), true), false)
              else Conclude(counted, p, role, r,
                            Chosen(if role == Buyer && advice > p.ceiling then p.ceiling else advice, false,
                                   "Guardrail override: " + words))
  {
    DecisionExact(s, p, NextProposer(s.offers), v, advice, r, price, confidence);
  }

  lemma SentExact(s: State, p: Profile, r: Reply, sent: real, text: string)
    requires r.Reply? && 0.0 <= ConfidenceOf(r) <= 1.0
    ensures var role := NextProposer(s.offers); var turn := Conclude(s, p, role, r, Chosen(sent, false, text));
            && turn.session.schemaFailures == s.schemaFailures
            && if sent <= 0.0 then turn.result == Raised(ValidationError)
               else
                 && turn.learned && turn.result.Completed?
                 && turn.result.offer == Offer(s.id, s.roundCount + 1, role, sent, Some(ConfidenceOf(r)), text, false)
  {
  }

  lemma AdvisedProposalExact(s: State, p: Profile, v: Valuation, advice: real, r: Reply, price: real, confidence: real)
    requires r.Reply? && r.action in {None, Some("OFFER"), Some("COUNTER")}
    requires price == (if r.price.Some? then r.price.value else advice) && price >= 0.0
    requires confidence == (if r.confidence.Some? then r.confidence.value else 0.5) && 0.0 <= confidence <= 1.0
    requires NextProposer(s.offers) == Buyer ==> p.ceiling > 0.0
    ensures var turn := Advised(s, p, v, advice, r); var role := NextProposer(s.offers);
            var objected := confidence < 0.10 || (if role == Buyer then price > p.ceiling else price < v.reservation);
            var words := if r.reasoning.Some? then r.reasoning.value else "";
            var sent := if !objected then price else if role == Buyer && advice > p.ceiling then p.ceiling else advice;
            ProposalTells(s, turn, objected, sent, confidence, words)
  {
    var role := NextProposer(s.offers);
    var objected := confidence < 0.10 || (if role == Buyer then price > p.ceiling else price < v.reservation);
    var words := if r.reasoning.Some? then r.reasoning.value else "";
    ObjectionExact(p, role, v, advice, r, price, confidence);
    AdvisedAs(s, p, v, advice, r, price, confidence);
    if !objected {
      SentExact(s, p, r, price, words);
    } else if s.schemaFailures + 1 < 3 {
      var sent := if role == Buyer && advice > p.ceiling then p.ceiling else advice;
      SentExact(s.(schemaFailures := s.schemaFailures + 1), p, r, sent, "Guardrail override: " + words);
    }
  }

  /** A reply with none of its fields is an OFFER at the suggested price, of confidence one half, without words. */
  lemma EmptyReply(s: State, buyer: Profile, seller: Profile, x: Input)
    requires !x.expired && x.reply == Reply(None, None, None, None) && NextProposer(s.offers) == Buyer && buyer.ceiling > 0.0
    requires var advice := Suggested(s, ValuationFor(buyer, Buyer).value, x); 0.0 < advice <= buyer.ceiling
    ensures TakeTurn(s, buyer, seller, x).result.Completed?
    ensures TakeTurn(s, buyer, seller, x).result.offer ==
            Offer(s.id, s.roundCount + 1, Buyer, Suggested(s, ValuationFor(buyer, Buyer).value, x), Some(0.5), "", false)
  {
    var advice := Suggested(s, ValuationFor(buyer, Buyer).value, x);
    ProposalExact(s, buyer, seller, x, advice, 0.5, advice);
  }

  /** The side to move has a valuation, and the model replied with an action other than OFFER and COUNTER. */
  ghost predicate OtherReply(s: State, buyer: Profile, seller: Profile, x: Input, action: string, advice: real) {
    var role := NextProposer(s.offers);
    && !x.expired && x.reply.Reply? && x.reply.action == Some(action) && action != "OFFER" && action != "COUNTER"
    && ValuationFor(if role == Buyer then buyer else seller, role).Ok?
    && advice == x.strategist(ContextFor(s, ValuationFor(if role == Buyer then buyer else seller, role).value,
                                         x.flexibility, x.deadlineCurve)).price
  }

  /** An acceptance goes out at the standing price, a rejection at 1 for want of a positive one, anything else as named. */
  ghost predicate OtherPrice(s: State, action: string, named: real, price: real) {
    price == if action == "ACCEPT" && LastPrice(s.offers, Other(NextProposer(s.offers))).Some?
             then LastPrice(s.offers, Other(NextProposer(s.offers))).value
             else if action == "REJECT" && named <= 0.0 then 1.0 else named
  }

  /** What is sent outside the guardrail; no schema failure is ever counted for it. */
  lemma OtherReplyExact(s: State, buyer: Profile, seller: Profile, x: Input, action: string, advice: real, price: real, confidence: real)
    requires OtherReply(s, buyer, seller, x, action, advice)
    requires OtherPrice(s, action, if x.reply.price.Some? then x.reply.price.value else advice, price)
    requires confidence == (if x.reply.confidence.Some? then x.reply.confidence.value else 0.5) && 0.0 <= confidence <= 1.0
    ensures var turn := TakeTurn(s, buyer, seller, x);
            var words := if x.reply.reasoning.Some? then x.reply.reasoning.value else "";
            && turn.session.schemaFailures == s.schemaFailures
            && if price <= 0.0 then turn.result == Raised(ValidationError)
               else
                 && turn.learned && turn.result.Completed? && (action == "ACCEPT" || action == "REJECT" ==> turn.result.terminal)
                 && turn.result.offer == Offer(s.id, s.roundCount + 1, NextProposer(s.offers), price, Some(confidence),
                                               if action == "REJECT" then "REJECT: " + words else words, false)
  {
    var role := NextProposer(s.offers);
    TurnOrderExact(s.offers, role);
    AdvisedOther(s, Pick(role, buyer, seller), ValuationFor(Pick(role, buyer, seller), role).value, advice, x.reply, action, price);
  }

  lemma AdvisedOther(s: State, p: Profile, v: Valuation, advice: real, r: Reply, action: string, price: real)
    requires r.Reply? && r.action == Some(action) && action != "OFFER" && action != "COUNTER"
    requires OtherPrice(s, action, if r.price.Some? then r.price.value else advice, price)
    ensures var words := if r.reasoning.Some? then r.reasoning.value else "";
            Advised(s, p, v, advice, r) ==
              Conclude(s, p, NextProposer(s.offers), r,
                       Chosen(price, action == "ACCEPT" || action == "REJECT", if action == "REJECT" then "REJECT: " + words else words))
  {
  }

  /** A session the engine finds expired: a placeholder of the side to move at one rupee, and the end. */
  lemma TimeoutExact(s: State, buyer: Profile, seller: Profile, x: Input)
    requires x.expired
    ensures TakeTurn(s, buyer, seller, x) ==
            Turn(s, Completed(Offer(s.id, s.roundCount + 1, NextProposer(s.offers), 1.0, Some(0.0),
                                    "TIMEOUT" + ": Session TTL expired.", false), true), false)
  {
  }

  // ----- How a terminal turn ends ---------------------------------------------------------------------------

  /**
   A completed turn that reached its end and is terminal stores: WALK_AWAY if the model's words
   contain REJECTED or WALK_AWAY, otherwise POLICY_BREACH or TIMEOUT if they contain that, in this
   order, otherwise HUMAN_REVIEW from three stalled rounds on, and otherwise AGREED.
   */
  lemma TerminalExact(s: State, x: TurnInput)
    requires IsActive(s.status) && Sound(s) && !x.engine.expired && AgentTurn(s, x).result.Ok?
    requires EngineTurn(s, x).learned && EngineTurn(s, x).result.terminal
    ensures x.engine.reply.Reply?
    ensures var words := if x.engine.reply.reasoning.Some? then x.engine.reply.reasoning.value else "";
            AgentTurn(s, x).session.status ==
              if Contains(words, "REJECTED") || Contains(words, "WALK_AWAY") then WALK_AWAY
              else if Contains(words, "POLICY_BREACH") then POLICY_BREACH
              else if Contains(words, "TIMEOUT") then TIMEOUT
              else if EngineTurn(s, x).session.stallCounter >= 3 then HUMAN_REVIEW
              else AGREED
  {
    TurnExact(s, x);
    EndingExact(s, x);
    TurnIsRegular(s, x.buyer, x.seller, x.engine);
  }

  /** The placeholders end as what they are. */
  lemma PlaceholderExact(s: State, x: TurnInput)
    requires IsActive(s.status) && Sound(s) && AgentTurn(s, x).result.Ok? && (x.engine.expired || !EngineTurn(s, x).learned)
    ensures AgentTurn(s, x).session.status == if x.engine.expired then TIMEOUT else POLICY_BREACH
  {
    TurnExact(s, x);
    EndingExact(s, x);
    TurnIsRegular(s, x.buyer, x.seller, x.engine);
  }

  /**
   In agent-only runs the counter a proposal is judged by is the number of trailing repeats among
   the stored offers, its own included; an acceptance or a rejection is judged by those before it.
   */
  lemma CounterExactAtEnd(id: nat, front: seq<TurnInput>, x: TurnInput)
    requires var s := AgentRun(Activated(New(id)).value, front);
             IsActive(s.status) && !x.engine.expired && EngineTurn(s, x).learned && AgentTurn(s, x).result.Ok?
    ensures x.engine.reply.Reply?
    ensures var s := AgentRun(Activated(New(id)).value, front); var served := AgentTurn(s, x);
            EngineTurn(s, x).session.stallCounter ==
              if x.engine.reply.action in {Some("ACCEPT"), Some("REJECT")} then TrailingRepeats(s.offers)
              else TrailingRepeats(served.session.offers)
  {
    var s := AgentRun(Activated(New(id)).value, front);
    StallCounterExact(id, front);
    TurnExact(s, x);
    TurnIsRegular(s, x.buyer, x.seller, x.engine);
    EngineKeepsRest(s, x);
    CounterStep(s, AgentTurn(s, x).result.value);
  }

  /** Three proposals in a row without a concession are stalled, not agreed, in whatever way the run ends with a proposal. */
  lemma StalledProposalExact(id: nat, front: seq<TurnInput>, x: TurnInput)
    requires var s := AgentRun(Activated(New(id)).value, front);
             && IsActive(s.status) && !x.engine.expired && EngineTurn(s, x).learned && AgentTurn(s, x).result.Ok?
             && EngineTurn(s, x).result.terminal && x.engine.reply.Reply?
             && x.engine.reply.action !in {Some("ACCEPT"), Some("REJECT")}
             && var words := if x.engine.reply.reasoning.Some? then x.engine.reply.reasoning.value else "";
                !Contains(words, "REJECTED") && !Contains(words, "WALK_AWAY")
                && !Contains(words, "POLICY_BREACH") && !Contains(words, "TIMEOUT")
    ensures var s' := AgentTurn(AgentRun(Activated(New(id)).value, front), x).session;
            s'.status == if TrailingRepeats(s'.offers) >= 3 then HUMAN_REVIEW else AGREED
  {
    var s := AgentRun(Activated(New(id)).value, front);
    StallCounterExact(id, front);
    CounterExactAtEnd(id, front, x);
    TerminalExact(s, x);
  }

  ghost predicate TellsCount(status: Status, offers: nat) {
    status == if offers == 0 then BUYER_ANCHOR else if offers == 1 then SELLER_RESPONSE else ROUND_LOOP
  }

  /** In agent-only runs an active session's state tells how many offers have been made. */
  ghost predicate StatusTellsOffers(s: State) {
    Sound(s) && (IsActive(s.status) ==> Alternating(s.offers) && TellsCount(s.status, |s.offers|))
  }

  lemma TurnKeepsStatus(s: State, x: TurnInput)
    requires StatusTellsOffers(s) && CounterExact(s)
    ensures StatusTellsOffers(AgentTurn(s, x).session)
  {
    AgentTurnKeepsSound(s, x);
    TurnKeepsCounter(s, x);
    if IsActive(s.status) {
      TurnTellsCount(s, x);
    }
  }

  lemma TurnTellsCount(s: State, x: TurnInput)
    requires IsActive(s.status) && Sound(s) && Alternating(s.offers) && TellsCount(s.status, |s.offers|)
    ensures var s' := AgentTurn(s, x).session; IsActive(s'.status) ==> TellsCount(s'.status, |s'.offers|)
  {
    TurnExact(s, x);
    EngineKeepsRest(s, x);
    if AgentTurn(s, x).result.Ok? && IsActive(AgentTurn(s, x).session.status) {
      AddedStatus(s, EngineTurn(s, x), x.now);
      NextTellsCount(s, EngineTurn(s, x).result.offer);
    }
  }

  lemma NextTellsCount(s: State, offer: Offer)
    requires Alternating(s.offers) && TellsCount(s.status, |s.offers|) && FitsSession(s, offer)
    ensures TellsCount(NextStatus(s.status, s.offers + [offer], offer), |s.offers| + 1)
  {
    AlternatingNext(s.offers);
  }

  lemma AddedStatus(s: State, turn: Turn, now: int)
    requires IsActive(s.status) && Sound(s) && Settled(turn.session) == Settled(s)
    requires turn.result.Completed? ==> FitsSession(s, turn.result.offer)
    requires AfterEngine(s, turn, now).result.Ok? && IsActive(AfterEngine(s, turn, now).session.status)
    ensures turn.result.Completed?
    ensures AfterEngine(s, turn, now).session.status == NextStatus(s.status, s.offers + [turn.result.offer], turn.result.offer)
  {
    AfterEngineExact(s, turn, now);
  }

  lemma {:induction false} RunStatusExact(id: nat, turns: seq<TurnInput>)
    ensures StatusTellsOffers(AgentRun(Activated(New(id)).value, turns))
  {
    if turns != [] {
      var front, last := turns[..|turns| - 1], turns[|turns| - 1];
      RunStatusExact(id, front);
      StallCounterExact(id, front);
      TurnKeepsStatus(AgentRun(Activated(New(id)).value, front), last);
    }
  }
}
