/**
 NeutralEngine.process_turn: valuation, strategy, the model's advice and the guardrail's veto make
 one offer and say whether the negotiation ends with it. What the model replies, whether the
 session has expired, and the value of the deadline curve are inputs.
 */
module Engine {
  import opened Wrappers
  import opened Money
  import opened Offers
  import opened Valuation
  import opened Policies
  import opened Session
  import Guardrails
  import Strategy
  import Belief = OpponentModel

  /** The action is given in upper case; a missing field has a default; a failing call or an unreadable reply raises. */
  datatype Reply =
    | Reply(action: Option<string>, price: Option<real>, confidence: Option<real>, reasoning: Option<string>)
    | Failing

  type Fraction = x: real | 0.0 <= x <= 1.0

  /** The strategy engine is injected into the engine; the default one is Strategy.SelectStrategy. */
  type Strategist = Strategy.Context -> Strategy.Recommendation

  datatype Input = Input(expired: bool, flexibility: real, deadlineCurve: Fraction, strategist: Strategist, reply: Reply)

  datatype TurnResult = Completed(offer: Offer, terminal: bool) | Raised(error: Error)

  /** learned: the turn got as far as updating the beliefs. */
  datatype Turn = Turn(session: State, result: TurnResult, learned: bool)

  // ----- The reply with its defaults -----------------------------------------------------------------

  function ActionOf(r: Reply): string
    requires r.Reply?
  {
    if r.action.Some? then r.action.value else "OFFER"
  }

  function PriceOr(r: Reply, suggested: real): real
    requires r.Reply?
  {
    if r.price.Some? then r.price.value else suggested
  }

  function ConfidenceOf(r: Reply): real
    requires r.Reply?
  {
    if r.confidence.Some? then r.confidence.value else 0.5
  }

  function ReasoningOf(r: Reply): string
    requires r.Reply?
  {
    if r.reasoning.Some? then r.reasoning.value else ""
  }

  predicate Proposing(r: Reply) {
    r.Reply? && (ActionOf(r) == "OFFER" || ActionOf(r) == "COUNTER")
  }

  // ----- Layers 1 to 4 as functions ------------------------------------------------------------------

  function Pick<T>(role: Role, buyer: T, seller: T): T {
    if role == Buyer then buyer else seller
  }

  function ContextFor(s: State, v: Valuation, flexibility: real, curve: Fraction): Strategy.Context {
    var role := NextProposer(s.offers);
    Strategy.Context(s.roundCount, LastPrice(s.offers, role), LastPrice(s.offers, Other(role)),
                     v.reservation, v.target, flexibility, s.stallCounter, role == Buyer, curve)
  }

  function EnvelopeFor(role: Role, r: Reply, suggested: real): Result<Guardrails.Envelope, Error>
    requires Proposing(r)
  {
    Guardrails.CreateEnvelope(role, if ActionOf(r) == "OFFER" then Guardrails.OfferAction else Guardrails.CounterAction,
                              PriceOr(r, suggested), ConfidenceOf(r))
  }

  function ViolationsOf(p: Profile, role: Role, v: Valuation, e: Guardrails.Envelope): seq<Guardrails.Violation> {
    Guardrails.Violations(e, v.reservation, if role == Buyer then Some(p.ceiling) else None, None,
                          if role == Seller then Some(p.marginFloor) else None)
  }

  /** The budget guard: a buyer's price above the ceiling is cut to it. */
  function Clamped(p: Profile, role: Role, price: real): real {
    if role == Buyer && CheckBudget(price, p.ceiling).Some? then Min(price, p.ceiling) else price
  }

  datatype Decision =
    | Abort(error: Error)
    | Breach
    | Chosen(price: real, closing: bool, text: string)

  predicate Overridden(p: Profile, role: Role, v: Valuation, suggested: real, r: Reply) {
    && Proposing(r) && EnvelopeFor(role, r, suggested).Ok?
    && ViolationsOf(p, role, v, EnvelopeFor(role, r, suggested).value) != []
  }

  function DecideProposal(p: Profile, role: Role, v: Valuation, suggested: real, failures: nat, r: Reply): Decision
    requires Proposing(r)
  {
    if EnvelopeFor(role, r, suggested).Err? then Abort(EnvelopeFor(role, r, suggested).error)
    else if !Overridden(p, role, v, suggested, r) then
      Chosen(Clamped(p, role, PriceOr(r, suggested)), false, ReasoningOf(r))
    else if failures + 1 >= MAX_SCHEMA_FAILURES then Breach
    else Chosen(Clamped(p, role, suggested), false, "Guardrail override: " + ReasoningOf(r))
  }

  /** An unknown action counts as a counter-offer and escapes the guardrail. */
  function Decide(s: State, p: Profile, role: Role, v: Valuation, suggested: real, r: Reply): Decision
    requires r.Reply?
  {
    if Proposing(r) then DecideProposal(p, role, v, suggested, s.schemaFailures, r)
    else if ActionOf(r) == "ACCEPT" then
      var theirs := LastPrice(s.offers, Other(role));
      Chosen(if theirs.Some? then theirs.value else PriceOr(r, suggested), true, ReasoningOf(r))
    else if ActionOf(r) == "REJECT" then
      Chosen(if PriceOr(r, suggested) > 0.0 then PriceOr(r, suggested) else 1.0, true, "REJECT: " + ReasoningOf(r))
    else Chosen(PriceOr(r, suggested), false, ReasoningOf(r))
  }

  /** A price counts as no concession when it is within 0.2% of the same side's last one. */
  function StallAfter(s: State, role: Role, price: real): nat {
    var mine := LastPrice(s.offers, role);
    if mine.Some? && NoConcession(mine.value, price) then s.stallCounter + 1 else 0
  }

  predicate ConvergedWith(s: State, role: Role, price: real) {
    CheckConvergence(if role == Buyer then Some(price) else LastPrice(s.offers, Buyer),
                     if role == Seller then Some(price) else LastPrice(s.offers, Seller))
  }

  const TIMEOUT_TEXT: string := "TIMEOUT" + ": Session TTL expired."
  const BREACH_TEXT: string := "POLICY_BREACH" + ": Schema validation failed 3 times."

  function Placeholder(s: State, role: Role, text: string): Offer {
    Offer(s.id, s.roundCount + 1, role, 1.0, Some(0.0), text, false)
  }

  /** From the decision on: create the offer, count concessions, look for convergence and the round limit. */
  function Conclude(s: State, p: Profile, role: Role, r: Reply, d: Decision): Turn
    requires r.Reply? && d.Chosen?
  {
    var offer := CreateAgentOffer(s.id, s.roundCount + 1, role, d.price, ConfidenceOf(r), d.text);
    if offer.Err? then Turn(s, Raised(offer.error), false)
    else if d.closing then Turn(s, Completed(offer.value, true), true)
    else
      Turn(s.(stallCounter := StallAfter(s, role, d.price)),
           Completed(offer.value, ConvergedWith(s, role, d.price) || CheckStall(s.roundCount + 1, p.stallThreshold)),
           true)
  }

  function Suggested(s: State, v: Valuation, x: Input): real {
    x.strategist(ContextFor(s, v, x.flexibility, x.deadlineCurve)).price
  }

  function Failures(s: State, p: Profile, role: Role, v: Valuation, suggested: real, r: Reply): State
    requires r.Reply?
  {
    if Overridden(p, role, v, suggested, r) then s.(schemaFailures := s.schemaFailures + 1) else s
  }

  /** Layers 3 and 4 on the strategy's suggestion. */
  function Advised(s: State, p: Profile, v: Valuation, suggested: real, r: Reply): Turn {
    var role := NextProposer(s.offers);
    if r.Failing? then Turn(s, Raised(LlmError), false)
    else
      var counted := Failures(s, p, role, v, suggested, r);
      var d := Decide(s, p, role, v, suggested, r);
      match d
      case Abort(e) => Turn(counted, Raised(e), false)
      case Breach => Turn(counted, Completed(Placeholder(s, role, BREACH_TEXT), true), false)
      case Chosen(_, _, _) => Conclude(counted, p, role, r, d)
  }

  function TakeTurn(s: State, buyer: Profile, seller: Profile, x: Input): Turn {
    var role := NextProposer(s.offers);
    var p := Pick(role, buyer, seller);
    if x.expired then Turn(s, Completed(Placeholder(s, role, TIMEOUT_TEXT), true), false)
    else if CheckTurnOrder(s.offers, role).Some? then Turn(s, Raised(CheckTurnOrder(s.offers, role).value), false)
    else
      var v := ValuationFor(p, role);
      if v.Err? then Turn(s, Raised(v.error), false)
      else Advised(s, p, v.value, Suggested(s, v.value, x), x.reply)
  }

  /**
   The price of a turn the guardrail does not see: the counterparty's own last one for an
   acceptance, when there is one, and otherwise the one the model names, or the suggested one; a
   rejection at a price that is not positive goes out at 1.
   */
  function UnguardedPrice(s: State, buyer: Profile, seller: Profile, x: Input): real
    requires x.reply.Reply?
  {
    var role := NextProposer(s.offers);
    var v := ValuationFor(Pick(role, buyer, seller), role);
    Unguarded(s, role, x.reply, if v.Ok? then Suggested(s, v.value, x) else 0.0)
  }

  function Unguarded(s: State, role: Role, r: Reply, suggested: real): real
    requires r.Reply?
  {
    var theirs := LastPrice(s.offers, Other(role));
    if ActionOf(r) == "ACCEPT" && theirs.Some? then theirs.value
    else if ActionOf(r) == "REJECT" && PriceOr(r, suggested) <= 0.0 then 1.0
    else PriceOr(r, suggested)
  }

  lemma AdvisedUnguarded(s: State, p: Profile, v: Valuation, suggested: real, r: Reply)
    requires r.Reply? && !Proposing(r)
    ensures var turn := Advised(s, p, v, suggested, r);
            && (turn.result.Completed? <==> Unguarded(s, NextProposer(s.offers), r, suggested) > 0.0 && 0.0 <= ConfidenceOf(r) <= 1.0)
            && (turn.result.Completed? ==> turn.learned && turn.result.offer.price == Unguarded(s, NextProposer(s.offers), r, suggested))
  {
  }

  /** Outside the guardrail every action goes through at that price, if it is positive and the confidence a fraction. */
  lemma UnguardedExact(s: State, buyer: Profile, seller: Profile, x: Input)
    requires !x.expired && x.reply.Reply? && !Proposing(x.reply)
    ensures var role := NextProposer(s.offers); var turn := TakeTurn(s, buyer, seller, x);
            && (turn.result.Completed? <==>
                  && ValuationFor(Pick(role, buyer, seller), role).Ok?
                  && UnguardedPrice(s, buyer, seller, x) > 0.0 && 0.0 <= ConfidenceOf(x.reply) <= 1.0)
            && (turn.result.Completed? ==>
                  turn.learned && turn.result.offer.price == UnguardedPrice(s, buyer, seller, x))
  {
    var role := NextProposer(s.offers);
    var p := Pick(role, buyer, seller);
    var v := ValuationFor(p, role);
    TurnOrderExact(s.offers, role);
    if v.Ok? {
      AdvisedUnguarded(s, p, v.value, Suggested(s, v.value, x), x.reply);
    }
  }

  // ----- What every turn keeps -----------------------------------------------------------------------

  ghost predicate FitsSession(s: State, offer: Offer) {
    offer.sessionId == s.id && offer.round == s.roundCount + 1 && offer.role == NextProposer(s.offers) && !offer.isHuman
  }

  /** The text is the model's own, perhaps behind one of the engine's two prefixes. */
  predicate Quotes(text: string, words: string) {
    text == words || text == "REJECT: " + words || text == "Guardrail override: " + words
  }

  predicate Closing(r: Reply)
    requires r.Reply?
  {
    ActionOf(r) == "ACCEPT" || ActionOf(r) == "REJECT"
  }

  lemma DecisionShape(s: State, p: Profile, role: Role, v: Valuation, suggested: real, r: Reply)
    requires r.Reply?
    ensures var d := Decide(s, p, role, v, suggested, r);
            && d != Abort(ConflictError)
            && (d.Chosen? ==> Quotes(d.text, ReasoningOf(r)) && d.closing == Closing(r))
  {
  }

  lemma ConclusionShape(s: State, p: Profile, r: Reply, d: Decision)
    requires r.Reply? && d.Chosen?
    ensures var role := NextProposer(s.offers); var turn := Conclude(s, p, role, r, d);
            && Settled(turn.session) == Settled(s) && turn.learned == turn.result.Completed?
            && turn.result != Raised(ConflictError)
            && (turn.learned ==>
                  && FitsSession(s, turn.result.offer) && turn.result.offer.reasoning == d.text
                  && turn.result.offer.price == d.price
                  && turn.session.stallCounter == (if d.closing then s.stallCounter else StallAfter(s, role, d.price))
                  && (turn.result.terminal <==>
                        d.closing || ConvergedWith(s, role, d.price) || CheckStall(s.roundCount + 1, p.stallThreshold)))
  {
  }

  /** What is common to every turn that reaches its end: which fields move, whose offer it is, when it is terminal. */
  ghost predicate Regular(s: State, p: Profile, r: Reply, turn: Turn) {
    && Settled(turn.session) == Settled(s) && turn.result != Raised(ConflictError)
    && (turn.learned ==> turn.result.Completed? && r.Reply?)
    && (turn.result.Completed? ==>
          && FitsSession(s, turn.result.offer)
          && (!turn.learned ==> turn.result.offer.reasoning == BREACH_TEXT && turn.result.terminal)
          && (turn.learned ==>
                var role := NextProposer(s.offers); var price := turn.result.offer.price;
                && Quotes(turn.result.offer.reasoning, ReasoningOf(r))
                && turn.session.stallCounter == (if Closing(r) then s.stallCounter else StallAfter(s, role, price))
                && (turn.result.terminal <==>
                      Closing(r) || ConvergedWith(s, role, price) || CheckStall(s.roundCount + 1, p.stallThreshold))))
  }

  lemma AdvisedIsRegular(s: State, p: Profile, v: Valuation, suggested: real, r: Reply)
    ensures Regular(s, p, r, Advised(s, p, v, suggested, r))
  {
    if r.Reply? {
      var role := NextProposer(s.offers);
      var d := Decide(s, p, role, v, suggested, r);
      var counted := Failures(s, p, role, v, suggested, r);
      DecisionShape(s, p, role, v, suggested, r);
      if d.Chosen? {
        ConclusionShape(counted, p, r, d);
        assert StallAfter(counted, role, d.price) == StallAfter(s, role, d.price);
        assert ConvergedWith(counted, role, d.price) == ConvergedWith(s, role, d.price);
      }
    }
  }

  lemma TurnIsRegular(s: State, buyer: Profile, seller: Profile, x: Input)
    ensures x.expired ==>
              TakeTurn(s, buyer, seller, x) ==
              Turn(s, Completed(Placeholder(s, NextProposer(s.offers), TIMEOUT_TEXT), true), false)
    ensures !x.expired ==>
              Regular(s, Pick(NextProposer(s.offers), buyer, seller), x.reply, TakeTurn(s, buyer, seller, x))
  {
    if !x.expired {
      var role := NextProposer(s.offers);
      var p := Pick(role, buyer, seller);
      var v := ValuationFor(p, role);
      if v.Ok? {
        AdvisedIsRegular(s, p, v.value, Suggested(s, v.value, x), x.reply);
      }
    }
  }

  // ----- Beliefs about the opponent ------------------------------------------------------------------

  datatype Key = Key(session: nat, role: Role)

  type Beliefs = map<Key, Belief.Vec>

  function Cached(beliefs: Beliefs, k: Key): Belief.Vec {
    if k in beliefs then beliefs[k] else Belief.PRIOR
  }

  /** _get_or_compute_belief: what the turn works with. */
  function BeliefFor(beliefs: Beliefs, k: Key, theirs: seq<Price>, likelihood: seq<Price> -> Belief.Vec): Belief.Vec {
    if |theirs| < 2 then Cached(beliefs, k) else Belief.Updated(Cached(beliefs, k), likelihood(theirs))
  }

  /** _update_belief_cache */
  function Learn(beliefs: Beliefs, k: Key, theirs: seq<Price>, likelihood: seq<Price> -> Belief.Vec): Beliefs {
    if |theirs| < 2 then beliefs else beliefs[k := Belief.Updated(Cached(beliefs, k), likelihood(theirs))]
  }

  /** cooperative + strategic * 0.5 */
  function Flexibility(belief: Belief.Vec): real {
    belief[0] + belief[1] * 0.5
  }

  ghost predicate Distribution(v: Belief.Vec) {
    Belief.NonNegative(v) && Belief.Sum(v) == 1.0
  }

  ghost predicate Plausible(likelihood: seq<Price> -> Belief.Vec) {
    forall theirs: seq<Price> :: Belief.Positive(likelihood(theirs))
  }

  /** One call of process_turn, as far as beliefs go: whose turn, what the opponent had offered, and whether it got to learning. */
  datatype Occasion = Occasion(key: Key, theirs: seq<Price>, learned: bool)

  /** The observations behind one key's belief: of its own calls, those that learned and had two prices to compare. */
  function Observations(calls: seq<Occasion>, k: Key, likelihood: seq<Price> -> Belief.Vec): seq<Belief.Vec> {
    if calls == [] then []
    else
      var last := calls[|calls| - 1];
      Observations(calls[..|calls| - 1], k, likelihood)
      + if last.key == k && last.learned && |last.theirs| >= 2 then [likelihood(last.theirs)] else []
  }

  function BeliefsAfter(calls: seq<Occasion>, likelihood: seq<Price> -> Belief.Vec): Beliefs {
    if calls == [] then map[]
    else
      var before, last := BeliefsAfter(calls[..|calls| - 1], likelihood), calls[|calls| - 1];
      if last.learned then Learn(before, last.key, last.theirs, likelihood) else before
  }

  /**
   After any sequence of calls, on any sessions and for both sides in any order, each side's cached
   belief is the uniform prior folded with that side's own observations, and with nothing else.
   */
  lemma {:induction false} CacheIsFold(calls: seq<Occasion>, k: Key, likelihood: seq<Price> -> Belief.Vec)
    ensures Cached(BeliefsAfter(calls, likelihood), k) == Belief.Fold(Belief.PRIOR, Observations(calls, k, likelihood))
  {
    if calls != [] {
      var front := calls[..|calls| - 1];
      CacheIsFold(front, k, likelihood);
      var before := Observations(front, k, likelihood);
      assert before + [] == before;
      assert |Observations(calls, k, likelihood)| > |before| ==> Observations(calls, k, likelihood)[..|before|] == before;
    }
  }

  lemma PriorIsDistribution()
    ensures Distribution(Belief.PRIOR) && Belief.Weighing(Belief.PRIOR)
  {
    Belief.SumOf(Belief.PRIOR);
  }

  lemma {:induction false} ObservationsPositive(calls: seq<Occasion>, k: Key, likelihood: seq<Price> -> Belief.Vec)
    requires Plausible(likelihood)
    ensures Belief.AllPositive(Observations(calls, k, likelihood))
  {
    if calls != [] {
      ObservationsPositive(calls[..|calls| - 1], k, likelihood);
    }
  }

  /** The belief a turn works with is a distribution, so the flexibility it derives lies between 0 and 1. */
  lemma FlexibilityIsFraction(calls: seq<Occasion>, k: Key, theirs: seq<Price>, likelihood: seq<Price> -> Belief.Vec)
    requires Plausible(likelihood)
    ensures var belief := BeliefFor(BeliefsAfter(calls, likelihood), k, theirs, likelihood);
            Distribution(belief) && 0.0 <= Flexibility(belief) <= 1.0
  {
    var all := calls + [Occasion(k, theirs, true)];
    assert all[..|calls|] == calls;
    CacheIsFold(all, k, likelihood);
    assert BeliefFor(BeliefsAfter(calls, likelihood), k, theirs, likelihood) == Cached(BeliefsAfter(all, likelihood), k);
    ObservationsPositive(all, k, likelihood);
    FoldOfPrior(Observations(all, k, likelihood));
  }

  lemma FoldOfPrior(observations: seq<Belief.Vec>)
    requires Belief.AllPositive(observations)
    ensures Distribution(Belief.Fold(Belief.PRIOR, observations))
    ensures 0.0 <= Flexibility(Belief.Fold(Belief.PRIOR, observations)) <= 1.0
  {
    PriorIsDistribution();
    if observations != [] {
      Belief.FoldIsDistribution(Belief.PRIOR, observations);
    }
    Belief.SumOf(Belief.Fold(Belief.PRIOR, observations));
  }

  function KeyOf(s: State): Key {
    Key(s.id, NextProposer(s.offers))
  }

  /** What the side to move has seen of its opponent. */
  function Theirs(s: State): seq<Price> {
    Prices(s.offers, Other(NextProposer(s.offers)))
  }

  // ----- The engine object -----------------------------------------------------------------------------

  class NeutralEngine {
    const strategist: Strategist
    const likelihood: seq<Price> -> Belief.Vec
    var beliefs: Beliefs
    ghost var calls: seq<Occasion>

    constructor (strategist: Strategist, likelihood: seq<Price> -> Belief.Vec)
      ensures Valid() && this.strategist == strategist && this.likelihood == likelihood && beliefs == map[]
    {
      this.strategist, this.likelihood := strategist, likelihood;
      beliefs := map[];
      calls := [];
    }

    ghost predicate Valid()
      reads this
    {
      beliefs == BeliefsAfter(calls, likelihood)
    }

    function InputFor(s: State, expired: bool, curve: Fraction, reply: Reply): Input
      reads this
    {
      Input(expired, Flexibility(BeliefFor(beliefs, KeyOf(s), Theirs(s), likelihood)), curve, strategist, reply)
    }

    method TrackConcession(session: NegotiationSession, role: Role, price: real)
      modifies session
      ensures session.Snapshot() == old(session.Snapshot()).(stallCounter := StallAfter(old(session.Snapshot()), role, price))
    {
      var mine := LastPrice(session.offers, role);
      if mine.None? {
        session.ResetStallCounter();
        return;
      }
      if NoConcession(mine.value, price) {
        var _ := session.RecordNoConcession();
      } else {
        session.ResetStallCounter();
      }
    }

    /** The OFFER/COUNTER branch: envelope, guardrail, fallback, budget guard. */
    method Propose(session: NegotiationSession, p: Profile, role: Role, v: Valuation, suggested: real, r: Reply)
      returns (d: Decision)
      requires Proposing(r)
      modifies session
      ensures d == DecideProposal(p, role, v, suggested, old(session.schemaFailures), r)
      ensures session.Snapshot() ==
              if Overridden(p, role, v, suggested, r)
              then old(session.Snapshot()).(schemaFailures := old(session.schemaFailures) + 1)
              else old(session.Snapshot())
    {
      var envelope := EnvelopeFor(role, r, suggested);
      if envelope.Err? { return Abort(envelope.error); }
      var price, text := PriceOr(r, suggested), ReasoningOf(r);
      var violations := Guardrails.ValidateEnvelope(
        envelope.value, v.reservation, if role == Buyer then Some(p.ceiling) else None, None,
        if role == Seller then Some(p.marginFloor) else None);
      if violations != [] {
        price := suggested;
        text := "Guardrail override: " + text;
        var exhausted := session.RecordSchemaFailure();
        if exhausted { return Breach; }
      }
      if role == Buyer && CheckBudget(price, p.ceiling).Some? {
        price := Min(price, p.ceiling);
      }
      return Chosen(price, false, text);
    }

    /** All actions; an unknown one falls through every branch. */
    method Consider(session: NegotiationSession, p: Profile, role: Role, v: Valuation, suggested: real, r: Reply)
      returns (d: Decision)
      requires r.Reply?
      modifies session
      ensures d == Decide(old(session.Snapshot()), p, role, v, suggested, r)
      ensures session.Snapshot() == Failures(old(session.Snapshot()), p, role, v, suggested, r)
    {
      var action := ActionOf(r);
      if action == "OFFER" || action == "COUNTER" {
        d := Propose(session, p, role, v, suggested, r);
        return;
      }
      var price, closing, text := PriceOr(r, suggested), false, ReasoningOf(r);
      if action == "ACCEPT" {
        var last := LastPrice(session.offers, Other(role));
        if last.Some? { price := last.value; }
        closing := true;
      } else if action == "REJECT" {
        if price <= 0.0 { price := 1.0; }
        text := "REJECT: " + text;
        closing := true;
      }
      return Chosen(price, closing, text);
    }

    method Finish(session: NegotiationSession, p: Profile, role: Role, r: Reply, d: Decision) returns (result: TurnResult)
      requires r.Reply? && d.Chosen?
      modifies session
      ensures Turn(session.Snapshot(), result, result.Completed?) == Conclude(old(session.Snapshot()), p, role, r, d)
    {
      var offer := CreateAgentOffer(session.id, session.roundCount + 1, role, d.price, ConfidenceOf(r), d.text);
      if offer.Err? { return Raised(offer.error); }
      var terminal := d.closing;
      if !terminal {
        TrackConcession(session, role, d.price);
        var buyerPrice: Option<real> := if role == Buyer then Some(d.price) else LastPrice(session.offers, Buyer);
        var sellerPrice: Option<real> := if role == Seller then Some(d.price) else LastPrice(session.offers, Seller);
        if CheckConvergence(buyerPrice, sellerPrice) { terminal := true; }
      }
      if !terminal && CheckStall(session.roundCount + 1, p.stallThreshold) {
        terminal := true;
      }
      return Completed(offer.value, terminal);
    }

    /** Layers 3 and 4: the reply, the decision, the offer. */
    method Advise(session: NegotiationSession, p: Profile, v: Valuation, suggested: real, r: Reply)
      returns (result: TurnResult, learned: bool)
      modifies session
      ensures Turn(session.Snapshot(), result, learned) == Advised(old(session.Snapshot()), p, v, suggested, r)
    {
      var role := NextProposer(session.offers);
      if r.Failing? { return Raised(LlmError), false; }
      var d := Consider(session, p, role, v, suggested, r);
      match d
      case Abort(e) => return Raised(e), false;
      case Breach => return Completed(Placeholder(session.Snapshot(), role, BREACH_TEXT), true), false;
      case Chosen(_, _, _) =>
        result := Finish(session, p, role, r, d);
        learned := result.Completed?;
    }

    method ProcessTurn(session: NegotiationSession, buyer: Profile, seller: Profile, expired: bool, curve: Fraction, reply: Reply)
      returns (result: TurnResult)
      requires Valid()
      modifies this, session
      ensures Valid()
      ensures var s := old(session.Snapshot());
              var turn := TakeTurn(s, buyer, seller, old(InputFor(session.Snapshot(), expired, curve, reply)));
              && result == turn.result
              && session.Snapshot() == turn.session
              && calls == old(calls) + [Occasion(KeyOf(s), Theirs(s), turn.learned)]
    {
      ghost var before := calls;
      var k, theirs := KeyOf(session.Snapshot()), Theirs(session.Snapshot());
      calls := before + [Occasion(k, theirs, false)];
      assert calls[..|before|] == before;
      var role := NextProposer(session.offers);
      if expired {
        return Completed(Placeholder(session.Snapshot(), role, TIMEOUT_TEXT), true);
      }
      var p := Pick(role, buyer, seller);
      var disorder := CheckTurnOrder(session.offers, role);
      if disorder.Some? { return Raised(disorder.value); }
      var v := ValuationFor(p, role);
      if v.Err? { return Raised(v.error); }
      var flexibility := Flexibility(BeliefFor(beliefs, k, theirs, likelihood));
      var advice := strategist(ContextFor(session.Snapshot(), v.value, flexibility, curve));
      var learned;
      result, learned := Advise(session, p, v.value, advice.price, reply);
      if learned {
        beliefs := Learn(beliefs, k, theirs, likelihood);
        calls := before + [Occasion(k, theirs, true)];
        assert calls[..|before|] == before;
      }
    }
  }
}
