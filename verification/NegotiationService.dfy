/**
 NegotiationService: every use case loads a session, moves it, and stores it. The repository is a
 map of sessions; each use case is proved against its effect on one stored session, and every
 sequence of use cases is followed from the creation of a session on.
 */
module NegotiationService {
  import opened Wrappers
  import opened Offers
  import opened Valuation
  import opened Session
  import opened Engine
  import opened AgentTurns

  // ----- The other use cases on one session --------------------------------------------------------

  function Created(id: nat): State {
    New(id).(status := BUYER_ANCHOR)
  }

  /** A human's offer always counts as the buyer's. */
  function Override(s: State, price: real, knownCurrency: bool): Served {
    var resumed := if s.status == HUMAN_REVIEW || s.status == STALLED then Resumed(s)
                   else if !IsActive(s.status) then Err(ConflictError)
                   else Ok(s);
    if resumed.Err? then Served(s, Err(resumed.error))
    else
      var offer := CreateHumanOffer(s.id, s.roundCount + 1, Buyer, price, knownCurrency);
      if offer.Err? then Served(s, Err(offer.error))
      else
        var added := WithOffer(resumed.value, offer.value);
        if added.Err? then Served(s, Err(added.error)) else Served(added.value, Ok(offer.value))
  }

  function OrSame(s: State, r: Result<State, Error>): State {
    if r.Ok? then r.value else s
  }

  function Expire(s: State, now: int): State {
    OrSame(s, Ended(s, EXPIRED, now))
  }

  datatype Op =
    | RunTurn(input: TurnInput)
    | HumanOverride(price: real, knownCurrency: bool)
    | Terminate(now: int)
    | Cleanup(now: int)

  function Serve(s: State, op: Op): State {
    match op
    case RunTurn(x) => AgentTurn(s, x).session
    case HumanOverride(price, knownCurrency) => Override(s, price, knownCurrency).session
    case Terminate(now) => OrSame(s, Given(s, FAILED, now))
    case Cleanup(now) => Expire(s, now)
  }

  function ServeAll(s: State, ops: seq<Op>): State
    decreases |ops|
  {
    if ops == [] then s else ServeAll(Serve(s, ops[0]), ops[1..])
  }

  /** A termination fails whatever is active or under review; a clean-up expires whatever is not finished. */
  lemma OutsideExact(s: State, now: int)
    ensures Serve(s, Terminate(now)) ==
            if s.status in {INIT, BUYER_ANCHOR, SELLER_RESPONSE, ROUND_LOOP, ACTIVE, HUMAN_REVIEW}
            then s.(status := FAILED, completedAt := Some(now)) else s
    ensures Serve(s, Cleanup(now)) ==
            if s.status in {AGREED, WALK_AWAY, TIMEOUT, POLICY_BREACH, FAILED, EXPIRED}
            then s else s.(status := EXPIRED, completedAt := Some(now))
  {
  }

  // ----- Every sequence of use cases ----------------------------------------------------------------

  /** What is true of a session whenever it lies in the repository. */
  ghost predicate AtRest(s: State) {
    Sound(s) && s.status != INIT && s.status != STALLED
  }

  lemma ServeKeepsRest(s: State, op: Op)
    requires AtRest(s)
    ensures AtRest(Serve(s, op))
  {
    match op
    case RunTurn(x) => TurnKeepsRest(s, x);
    case HumanOverride(price, knownCurrency) => OverrideExact(s, price, knownCurrency);
    case _ =>
  }

  lemma TurnKeepsRest(s: State, x: TurnInput)
    requires AtRest(s)
    ensures AtRest(AgentTurn(s, x).session)
  {
    AgentTurnKeepsSound(s, x);
    if IsActive(s.status) {
      TurnExact(s, x);
      var served := AgentTurn(s, x);
      if served.result.Ok? && !EngineTurn(s, x).result.terminal {
        AddedNotInit(s, x);
      }
    }
  }

  lemma AddedNotInit(s: State, x: TurnInput)
    requires IsActive(s.status) && s.status != INIT && AgentTurn(s, x).result.Ok?
    requires EngineTurn(s, x).result.Completed? && !EngineTurn(s, x).result.terminal
    ensures AgentTurn(s, x).session.status != INIT
  {
    EngineKeepsRest(s, x);
  }

  /**
   A human's offer is taken exactly when the session is active or under review, below the round
   limit, and the amount and currency are valid; a session under review is active again afterwards.
   */
  lemma OverrideExact(s: State, price: real, knownCurrency: bool)
    requires AtRest(s)
    ensures var served := Override(s, price, knownCurrency);
            && (served.result.Ok? <==>
                  && (IsActive(s.status) || s.status == HUMAN_REVIEW)
                  && s.roundCount < MAX_ROUNDS && price > 0.0 && knownCurrency)
            && (served.result.Err? ==> served.session == s)
            && (served.result.Ok? ==>
                  && served.session.offers == s.offers + [served.result.value]
                  && served.result.value.role == Buyer && served.result.value.price == price
                  && IsActive(served.session.status) && NextProposer(served.session.offers) == Seller)
            && AtRest(served.session)
  {
    var served := Override(s, price, knownCurrency);
    if served.result.Ok? {
      var resumed := if s.status == HUMAN_REVIEW then Resumed(s).value else s;
      OfferKeepsSound(resumed, served.result.value);
    }
  }

  lemma {:induction false} EveryServedRunRests(s: State, ops: seq<Op>)
    requires AtRest(s)
    ensures AtRest(ServeAll(s, ops))
    decreases |ops|
  {
    if ops != [] {
      ServeKeepsRest(s, ops[0]);
      EveryServedRunRests(Serve(s, ops[0]), ops[1..]);
    }
  }

  /** From creation on, whatever is called: never INIT or STALLED, at most 20 offers, a price iff agreed, an end time iff terminal. */
  lemma CreatedSessionsRest(id: nat, ops: seq<Op>)
    ensures AtRest(ServeAll(Created(id), ops))
  {
    EveryServedRunRests(Created(id), ops);
  }

  /** No use case changes a finished session, in any field. */
  lemma {:induction false} FinishedForGood(s: State, ops: seq<Op>)
    requires IsTerminal(s.status)
    ensures ServeAll(s, ops) == s
    decreases |ops|
  {
    if ops != [] {
      FinishedForGood(s, ops[1..]);
    }
  }

  /** Every agreement the service ever makes is at the price of the last offer. */
  lemma {:induction false} AgreedAtLastOffer(s: State, ops: seq<Op>)
    requires AtRest(s) && LastIsAgreed(s)
    ensures LastIsAgreed(ServeAll(s, ops))
    decreases |ops|
  {
    if ops != [] {
      var op := ops[0];
      ServeKeepsRest(s, op);
      if op.RunTurn? && IsActive(s.status) {
        TurnExact(s, op.input);
      } else if op.HumanOverride? {
        OverrideExact(s, op.price, op.knownCurrency);
      }
      AgreedAtLastOffer(Serve(s, op), ops[1..]);
    }
  }

  ghost predicate LastIsAgreed(s: State) {
    s.status == AGREED ==> s.offers != [] && s.agreedPrice == Some(s.offers[|s.offers| - 1].price)
  }

  lemma EngineRaisesNoConflict(s: State, x: TurnInput)
    ensures EngineTurn(s, x).result != Raised(ConflictError)
  {
    TurnIsRegular(s, x.buyer, x.seller, x.engine);
  }

  lemma TurnFacts(s: State, x: TurnInput)
    requires AtRest(s) && IsActive(s.status)
    ensures AtRest(AgentTurn(s, x).session) && Progress(s, AgentTurn(s, x))
  {
    TurnKeepsRest(s, x);
    TurnProgress(s, x);
  }

  /** One offer more, or none and then either the end or no change at all. */
  ghost predicate Progress(s: State, served: Served) {
    && served.session.id == s.id
    && match served.result
       case Ok(offer) => served.session.offers == s.offers + [offer] && served.session.roundCount == s.roundCount + 1
       case Err(e) =>
         && served.session.offers == s.offers
         && (if e == ConflictError
             then !IsActive(served.session.status) || served.session.roundCount == MAX_ROUNDS
             else served.session == s)
  }

  lemma TurnProgress(s: State, x: TurnInput)
    requires Sound(s) && IsActive(s.status)
    ensures Progress(s, AgentTurn(s, x))
  {
    TurnExact(s, x);
    EngineRaisesNoConflict(s, x);
  }

  function Unfinished(sessions: map<nat, State>, ids: seq<nat>): set<nat> {
    set id | id in ids && id in sessions && !IsTerminal(sessions[id].status)
  }

  lemma UnfinishedOneMore(sessions: map<nat, State>, ids: seq<nat>, id: nat)
    requires id in sessions
    ensures |Unfinished(sessions, ids + [id])| ==
            |Unfinished(sessions, ids)| + if id in ids || IsTerminal(sessions[id].status) then 0 else 1
  {
    if id in ids || IsTerminal(sessions[id].status) {
      assert Unfinished(sessions, ids + [id]) == Unfinished(sessions, ids);
    } else {
      assert Unfinished(sessions, ids + [id]) == Unfinished(sessions, ids) + {id};
    }
  }

  /** After the first candidates have been dealt with. */
  ghost predicate Expired(before: map<nat, State>, ids: seq<nat>, now: int, after: map<nat, State>) {
    && after.Keys == before.Keys
    && forall id :: id in before ==> after[id] == if id in ids then Expire(before[id], now) else before[id]
  }

  lemma ExpiredOneMore(before: map<nat, State>, ids: seq<nat>, id: nat, now: int, after: map<nat, State>)
    requires Expired(before, ids, now, after) && id in before
    ensures Expired(before, ids + [id], now, after[id := Expire(after[id], now)])
    ensures IsTerminal(after[id].status) <==> id in ids || IsTerminal(before[id].status)
  {
    assert Expire(Expire(before[id], now), now) == Expire(before[id], now);
  }

  lemma CleanupStep(before: map<nat, State>, ids: seq<nat>, id: nat, now: int, after: map<nat, State>)
    requires Expired(before, ids, now, after) && id in before
    ensures Expired(before, ids + [id], now, after[id := Expire(after[id], now)])
    ensures |Unfinished(before, ids + [id])| ==
            |Unfinished(before, ids)| + if IsTerminal(after[id].status) then 0 else 1
  {
    ExpiredOneMore(before, ids, id, now, after);
    UnfinishedOneMore(before, ids, id);
  }

  // ----- The service object --------------------------------------------------------------------------

  /** What the outside world contributes to one turn. */
  datatype World = World(expired: bool, expiredLater: bool, curve: Fraction, reply: Reply, now: int)

  class Service {
    const engine: NeutralEngine
    var sessions: map<nat, State>
    var byMatch: map<nat, nat>

    constructor (engine: NeutralEngine)
      ensures this.engine == engine && sessions == map[] && byMatch == map[]
    {
      this.engine := engine;
      sessions, byMatch := map[], map[];
    }

    /** Nothing but the entry for id has changed, to s. */
    ghost predicate Only(before: map<nat, State>, id: nat, s: State)
      reads this
    {
      sessions == before[id := s]
    }

    ghost predicate AllAtRest()
      reads this
    {
      forall id :: id in sessions ==> AtRest(sessions[id]) && sessions[id].id == id
    }

    method CreateSession(matchId: nat, id: nat) returns (error: Option<Error>)
      requires id !in sessions
      modifies this`sessions, this`byMatch
      ensures matchId in old(byMatch) ==> error == Some(ConflictError) && sessions == old(sessions) && byMatch == old(byMatch)
      ensures matchId !in old(byMatch) ==>
                error == None && Only(old(sessions), id, Created(id)) && byMatch == old(byMatch)[matchId := id]
    {
      if matchId in byMatch { return Some(ConflictError); }
      var session := new NegotiationSession(New(id));
      error := session.Activate();
      byMatch := byMatch[matchId := id];
      sessions := sessions[id := session.Snapshot()];
    }

    /** The input of the turn, with the flexibility the engine derives from its beliefs. */
    function InputOf(s: State, buyer: Profile, seller: Profile, w: World): TurnInput
      reads engine
    {
      TurnInput(buyer, seller, w.expired, engine.InputFor(s, w.expiredLater, w.curve, w.reply), w.now)
    }

    method Handle(session: NegotiationSession, ending: Ending, price: Price, now: int) returns (error: Option<Error>)
      requires IsActive(session.status)
      modifies session
      ensures error == None && Handled(old(session.Snapshot()), ending, price, now) == Ok(session.Snapshot())
    {
      match ending
      case EndWalkAway => error := session.MarkWalkAway(now);
      case EndBreach => error := session.MarkPolicyBreach(now);
      case EndTimeout => error := session.MarkTimeout(now);
      case EndStall =>
        error := session.MarkStalled();
        error := session.EscalateToHumanReview();
      case EndAgreement => error := session.MarkAgreed(price, now);
    }

    /** The second half of a turn: the offer goes in and is stored; a terminal turn is then handled and stored again. */
    method Conclude(id: nat, session: NegotiationSession, offer: Offer, terminal: bool, now: int, ghost turn: Turn)
      returns (result: Result<Offer, Error>)
      requires id in sessions && IsActive(session.status)
      requires turn.session == session.Snapshot() && turn.result == Completed(offer, terminal)
      modifies this`sessions, session
      ensures var served := AfterEngine(old(sessions)[id], turn, now);
              result == served.result && Only(old(sessions), id, served.session)
    {
      assert sessions[id := sessions[id]] == sessions;
      ghost var before := sessions;
      var error := session.AddOffer(offer);
      if error.Some? { return Err(error.value); }
      sessions := sessions[id := session.Snapshot()];
      if terminal {
        AddedStaysActive(turn.session, offer);
        var _ := Handle(session, EndingOf(offer.reasoning, session.stallCounter), offer.price, now);
        assert before[id := session.Snapshot()] == sessions[id := session.Snapshot()];
        sessions := sessions[id := session.Snapshot()];
      }
      return Ok(offer);
    }

    /** One agent turn. An unknown session is not found; otherwise the turn is AgentTurn on the stored session. */
    method RunAgentTurn(id: nat, buyer: Profile, seller: Profile, w: World) returns (result: Result<Offer, Error>)
      requires engine.Valid() && (id in sessions ==> sessions[id].id == id)
      modifies this`sessions, engine
      ensures engine.Valid()
      ensures id !in old(sessions) ==> result == Err(NotFoundError) && sessions == old(sessions)
      ensures id in old(sessions) ==>
                var served := AgentTurn(old(sessions)[id], old(InputOf(sessions[id], buyer, seller, w)));
                result == served.result && Only(old(sessions), id, served.session)
    {
      if id !in sessions { return Err(NotFoundError); }
      ghost var x := InputOf(sessions[id], buyer, seller, w);
      assert sessions[id := sessions[id]] == sessions;
      if !IsActive(sessions[id].status) { return Err(ConflictError); }
      var session := new NegotiationSession(sessions[id]);
      if w.expired {
        var _ := session.MarkTimeout(w.now);
        sessions := sessions[id := session.Snapshot()];
        return Err(ConflictError);
      }
      var turn := engine.ProcessTurn(session, buyer, seller, w.expiredLater, w.curve, w.reply);
      EngineKeepsRest(sessions[id], x);
      if turn.Raised? { return Err(turn.error); }
      result := Conclude(id, session, turn.offer, turn.terminal, w.now, EngineTurn(sessions[id], x));
    }

    method ApplyHumanOverride(id: nat, price: real, knownCurrency: bool) returns (result: Result<Offer, Error>)
      requires id in sessions ==> sessions[id].id == id
      modifies this`sessions
      ensures id !in old(sessions) ==> result == Err(NotFoundError) && sessions == old(sessions)
      ensures id in old(sessions) ==>
                var served := Override(old(sessions)[id], price, knownCurrency);
                result == served.result && Only(old(sessions), id, served.session)
    {
      if id !in sessions { return Err(NotFoundError); }
      assert sessions[id := sessions[id]] == sessions;
      var session := new NegotiationSession(sessions[id]);
      if session.status == HUMAN_REVIEW || session.status == STALLED {
        var refused := session.ResumeFromHumanReview();
        if refused.Some? { return Err(refused.value); }
      } else if !IsActive(session.status) {
        return Err(ConflictError);
      }
      var offer := CreateHumanOffer(id, session.roundCount + 1, Buyer, price, knownCurrency);
      if offer.Err? { return Err(offer.error); }
      var error := session.AddOffer(offer.value);
      if error.Some? { return Err(error.value); }
      sessions := sessions[id := session.Snapshot()];
      return Ok(offer.value);
    }

    method TerminateSession(id: nat, now: int) returns (error: Option<Error>)
      modifies this`sessions
      ensures id !in old(sessions) ==> error == Some(NotFoundError) && sessions == old(sessions)
      ensures id in old(sessions) ==>
                && Only(old(sessions), id, Serve(old(sessions)[id], Terminate(now)))
                && (error == None <==> Given(old(sessions)[id], FAILED, now).Ok?)
    {
      if id !in sessions { return Some(NotFoundError); }
      assert sessions[id := sessions[id]] == sessions;
      var session := new NegotiationSession(sessions[id]);
      error := session.MarkFailed(now);
      if error == None {
        sessions := sessions[id := session.Snapshot()];
      }
    }

    method ExpireOne(id: nat, now: int) returns (expired: bool)
      requires id in sessions
      modifies this`sessions
      ensures Only(old(sessions), id, Expire(old(sessions)[id], now))
      ensures expired == !IsTerminal(old(sessions)[id].status)
    {
      assert sessions[id := sessions[id]] == sessions;
      var session := new NegotiationSession(sessions[id]);
      var error := session.MarkExpired(now);
      if error == None {
        sessions := sessions[id := session.Snapshot()];
      }
      return error == None;
    }

    method ExpireAll(ids: seq<nat>, now: int) returns (count: nat)
      requires forall id :: id in ids ==> id in sessions
      modifies this`sessions
      ensures Expired(old(sessions), ids, now, sessions) && count == |Unfinished(old(sessions), ids)|
    {
      count := 0;
      ghost var before := sessions;
      var i := 0;
      while i < |ids|
        invariant 0 <= i <= |ids| && Expired(before, ids[..i], now, sessions)
        invariant count == |Unfinished(before, ids[..i])|
      {
        assert ids[..i + 1] == ids[..i] + [ids[i]];
        CleanupStep(before, ids[..i], ids[i], now, sessions);
        var expired := ExpireOne(ids[i], now);
        if expired { count := count + 1; }
        i := i + 1;
      }
      assert ids[..i] == ids;
    }

    /** Expires the first hundred candidates; one that has finished in the meantime is passed over and not counted. */
    method CleanupExpiredSessions(candidates: seq<nat>, now: int) returns (count: nat)
      requires forall id :: id in candidates ==> id in sessions
      modifies this`sessions
      ensures var first := if |candidates| <= 100 then candidates else candidates[..100];
              && Expired(old(sessions), first, now, sessions)
              && count == |Unfinished(old(sessions), first)|
    {
      var first := if |candidates| <= 100 then candidates else candidates[..100];
      count := ExpireAll(first, now);
    }

    /** Since `before`, turns of one session have appended these offers; nothing else has happened. */
    ghost predicate OnlyRan(before: map<nat, State>, id: nat, run: seq<Offer>)
      reads this
    {
      && AllAtRest() && id in before && sessions.Keys == before.Keys && Only(before, id, sessions[id])
      && sessions[id].offers == before[id].offers + run
    }

    /** RunAgentTurn in the terms run-auto relies on. */
    method AutoTurn(id: nat, buyer: Profile, seller: Profile, w: World) returns (result: Result<Offer, Error>)
      requires AllAtRest() && engine.Valid() && id in sessions && IsActive(sessions[id].status)
      modifies this`sessions, engine
      ensures engine.Valid() && OnlyRan(old(sessions), id, if result.Ok? then [result.value] else [])
      ensures match result
              case Ok(_) => sessions[id].roundCount == old(sessions[id].roundCount) + 1
              case Err(e) =>
                && sessions[id].roundCount == old(sessions[id].roundCount)
                && (if e == ConflictError
                    then !IsActive(sessions[id].status) || sessions[id].roundCount == MAX_ROUNDS
                    else IsActive(sessions[id].status))
    {
      ghost var s := sessions[id];
      ghost var x := InputOf(s, buyer, seller, w);
      result := RunAgentTurn(id, buyer, seller, w);
      TurnFacts(s, x);
    }

    /**
     Runs agent turns until one fails, the session is no longer active, or maxRounds turns are done.
     The offers of the run are the ones appended to the session: at most maxRounds, at most what
     the round limit leaves. It reports terminal only for a session that takes no more turns.
     */
    method RunAuto(id: nat, maxRounds: nat, buyer: Profile, seller: Profile, worlds: seq<World>)
      returns (found: bool, offersThisRun: seq<Offer>, terminal: bool)
      requires AllAtRest() && engine.Valid() && |worlds| == maxRounds >= 1
      modifies this`sessions, engine
      ensures engine.Valid()
      ensures AllAtRest() && sessions.Keys == old(sessions).Keys && found == (id in old(sessions))
      ensures !found ==> offersThisRun == [] && sessions == old(sessions)
      ensures found ==>
                && Only(old(sessions), id, sessions[id])
                && sessions[id].offers == old(sessions)[id].offers + offersThisRun
                && |offersThisRun| <= maxRounds && |offersThisRun| <= MAX_ROUNDS - old(sessions)[id].roundCount
                && (terminal ==> !IsActive(sessions[id].status) || sessions[id].roundCount == MAX_ROUNDS)
                && (!IsActive(sessions[id].status) ==> terminal)
    {
      found := id in sessions;
      offersThisRun, terminal := [], false;
      if !found { return; }
      ghost var before := sessions;
      assert before[id := before[id]] == before;
      var i := 0;
      while i < maxRounds
        invariant 0 <= i <= maxRounds && |offersThisRun| == i && !terminal
        invariant engine.Valid() && OnlyRan(before, id, offersThisRun)
        invariant i > 0 ==> IsActive(sessions[id].status)
      {
        if !IsActive(sessions[id].status) {
          terminal := true;
          break;
        }
        var result := AutoTurn(id, buyer, seller, worlds[i]);
        if result.Err? {
          if result.error == ConflictError { terminal := true; }
          break;
        }
        offersThisRun := offersThisRun + [result.value];
        i := i + 1;
        if !IsActive(sessions[id].status) {
          terminal := true;
          break;
        }
      }
      assert AtRest(sessions[id]) && AtRest(before[id]);
    }
  }
}
