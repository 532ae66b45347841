/**
 Overlapping requests on one session. A use case loads the session, may wait for the model, and
 stores what it made of its copy: all columns of the row, and the new offers as rows of their
 own. Nothing locks the session or checks a version, so requests interleave freely.
 */
module Overlaps {
  import opened Wrappers
  import opened Offers
  import opened Session
  import opened Engine
  import opened AgentTurns
  import opened NegotiationService

  datatype Request = Request(op: Op, loaded: State)

  datatype Db = Db(stored: State, pending: map<nat, Request>)

  datatype Event = Load(t: nat, op: Op) | Store(t: nat)

  /** The row is overwritten with the request's copy, the request's new offers are added to those there. */
  function Written(stored: State, loaded: State, after: State): State {
    if after == loaded then stored
    else after.(offers := stored.offers
                          + if |loaded.offers| <= |after.offers| then after.offers[|loaded.offers|..] else [])
  }

  function Next(db: Db, e: Event): Db {
    match e
    case Load(t, op) =>
      if t in db.pending then db else db.(pending := db.pending[t := Request(op, db.stored)])
    case Store(t) =>
      if t !in db.pending then db
      else
        var r := db.pending[t];
        Db(Written(db.stored, r.loaded, Serve(r.loaded, r.op)), db.pending - {t})
  }

  function Play(db: Db, events: seq<Event>): Db
    decreases |events|
  {
    if events == [] then db else Play(Next(db, events[0]), events[1..])
  }

  // ----- What a use case does to its copy -----------------------------------------------------------

  lemma ServeAppends(s: State, op: Op)
    ensures s.offers <= Serve(s, op).offers && Serve(s, op).id == s.id
  {
    if op.RunTurn? {
      EngineKeepsRest(s, op.input);
      if IsActive(s.status) && !op.input.expired {
        EndingKeepsOffers(s, EngineTurn(s, op.input), op.input.now);
      }
    }
  }

  lemma EndingKeepsOffers(s: State, turn: Turn, now: int)
    requires Settled(turn.session) == Settled(s)
    ensures s.offers <= AfterEngine(s, turn, now).session.offers && AfterEngine(s, turn, now).session.id == s.id
  {
  }

  // ----- Without overlap -----------------------------------------------------------------------------

  /** Every store finds the session as its request loaded it, as a version check would demand. */
  ghost predicate Unspoiled(db: Db, events: seq<Event>)
    decreases |events|
  {
    events == [] ||
    (&& (events[0].Store? && events[0].t in db.pending ==> db.stored == db.pending[events[0].t].loaded)
     && Unspoiled(Next(db, events[0]), events[1..]))
  }

  /** The use cases in the order in which they were stored. */
  function StoredOps(db: Db, events: seq<Event>): seq<Op>
    decreases |events|
  {
    if events == [] then []
    else
      (if events[0].Store? && events[0].t in db.pending then [db.pending[events[0].t].op] else [])
      + StoredOps(Next(db, events[0]), events[1..])
  }

  lemma WrittenOverItself(s: State, op: Op)
    ensures Written(s, s, Serve(s, op)) == Serve(s, op)
  {
    ServeAppends(s, op);
    var after := Serve(s, op);
    assert after.offers == s.offers + after.offers[|s.offers|..];
  }

  /** Then requests behave as if each had run by itself, in the order of their stores. */
  lemma {:induction false} UnspoiledIsSerial(db: Db, events: seq<Event>)
    requires Unspoiled(db, events)
    ensures Play(db, events).stored == ServeAll(db.stored, StoredOps(db, events))
    decreases |events|
  {
    if events != [] {
      var e, rest := events[0], StoredOps(Next(db, events[0]), events[1..]);
      UnspoiledIsSerial(Next(db, e), events[1..]);
      if e.Store? && e.t in db.pending {
        var op := db.pending[e.t].op;
        WrittenOverItself(db.stored, op);
        assert ([op] + rest)[1..] == rest;
      } else {
        assert [] + rest == rest;
      }
    }
  }

  // ----- With overlap: what is lost ---------------------------------------------------------------------

  /** Terminated while a turn waits for the model: the turn then overwrites FAILED, whatever it comes to. */
  lemma TurnOverwritesTermination(s: State, x: TurnInput, now: int)
    requires AtRest(s) && IsActive(s.status) && AgentTurn(s, x).result.Ok?
    ensures var events := [Load(0, RunTurn(x)), Load(1, Terminate(now)), Store(1), Store(0)];
            var db := Db(s, map[]);
            && Play(db, events[..3]).stored.status == FAILED
            && Play(db, events).stored.status == AgentTurn(s, x).session.status != FAILED
  {
    var failed := Serve(s, Terminate(now));
    FourEvents(Db(s, map[]), RunTurn(x), Terminate(now), 1, 0);
    TurnExact(s, x);
    EndingIsNotFailed(s, x);
    assert failed.offers[|s.offers|..] == [];
    assert s.offers + [] == s.offers;
  }

  /** It happens: a session terminated during its first turn ends in an agreement. */
  lemma TerminatedYetAgreed(id: nat, price: Price, now: int)
    requires price <= 1000000.0
    ensures var x := FirstOffer(price, now);
            var events := [Load(0, RunTurn(x)), Load(1, Terminate(now)), Store(1), Store(0)];
            && Play(Db(Created(id), map[]), events[..3]).stored.status == FAILED
            && Play(Db(Created(id), map[]), events).stored.status == AGREED
  {
    ThresholdCanAgreeAlone(id, price, now);
    assert Activated(New(id)).value == Created(id);
    TurnOverwritesTermination(Created(id), FirstOffer(price, now), now);
  }

  lemma EndingIsNotFailed(s: State, x: TurnInput)
    requires AtRest(s) && IsActive(s.status) && AgentTurn(s, x).result.Ok?
    ensures AgentTurn(s, x).session.status != FAILED && AgentTurn(s, x).session != s
  {
    TurnExact(s, x);
  }

  lemma FourEvents(db: Db, op0: Op, op1: Op, first: nat, second: nat)
    requires db.pending == map[] && {first, second} == {0, 1}
    ensures var events := [Load(0, op0), Load(1, op1), Store(first), Store(second)];
            var ops := map[0 := op0, 1 := op1];
            var one := Written(db.stored, db.stored, Serve(db.stored, ops[first]));
            && Play(db, events[..3]).stored == one
            && Play(db, events).stored == Written(one, db.stored, Serve(db.stored, ops[second]))
  {
    var events := [Load(0, op0), Load(1, op1), Store(first), Store(second)];
    var a := Next(db, events[0]);
    var b := Next(a, events[1]);
    var c := Next(b, events[2]);
    assert first != second;
    assert b.pending == map[0 := Request(op0, db.stored), 1 := Request(op1, db.stored)];
    PlayMore(db, events);
    PlayMore(a, events[1..]);
    PlayMore(b, events[2..]);
    PlayMore(c, events[3..]);
    assert events[1..][0] == events[1] && events[2..][0] == events[2] && events[3..][0] == events[3];
    assert events[1..][1..] == events[2..] && events[2..][1..] == events[3..] && events[3..][1..] == [];
    var three := events[..3];
    PlayMore(db, three);
    PlayMore(a, three[1..]);
    PlayMore(b, three[2..]);
    assert three[1..][0] == events[1] && three[2..][0] == events[2];
    assert three[1..][1..] == three[2..] && three[2..][1..] == [];
  }

  lemma PlayMore(db: Db, events: seq<Event>)
    requires events != []
    ensures Play(db, events) == Play(Next(db, events[0]), events[1..])
  {
  }

  /** Two turns that overlap leave two offers and one round: the count of offers is no longer the round. */
  lemma OverlappingTurnsMiscount(s: State, x: TurnInput, y: TurnInput)
    requires AtRest(s) && IsActive(s.status) && AgentTurn(s, x).result.Ok? && AgentTurn(s, y).result.Ok?
    ensures var end := Play(Db(s, map[]), [Load(0, RunTurn(x)), Load(1, RunTurn(y)), Store(0), Store(1)]).stored;
            && end.roundCount == s.roundCount + 1 && |end.offers| == |s.offers| + 2 && !Sound(end)
            && end.offers[|s.offers|].role == end.offers[|s.offers| + 1].role
  {
    FourEvents(Db(s, map[]), RunTurn(x), RunTurn(y), 0, 1);
    WrittenOverItself(s, RunTurn(x));
    TurnExact(s, x);
    TurnExact(s, y);
    EngineKeepsRest(s, x);
    EngineKeepsRest(s, y);
  }

  /**
   Both requests load before either stores: the round still equals the offers if and only if the
   later store changes nothing or the earlier one adds no offer.
   */
  lemma OverlapCountsIff(s: State, op0: Op, op1: Op, first: nat, second: nat)
    requires AtRest(s) && {first, second} == {0, 1}
    ensures var end := Play(Db(s, map[]), [Load(0, op0), Load(1, op1), Store(first), Store(second)]).stored;
            var ops := map[0 := op0, 1 := op1];
            end.roundCount == |end.offers| <==>
              Serve(s, ops[second]) == s || Serve(s, ops[first]).offers == s.offers
  {
    var ops := map[0 := op0, 1 := op1];
    FourEvents(Db(s, map[]), op0, op1, first, second);
    ServeKeepsRest(s, ops[first]);
    ServeKeepsRest(s, ops[second]);
    CountsIff(s, ops[first], ops[second]);
  }

  lemma CountsIff(s: State, earlier: Op, later: Op)
    requires Sound(s) && Sound(Serve(s, earlier)) && Sound(Serve(s, later))
    ensures var end := Written(Written(s, s, Serve(s, earlier)), s, Serve(s, later));
            end.roundCount == |end.offers| <==> Serve(s, later) == s || Serve(s, earlier).offers == s.offers
  {
    WrittenOverItself(s, earlier);
    ServeAppends(s, earlier);
    ServeAppends(s, later);
    var a := Serve(s, earlier).offers;
    assert |a| == |s.offers| ==> a == s.offers;
  }

  lemma OnlyTerminationFails(s: State, op: Op)
    requires AtRest(s) && s.status != FAILED && !op.Terminate?
    ensures Serve(s, op).status != FAILED
  {
    if op.RunTurn? && IsActive(s.status) {
      TurnExact(s, op.input);
    }
  }

  /** A termination that overlaps another request stands if and only if it is stored last or the other stores nothing. */
  lemma TerminationStandsIff(s: State, op: Op, now: int, first: nat, second: nat)
    requires AtRest(s) && (IsActive(s.status) || s.status == HUMAN_REVIEW) && !op.Terminate? && {first, second} == {0, 1}
    ensures var end := Play(Db(s, map[]), [Load(0, op), Load(1, Terminate(now)), Store(first), Store(second)]).stored;
            end.status == FAILED <==> second == 1 || Serve(s, op) == s
  {
    FourEvents(Db(s, map[]), op, Terminate(now), first, second);
    OnlyTerminationFails(s, op);
    WrittenOverItself(s, op);
    WrittenOverItself(s, Terminate(now));
  }

  // ----- With overlap: what survives ---------------------------------------------------------------------

  /** AtRest but for the round, which may fall behind the offers. */
  ghost predicate RowSound(s: State) {
    && s.roundCount <= MAX_ROUNDS && s.roundCount <= |s.offers|
    && (s.completedAt.Some? <==> IsTerminal(s.status))
    && (s.agreedPrice.Some? <==> s.status == AGREED)
    && (s.status == SELLER_RESPONSE ==> |s.offers| >= 1)
    && (s.status == ROUND_LOOP ==> |s.offers| >= 2)
    && s.status != INIT && s.status != STALLED
  }

  lemma OfferKeepsRow(s: State, offer: Offer)
    requires RowSound(s) && WithOffer(s, offer).Ok?
    ensures RowSound(WithOffer(s, offer).value)
  {
  }

  lemma EndingKeepsRow(s: State, ending: Ending, price: Price, now: int)
    requires RowSound(s) && Handled(s, ending, price, now).Ok?
    ensures RowSound(Handled(s, ending, price, now).value)
  {
  }

  lemma EngineKeepsRow(s: State, turn: Turn, now: int)
    requires RowSound(s) && Settled(turn.session) == Settled(s)
    ensures RowSound(AfterEngine(s, turn, now).session)
  {
    if turn.result.Completed? {
      var offer := turn.result.offer;
      var added := WithOffer(turn.session, offer);
      if added.Ok? {
        OfferKeepsRow(turn.session, offer);
        var ending := EndingOf(offer.reasoning, added.value.stallCounter);
        if Handled(added.value, ending, offer.price, now).Ok? {
          EndingKeepsRow(added.value, ending, offer.price, now);
        }
      }
    }
  }

  lemma ServeKeepsRow(s: State, op: Op)
    requires RowSound(s)
    ensures RowSound(Serve(s, op))
  {
    match op
    case RunTurn(x) =>
      EngineKeepsRest(s, x);
      EngineKeepsRow(s, EngineTurn(s, x), x.now);
    case HumanOverride(price, knownCurrency) => OverrideKeepsRow(s, price, knownCurrency);
    case _ =>
  }

  lemma OverrideKeepsRow(s: State, price: real, knownCurrency: bool)
    requires RowSound(s)
    ensures RowSound(Override(s, price, knownCurrency).session)
  {
    var served := Override(s, price, knownCurrency);
    if served.result.Ok? {
      OfferKeepsRow(if s.status == HUMAN_REVIEW then Resumed(s).value else s, served.result.value);
    }
  }

  ghost predicate DbSound(db: Db) {
    && RowSound(db.stored)
    && forall t :: t in db.pending ==>
         RowSound(db.pending[t].loaded) && db.pending[t].loaded.offers <= db.stored.offers
  }

  lemma WrittenKeepsRow(stored: State, loaded: State, after: State)
    requires RowSound(stored) && RowSound(after) && loaded.offers <= stored.offers && loaded.offers <= after.offers
    ensures RowSound(Written(stored, loaded, after)) && stored.offers <= Written(stored, loaded, after).offers
  {
  }

  lemma NextKeepsSound(db: Db, e: Event)
    requires DbSound(db)
    ensures DbSound(Next(db, e)) && db.stored.offers <= Next(db, e).stored.offers
  {
    if e.Store? && e.t in db.pending {
      var r := db.pending[e.t];
      ServeKeepsRow(r.loaded, r.op);
      ServeAppends(r.loaded, r.op);
      WrittenKeepsRow(db.stored, r.loaded, Serve(r.loaded, r.op));
    }
  }

  /**
   Under every interleaving of any requests: no offer is lost or changed, the round stays within 20
   and never exceeds the offers, an end time marks exactly the terminal states and a price exactly
   AGREED, and INIT and STALLED are never stored.
   */
  lemma {:induction false} EveryInterleavingRowSound(db: Db, events: seq<Event>)
    requires DbSound(db)
    ensures DbSound(Play(db, events)) && db.stored.offers <= Play(db, events).stored.offers
    decreases |events|
  {
    if events != [] {
      NextKeepsSound(db, events[0]);
      EveryInterleavingRowSound(Next(db, events[0]), events[1..]);
    }
  }

  lemma CreatedUnderOverlap(id: nat, events: seq<Event>)
    ensures RowSound(Play(Db(Created(id), map[]), events).stored)
  {
    EveryInterleavingRowSound(Db(Created(id), map[]), events);
  }
}
