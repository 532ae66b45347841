/**
 The Redis-backed event list of one session and the stream endpoint that polls it: publishing
 pushes and trims, the key may expire at any time, and the endpoint replays and then polls
 from the id of the last event it sent.
 */
module SsePublisher {
  import opened Wrappers
  import opened SseParser

  const MAX_EVENTS_PER_SESSION := 1000

  // ----- The list ------------------------------------------------------------------------------

  /** LTRIM key -n -1. */
  function KeepLast(s: seq<Event>, n: nat): seq<Event> {
    if |s| <= n then s else s[|s| - n..]
  }

  /** The events after the first one with this id; all of them if there is none. */
  function Since(s: seq<Event>, lastId: Option<string>): seq<Event> {
    if lastId.None? then s
    else match Find(s, lastId.value)
         case Some(i) => s[i + 1..]
         case None => s
  }

  function Find(s: seq<Event>, id: string): (r: Option<nat>)
    ensures r.Some? ==> r.value < |s| && s[r.value].eventId == id
    ensures r.Some? ==> forall j :: 0 <= j < r.value ==> s[j].eventId != id
    ensures r.None? ==> forall j :: 0 <= j < |s| ==> s[j].eventId != id
  {
    if s == [] then None
    else if s[0].eventId == id then Some(0)
    else match Find(s[1..], id)
         case Some(i) => Some(i + 1)
         case None => None
  }

  class RedisSsePublisher {
    var events: seq<Event>

    constructor ()
      ensures events == []
    {
      events := [];
    }

    method PublishTurn(ev: Event)
      modifies this
      ensures events == KeepLast(old(events) + [ev], MAX_EVENTS_PER_SESSION)
    {
      events := events + [ev];
      events := KeepLast(events, MAX_EVENTS_PER_SESSION);
    }

    method PublishTerminal(ev: Event)
      modifies this
      ensures events == KeepLast(old(events) + [ev.(terminal := true)], MAX_EVENTS_PER_SESSION)
    {
      PublishTurn(ev.(terminal := true));
    }

    method GetEventsSince(lastId: Option<string>) returns (r: seq<Event>)
      ensures r == Since(events, lastId)
    {
      if lastId.None? { return events; }
      var i := 0;
      while i < |events|
        invariant 0 <= i <= |events|
        invariant forall j :: 0 <= j < i ==> events[j].eventId != lastId.value
      {
        if events[i].eventId == lastId.value { return events[i + 1..]; }
        i := i + 1;
      }
      return events;
    }
  }

  // ----- What a poll returns, in terms of everything ever published --------------------------------

  function Max(a: int, b: int): int {
    if a < b then b else a
  }

  ghost predicate DistinctIds(s: seq<Event>) {
    forall i, j :: 0 <= i < j < |s| ==> s[i].eventId != s[j].eventId
  }

  /**
   With distinct ids, asking for what came after a published event gives exactly the retained
   events published after it, even if the event itself has been trimmed or expired.
   */
  lemma SincePublished(pub: seq<Event>, lo: nat, k: nat)
    requires lo <= |pub| && k < |pub| && DistinctIds(pub)
    ensures Since(pub[lo..], Some(pub[k].eventId)) == pub[Max(lo, k + 1)..]
  {
    var r := Find(pub[lo..], pub[k].eventId);
    if lo <= k {
      assert pub[lo..][k - lo].eventId == pub[k].eventId;
      assert r.Some? && lo + r.value == k;
    }
  }

  /** Trimming keeps the retained list a suffix of what was published: the last 1000 at most. */
  lemma PublishRetains(pub: seq<Event>, lo: nat, ev: Event)
    requires lo <= |pub|
    ensures KeepLast(pub[lo..] + [ev], MAX_EVENTS_PER_SESSION) ==
            (pub + [ev])[Max(lo, |pub| + 1 - MAX_EVENTS_PER_SESSION)..]
  {
    assert pub[lo..] + [ev] == (pub + [ev])[lo..];
  }

  // ----- The stream endpoint ---------------------------------------------------------------------

  /** Everything published, how much of it is gone from Redis, the endpoint's cursor and what it sent. */
  datatype Sys = Sys(pub: seq<Event>, lo: nat, cursor: Option<string>, out: seq<Event>, open: bool)

  function Retained(s: Sys): seq<Event>
    requires s.lo <= |s.pub|
  {
    s.pub[s.lo..]
  }

  /** The polling loop returns in the middle of a batch, right after a terminal event. */
  function ThroughTerminal(s: seq<Event>): seq<Event> {
    if s == [] then [] else if s[0].terminal then [s[0]] else [s[0]] + ThroughTerminal(s[1..])
  }

  function LastIdOf(s: seq<Event>, otherwise: Option<string>): Option<string> {
    if s == [] then otherwise else Some(s[|s| - 1].eventId)
  }

  /** Connecting replays without looking for terminal events. */
  function Connect(pub: seq<Event>, lo: nat, lastId: Option<string>): Sys
    requires lo <= |pub|
  {
    var events := Since(pub[lo..], lastId);
    Sys(pub, lo, LastIdOf(events, lastId), events, true)
  }

  datatype Action = Publish(ev: Event) | Expire | Poll | Disconnect

  function Step(s: Sys, a: Action): Sys
    requires s.lo <= |s.pub|
    ensures Step(s, a).lo <= |Step(s, a).pub|
  {
    match a
    case Publish(ev) => s.(pub := s.pub + [ev], lo := Max(s.lo, |s.pub| + 1 - MAX_EVENTS_PER_SESSION))
    case Expire => s.(lo := |s.pub|)
    case Disconnect => s.(open := false)
    case Poll =>
      if !s.open then s
      else
        var sent := ThroughTerminal(Since(Retained(s), s.cursor));
        s.(out := s.out + sent, cursor := LastIdOf(sent, s.cursor),
           open := sent == [] || !sent[|sent| - 1].terminal)
  }

  function Run(s: Sys, actions: seq<Action>): Sys
    requires s.lo <= |s.pub|
    decreases |actions|
  {
    if actions == [] then s else Run(Step(s, actions[0]), actions[1..])
  }

  class EventGenerator {
    var currentLastId: Option<string>
    var sent: seq<Event>
    var open: bool

    /** Replay on connect. */
    constructor (pub: RedisSsePublisher, lastId: Option<string>)
      ensures sent == Since(pub.events, lastId) && currentLastId == LastIdOf(sent, lastId) && open
    {
      var events := pub.GetEventsSince(lastId);
      sent := events;
      currentLastId := if events != [] then Some(events[|events| - 1].eventId) else lastId;
      open := true;
    }

    /** One turn of the polling loop. */
    method PollOnce(pub: RedisSsePublisher)
      requires open
      modifies this
      ensures var batch := ThroughTerminal(Since(pub.events, old(currentLastId)));
              && sent == old(sent) + batch
              && currentLastId == LastIdOf(batch, old(currentLastId))
              && open == (batch == [] || !batch[|batch| - 1].terminal)
    {
      var newEvents := pub.GetEventsSince(currentLastId);
      var i := 0;
      while i < |newEvents|
        invariant 0 <= i <= |newEvents| && open
        invariant sent == old(sent) + newEvents[..i]
        invariant currentLastId == LastIdOf(newEvents[..i], old(currentLastId))
        invariant forall j :: 0 <= j < i ==> !newEvents[j].terminal
      {
        var ev := newEvents[i];
        sent := sent + [ev];
        currentLastId := Some(ev.eventId);
        assert newEvents[..i + 1] == newEvents[..i] + [ev];
        if ev.terminal {
          open := false;
          ThroughTerminalIs(newEvents, i + 1);
          return;
        }
        i := i + 1;
      }
      ThroughTerminalIs(newEvents, i);
      assert newEvents[..i] == newEvents;
    }
  }

  lemma {:induction false} ThroughTerminalIs(s: seq<Event>, n: nat)
    requires n <= |s| && forall j :: 0 <= j < n - 1 ==> !s[j].terminal
    requires (n == |s| && (n > 0 ==> !s[n - 1].terminal)) || (n > 0 && s[n - 1].terminal)
    ensures ThroughTerminal(s) == s[..n]
  {
    if n > 0 && !s[0].terminal {
      ThroughTerminalIs(s[1..], n - 1);
      assert s[..n] == [s[0]] + s[1..][..n - 1];
    }
  }

  lemma {:induction false} ThroughTerminalPrefix(s: seq<Event>) returns (n: nat)
    ensures n <= |s| && ThroughTerminal(s) == s[..n]
    ensures forall j :: 0 <= j < n - 1 ==> !s[j].terminal
    ensures n < |s| ==> n > 0 && s[n - 1].terminal
  {
    if s == [] || s[0].terminal {
      n := if s == [] then 0 else 1;
    } else {
      var m := ThroughTerminalPrefix(s[1..]);
      n := m + 1;
      assert s[..n] == [s[0]] + s[1..][..m];
      forall j | 0 <= j < n - 1 ensures !s[j].terminal {
        if j > 0 { assert s[j] == s[1..][j - 1]; }
      }
    }
  }

  // ----- The invariant of the cursor ---------------------------------------------------------------

  /** A UUID is new, and nobody guessed it as a cursor beforehand. */
  ghost predicate Legal(s: Sys, a: Action) {
    a.Publish? ==> (forall i :: 0 <= i < |s.pub| ==> s.pub[i].eventId != a.ev.eventId) && s.cursor != Some(a.ev.eventId)
  }

  ghost predicate LegalRun(s: Sys, actions: seq<Action>)
    requires s.lo <= |s.pub|
    decreases |actions|
  {
    actions == [] || (Legal(s, actions[0]) && LegalRun(Step(s, actions[0]), actions[1..]))
  }

  /** The cursor stands before position `next` of everything published, as far as Redis can still tell. */
  ghost predicate CursorAt(s: Sys, next: nat) {
    || (exists k :: 0 <= k < |s.pub| && s.cursor == Some(s.pub[k].eventId) && Max(s.lo, next) == Max(s.lo, k + 1))
    || (next <= s.lo && (s.cursor.Some? ==> forall k :: 0 <= k < |s.pub| ==> s.pub[k].eventId != s.cursor.value))
  }

  ghost predicate Inv(s: Sys, next: nat) {
    s.lo <= |s.pub| && next <= |s.pub| && DistinctIds(s.pub) && CursorAt(s, next)
  }

  lemma PollReturns(s: Sys, next: nat)
    requires Inv(s, next)
    ensures Since(Retained(s), s.cursor) == s.pub[Max(s.lo, next)..]
  {
    if k :| 0 <= k < |s.pub| && s.cursor == Some(s.pub[k].eventId) && Max(s.lo, next) == Max(s.lo, k + 1) {
      SincePublished(s.pub, s.lo, k);
    } else if s.cursor.Some? {
      assert Find(Retained(s), s.cursor.value).None?;
    }
  }

  lemma ConnectInv(pub: seq<Event>, lo: nat, lastId: Option<string>)
    requires lo <= |pub| && DistinctIds(pub)
    ensures Inv(Connect(pub, lo, lastId), |pub|)
  {
    var s := Connect(pub, lo, lastId);
    var from := ReplayIsSuffix(pub, lo, lastId);
    if from < |pub| {
      CursorAtSent(s, |pub|);
    } else {
      ReplayedNothing(pub, lo, lastId);
    }
  }

  lemma ReplayedNothing(pub: seq<Event>, lo: nat, lastId: Option<string>)
    requires lo <= |pub| && DistinctIds(pub) && Connect(pub, lo, lastId).out == []
    ensures CursorAt(Connect(pub, lo, lastId), |pub|)
  {
    if k :| 0 <= k < |pub| && lastId == Some(pub[k].eventId) {
      SincePublished(pub, lo, k);
      assert |pub[Max(lo, k + 1)..]| == 0;
    } else {
      assert lastId.Some? ==> Find(pub[lo..], lastId.value).None?;
      assert |pub[lo..]| == 0;
    }
  }

  lemma PollNothing(s: Sys, next: nat)
    requires Inv(s, next) && s.open && Max(s.lo, next) == |s.pub|
    ensures Step(s, Poll) == s && Inv(s, |s.pub|)
  {
    PollReturns(s, next);
    assert s.pub[|s.pub|..] == [];
    assert s.out + [] == s.out;
    if k :| 0 <= k < |s.pub| && s.cursor == Some(s.pub[k].eventId) && Max(s.lo, next) == Max(s.lo, k + 1) {
      assert Max(s.lo, |s.pub|) == Max(s.lo, k + 1);
    }
  }

  /** t is s after sending the block from `from` to `stop`, up to the first terminal event in it. */
  ghost predicate Sent(s: Sys, t: Sys, from: nat, stop: nat) {
    && from <= stop <= |s.pub| && t.out == s.out + s.pub[from..stop] && t.pub == s.pub
    && (forall j :: from <= j < stop - 1 ==> !s.pub[j].terminal)
    && (t.open ==> stop == |s.pub| && (stop > from ==> !s.pub[stop - 1].terminal))
    && (!t.open ==> stop > from && s.pub[stop - 1].terminal)
  }

  /** A poll sends a contiguous block starting at the first retained unread event. */
  lemma PollBlock(s: Sys, next: nat) returns (stop: nat)
    requires Inv(s, next) && s.open
    ensures Sent(s, Step(s, Poll), Max(s.lo, next), stop) && Inv(Step(s, Poll), stop)
  {
    var from := Max(s.lo, next);
    if from == |s.pub| {
      PollNothing(s, next);
      stop := from;
      assert s.out + s.pub[from..stop] == s.out;
    } else {
      stop := PollSomething(s, next);
    }
  }

  lemma PollSomething(s: Sys, next: nat) returns (stop: nat)
    requires Inv(s, next) && s.open && Max(s.lo, next) < |s.pub|
    ensures Sent(s, Step(s, Poll), Max(s.lo, next), stop) && Inv(Step(s, Poll), stop)
  {
    PollReturns(s, next);
    stop := SendBlock(s, Max(s.lo, next));
    CursorAtSent(Step(s, Poll), stop);
  }

  lemma SendBlock(s: Sys, from: nat) returns (stop: nat)
    requires s.lo <= |s.pub| && s.open && from < |s.pub| && Since(Retained(s), s.cursor) == s.pub[from..]
    ensures var t := Step(s, Poll);
            Sent(s, t, from, stop) && from < stop && t.cursor == Some(s.pub[stop - 1].eventId) && t.lo == s.lo
  {
    var n := BatchOf(s.pub, from);
    stop := from + n;
    PollSome(s, from, stop);
  }

  lemma PollSome(s: Sys, from: nat, stop: nat)
    requires s.lo <= |s.pub| && s.open && from < stop <= |s.pub|
    requires ThroughTerminal(Since(Retained(s), s.cursor)) == s.pub[from..stop]
    ensures var t := Step(s, Poll);
            && t.out == s.out + s.pub[from..stop] && t.cursor == Some(s.pub[stop - 1].eventId)
            && t.open == !s.pub[stop - 1].terminal && t.pub == s.pub && t.lo == s.lo
  {
    var sent := s.pub[from..stop];
    assert sent[|sent| - 1] == s.pub[stop - 1];
  }

  lemma BatchOf(pub: seq<Event>, from: nat) returns (n: nat)
    requires from < |pub|
    ensures 0 < n <= |pub| - from && ThroughTerminal(pub[from..]) == pub[from..from + n]
    ensures forall j :: from <= j < from + n - 1 ==> !pub[j].terminal
    ensures from + n < |pub| ==> pub[from + n - 1].terminal
  {
    var batch := pub[from..];
    n := ThroughTerminalPrefix(batch);
    assert batch[..n] == pub[from..from + n];
    forall j | from <= j < from + n - 1 ensures !pub[j].terminal {
      assert pub[j] == batch[j - from];
    }
  }

  lemma CursorAtSent(t: Sys, stop: nat)
    requires t.lo <= |t.pub| && DistinctIds(t.pub) && 0 < stop <= |t.pub| && t.cursor == Some(t.pub[stop - 1].eventId)
    ensures Inv(t, stop)
  {
  }

  lemma OtherKeepsInv(s: Sys, next: nat, a: Action)
    requires Inv(s, next) && Legal(s, a) && !a.Poll?
    ensures Inv(Step(s, a), next) && Step(s, a).out == s.out && s.pub <= Step(s, a).pub
  {
    var t := Step(s, a);
    if k :| 0 <= k < |s.pub| && s.cursor == Some(s.pub[k].eventId) && Max(s.lo, next) == Max(s.lo, k + 1) {
      assert t.cursor == Some(t.pub[k].eventId) && Max(t.lo, next) == Max(t.lo, k + 1);
    }
  }

  // ----- Every run: published order, no duplicates -----------------------------------------------

  /** `out` is the subsequence of `pub` at the strictly increasing positions `at`, all below `next`. */
  ghost predicate SentAt(pub: seq<Event>, out: seq<Event>, at: seq<nat>, next: nat) {
    && |at| == |out|
    && (forall i :: 0 <= i < |at| ==> at[i] < next && at[i] < |pub| && out[i] == pub[at[i]])
    && (forall i, j :: 0 <= i < j < |at| ==> at[i] < at[j])
  }

  function Range(from: nat, to: nat): (r: seq<nat>)
    requires from <= to
    ensures |r| == to - from && forall i :: 0 <= i < |r| ==> r[i] == from + i
  {
    seq(to - from, i requires 0 <= i < to - from => from + i)
  }

  lemma SentExtend(pub: seq<Event>, out: seq<Event>, at: seq<nat>, next: nat, from: nat, stop: nat)
    requires SentAt(pub, out, at, next) && next <= from <= stop <= |pub|
    ensures SentAt(pub, out + pub[from..stop], at + Range(from, stop), stop)
  {
  }

  lemma SentGrows(pub: seq<Event>, out: seq<Event>, at: seq<nat>, next: nat, pub': seq<Event>, next': nat)
    requires SentAt(pub, out, at, next) && pub <= pub' && next <= next'
    ensures SentAt(pub', out, at, next')
  {
  }

  lemma {:induction false} RunSendsInOrder(s: Sys, actions: seq<Action>, next: nat, at: seq<nat>) returns (at': seq<nat>)
    requires Inv(s, next) && LegalRun(s, actions) && SentAt(s.pub, s.out, at, next)
    ensures SentAt(Run(s, actions).pub, Run(s, actions).out, at', |Run(s, actions).pub|)
    decreases |actions|
  {
    if actions == [] {
      at' := at;
      SentGrows(s.pub, s.out, at, next, s.pub, |s.pub|);
    } else {
      var t := Step(s, actions[0]);
      if actions[0].Poll? {
        var from, stop, sent := next, next, at;
        if s.open {
          from := Max(s.lo, next);
          stop := PollBlock(s, next);
          SentExtend(s.pub, s.out, at, next, from, stop);
          sent := at + Range(from, stop);
        }
        at' := RunSendsInOrder(t, actions[1..], stop, sent);
      } else {
        OtherKeepsInv(s, next, actions[0]);
        SentGrows(s.pub, s.out, at, next, t.pub, next);
        at' := RunSendsInOrder(t, actions[1..], next, at);
      }
    }
  }

  /**
   Whatever the publishing, trimming, expiring and polling, the events sent on one connection are
   published events in publication order, none of them twice.
   */
  lemma StreamInOrder(pub: seq<Event>, lo: nat, lastId: Option<string>, actions: seq<Action>) returns (at: seq<nat>)
    requires lo <= |pub| && DistinctIds(pub) && LegalRun(Connect(pub, lo, lastId), actions)
    ensures var s := Run(Connect(pub, lo, lastId), actions);
            SentAt(s.pub, s.out, at, |s.pub|)
  {
    ConnectInv(pub, lo, lastId);
    var sent := ReplaySent(pub, lo, lastId);
    at := RunSendsInOrder(Connect(pub, lo, lastId), actions, |pub|, sent);
  }

  lemma ReplaySent(pub: seq<Event>, lo: nat, lastId: Option<string>) returns (at: seq<nat>)
    requires lo <= |pub|
    ensures SentAt(pub, Connect(pub, lo, lastId).out, at, |pub|)
  {
    var from := ReplayIsSuffix(pub, lo, lastId);
    at := Range(from, |pub|);
  }

  lemma ReplayIsSuffix(pub: seq<Event>, lo: nat, lastId: Option<string>) returns (from: nat)
    requires lo <= |pub|
    ensures from <= |pub| && Connect(pub, lo, lastId).out == pub[from..]
  {
    var r := if lastId.None? then None else Find(pub[lo..], lastId.value);
    from := if r.Some? then lo + r.value + 1 else lo;
  }

  // ----- Runs that keep up: nothing is missed -----------------------------------------------------

  /** No expiry, and at most 1000 events published between polls; `n` were published since the last one. */
  predicate KeepsUp(actions: seq<Action>, n: nat)
    decreases |actions|
  {
    if actions == [] then true
    else match actions[0]
         case Publish(_) => KeepsUp(actions[1..], n + 1)
         case Expire => false
         case Poll => n <= MAX_EVENTS_PER_SESSION && KeepsUp(actions[1..], 0)
         case Disconnect => KeepsUp(actions[1..], n)
  }

  /** How many events a run publishes after its last poll. */
  function Unpolled(actions: seq<Action>, n: nat): nat
    decreases |actions|
  {
    if actions == [] then n
    else match actions[0]
         case Publish(_) => Unpolled(actions[1..], n + 1)
         case Poll => Unpolled(actions[1..], 0)
         case _ => Unpolled(actions[1..], n)
  }

  /**
   On top of `before`, the positions from `next` to `next'` were sent, without gaps; no terminal event
   was passed over, and while the connection is open exactly `unpolled` events are still unsent.
   */
  ghost predicate SentThrough(before: seq<Event>, t: Sys, next: nat, next': nat, unpolled: nat) {
    && next <= next' <= |t.pub|
    && t.out == before + t.pub[next..next']
    && (t.open ==> |t.pub| - next' == unpolled)
    && (forall j :: next <= j < next' - 1 ==> !t.pub[j].terminal)
    && (t.open && next < next' ==> !t.pub[next' - 1].terminal)
  }

  lemma JoinBlocks(before: seq<Event>, pub: seq<Event>, p: seq<Event>, a: nat, b: nat, c: nat)
    requires a <= b <= c <= |p| && pub <= p && b <= |pub|
    ensures before + pub[a..b] + p[b..c] == before + p[a..c]
    ensures before + pub[a..b] == before + p[a..b]
  {
  }

  /**
   A connection that keeps up sends every event from position `next` on, without gaps, until it is
   closed by a terminal event or the client; while open only the events since the last poll are missing.
   */
  lemma {:induction false} NothingMissed(s: Sys, actions: seq<Action>, next: nat) returns (next': nat)
    requires Inv(s, next) && LegalRun(s, actions) && s.open
    requires s.lo <= Max(next, |s.pub| - MAX_EVENTS_PER_SESSION)
    requires KeepsUp(actions, |s.pub| - next)
    ensures SentThrough(s.out, Run(s, actions), next, next', Unpolled(actions, |s.pub| - next))
    decreases |actions|, 1
  {
    if actions == [] {
      next' := next;
    } else {
      var t := Step(s, actions[0]);
      if actions[0].Poll? {
        next' := PollThenRest(s, actions, next);
      } else if actions[0].Disconnect? {
        ClosedIsSilent(t, actions[1..]);
        RunOnlyAppends(t, actions[1..]);
        next' := next;
      } else {
        OtherKeepsInv(s, next, actions[0]);
        next' := NothingMissed(t, actions[1..], next);
      }
    }
  }

  lemma {:induction false} PollThenRest(s: Sys, actions: seq<Action>, next: nat) returns (next': nat)
    requires actions != [] && actions[0].Poll?
    requires Inv(s, next) && LegalRun(s, actions) && s.open
    requires s.lo <= Max(next, |s.pub| - MAX_EVENTS_PER_SESSION)
    requires KeepsUp(actions, |s.pub| - next)
    ensures SentThrough(s.out, Run(s, actions), next, next', Unpolled(actions, |s.pub| - next))
    decreases |actions|, 0
  {
    var t := Step(s, actions[0]);
    var stop := PollBlock(s, next);
    RunOnlyAppends(t, actions[1..]);
    if t.open {
      next' := NothingMissed(t, actions[1..], stop);
      Continue(s.out, s.pub, Run(s, actions), next, stop, next', Unpolled(actions[1..], 0));
    } else {
      ClosedIsSilent(t, actions[1..]);
      next' := stop;
      Finish(s.out, s.pub, Run(s, actions), next, stop);
    }
  }

  lemma Continue(before: seq<Event>, pub: seq<Event>, t: Sys, next: nat, stop: nat, next': nat, unpolled: nat)
    requires next <= stop <= |pub| && pub <= t.pub
    requires SentThrough(before + pub[next..stop], t, stop, next', unpolled)
    requires forall j :: next <= j < stop ==> !pub[j].terminal
    ensures SentThrough(before, t, next, next', unpolled)
  {
    JoinBlocks(before, pub, t.pub, next, stop, next');
    forall j | next <= j < next' - 1 ensures !t.pub[j].terminal {
      assert j < stop ==> t.pub[j] == pub[j];
    }
    assert next < stop == next' ==> t.pub[next' - 1] == pub[stop - 1];
  }

  lemma Finish(before: seq<Event>, pub: seq<Event>, t: Sys, next: nat, stop: nat)
    requires next <= stop <= |pub| && pub <= t.pub && !t.open && t.out == before + pub[next..stop]
    requires forall j :: next <= j < stop - 1 ==> !pub[j].terminal
    ensures forall unpolled :: SentThrough(before, t, next, stop, unpolled)
  {
    JoinBlocks(before, pub, t.pub, next, stop, stop);
    forall j | next <= j < stop - 1 ensures !t.pub[j].terminal {
      assert t.pub[j] == pub[j];
    }
  }

  lemma {:induction false} ClosedIsSilent(s: Sys, actions: seq<Action>)
    requires s.lo <= |s.pub| && !s.open
    ensures Run(s, actions).out == s.out && !Run(s, actions).open
    decreases |actions|
  {
    if actions != [] {
      ClosedIsSilent(Step(s, actions[0]), actions[1..]);
    }
  }

  lemma {:induction false} RunOnlyAppends(s: Sys, actions: seq<Action>)
    requires s.lo <= |s.pub|
    ensures s.pub <= Run(s, actions).pub
    decreases |actions|
  {
    if actions != [] {
      RunOnlyAppends(Step(s, actions[0]), actions[1..]);
    }
  }

  /**
   Reconnecting with the id of the k-th published event while it is within the last 1000 loses
   nothing: replay and polling together send everything published after it.
   */
  lemma ReconnectComplete(pub: seq<Event>, lo: nat, lastId: string, k: nat, actions: seq<Action>) returns (next: nat)
    requires DistinctIds(pub) && k < |pub| && pub[k].eventId == lastId
    requires lo == Max(0, |pub| - MAX_EVENTS_PER_SESSION) && lo <= k + 1
    requires LegalRun(Connect(pub, lo, Some(lastId)), actions) && KeepsUp(actions, 0)
    ensures var s := Run(Connect(pub, lo, Some(lastId)), actions);
            && |pub| <= next <= |s.pub| && s.out == s.pub[k + 1..next]
            && (s.open ==> |s.pub| - next == Unpolled(actions, 0))
  {
    var c := Connect(pub, lo, Some(lastId));
    ConnectInv(pub, lo, Some(lastId));
    SincePublished(pub, lo, k);
    next := StreamFrom(c, actions, k + 1);
  }

  lemma StreamFrom(c: Sys, actions: seq<Action>, from: nat) returns (next: nat)
    requires Inv(c, |c.pub|) && c.open && c.lo <= |c.pub| && from <= |c.pub| && c.out == c.pub[from..]
    requires LegalRun(c, actions) && KeepsUp(actions, 0)
    ensures var s := Run(c, actions);
            && |c.pub| <= next <= |s.pub| && s.out == s.pub[from..next]
            && (s.open ==> |s.pub| - next == Unpolled(actions, 0))
  {
    next := NothingMissed(c, actions, |c.pub|);
    RunOnlyAppends(c, actions);
    SuffixThenBlock(c.pub, Run(c, actions).pub, from, next);
  }

  lemma SuffixThenBlock(pub: seq<Event>, p: seq<Event>, from: nat, to: nat)
    requires pub <= p && from <= |pub| <= to <= |p|
    ensures pub[from..] + p[|pub|..to] == p[from..to]
  {
  }

  /** From the list in Redis to the browser: the callbacks are the sent events, in publication order. */
  lemma ClientSeesPublished<D>(parse: string -> Option<D>, pub: seq<Event>, lo: nat, lastId: Option<string>,
                               actions: seq<Action>, chunks: seq<string>) returns (at: seq<nat>)
    requires lo <= |pub| && DistinctIds(pub) && LegalRun(Connect(pub, lo, lastId), actions)
    requires var s := Run(Connect(pub, lo, lastId), actions);
             && Concat(chunks) == PrintAll(s.out)
             && forall i :: 0 <= i < |s.pub| ==> WellPrinted(parse, s.pub[i]) && Carriable(s.pub[i])
    ensures var s := Run(Connect(pub, lo, lastId), actions);
            var delivered := ConsumeAll(parse, Client("", "", []), chunks).delivered;
            && SentAt(s.pub, s.out, at, |s.pub|)
            && |delivered| == |at|
            && forall i :: 0 <= i < |at| ==>
                 && WellPrinted(parse, s.pub[at[i]])
                 && delivered[i].0 == (if s.pub[at[i]].event.Some? then s.pub[at[i]].event.value else "message")
                 && delivered[i].1 == parse(s.pub[at[i]].json).value
  {
    at := StreamInOrder(pub, lo, lastId, actions);
    var s := Run(Connect(pub, lo, lastId), actions);
    assert forall i :: 0 <= i < |s.out| ==> s.out[i] == s.pub[at[i]];
    RoundTripIff(parse, s.out, chunks);
    if s.out != [] { ExpectedAt(parse, s.out, 0); }
    forall i | 0 <= i < |at|
      ensures WellPrinted(parse, s.pub[at[i]])
      ensures Expected(parse, s.out)[i].0 == (if s.pub[at[i]].event.Some? then s.pub[at[i]].event.value else "message")
      ensures Expected(parse, s.out)[i].1 == parse(s.pub[at[i]].json).value
    {
      ExpectedAt(parse, s.out, i);
    }
  }

  /** The list holds the last thousand of what was published, or all of it, and nothing else. */
  lemma ThousandRetained(s: Sys, ev: Event)
    requires s.lo <= |s.pub|
    ensures var kept := Retained(Step(s, Publish(ev))); kept == (s.pub + [ev])[|s.pub| + 1 - |kept|..]
    ensures |Retained(Step(s, Publish(ev)))| == if |s.pub| - s.lo < 1000 then |s.pub| - s.lo + 1 else 1000
  {
  }
}
