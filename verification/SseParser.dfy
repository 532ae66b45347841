/**
 Server-sent events on the wire: the frames the stream endpoint prints and the incremental
 line-buffer parser of the useSSE hook. Text is modelled after UTF-8 decoding, and JSON.parse
 is a parameter: any partial function from text to data.
 */
module SseParser {
  import opened Sequences
  import opened Wrappers

  /** One stored event: its id, its optional "event" field, its JSON text and its terminal flag. */
  datatype Event = Event(eventId: string, event: Option<string>, json: string, terminal: bool)

  // ----- JavaScript's trim and split -----------------------------------------------------------

  predicate IsSpace(c: char) {
    || c in {'\t', '\n', '\U{000B}', '\U{000C}', '\r', ' ', '\U{00A0}', '\U{1680}'}
    || '\U{2000}' <= c <= '\U{200A}'
    || c in {'\U{2028}', '\U{2029}', '\U{202F}', '\U{205F}', '\U{3000}', '\U{FEFF}'}
  }

  function TrimStart(s: string): string {
    if s != "" && IsSpace(s[0]) then TrimStart(s[1..]) else s
  }

  function TrimEnd(s: string): string {
    if s != "" && IsSpace(s[|s| - 1]) then TrimEnd(s[..|s| - 1]) else s
  }

  function Trim(s: string): string {
    TrimEnd(TrimStart(s))
  }

  function Split(s: string): (parts: seq<string>)
    ensures |parts| >= 1
  {
    if s == "" then [""]
    else
      var rest := Split(s[1..]);
      if s[0] == '\n' then [""] + rest else [[s[0]] + rest[0]] + rest[1..]
  }

  // ----- The client, one character at a time ---------------------------------------------------

  datatype Client<D> = Client(buffer: string, currentEvent: string, delivered: seq<(string, D)>)

  function OnLine<D>(parse: string -> Option<D>, st: Client<D>, line: string): Client<D> {
    var trimmed := Trim(line);
    if "event: " <= trimmed then st.(currentEvent := trimmed[7..])
    else if "data: " <= trimmed then
      var data := parse(trimmed[6..]);
      var fires := data.Some? && st.currentEvent != "";
      st.(delivered := if fires then st.delivered + [(st.currentEvent, data.value)] else st.delivered,
          currentEvent := "")
    else st
  }

  function OnChar<D>(parse: string -> Option<D>, st: Client<D>, c: char): Client<D> {
    if c == '\n' then OnLine(parse, st.(buffer := ""), st.buffer)
    else st.(buffer := st.buffer + [c])
  }

  /** The reference parser: one character after the other. */
  function Consume<D>(parse: string -> Option<D>, st: Client<D>, text: string): Client<D>
    decreases |text|
  {
    if text == "" then st else Consume(parse, OnChar(parse, st, text[0]), text[1..])
  }

  // ----- The client as written: whole reads, split into lines -------------------------------------

  function Lines<D>(parse: string -> Option<D>, st: Client<D>, parts: seq<string>): Client<D>
    requires |parts| >= 1
    decreases |parts|
  {
    if |parts| == 1 then st.(buffer := parts[0]) else Lines(parse, OnLine(parse, st, parts[0]), parts[1..])
  }

  lemma {:induction false} SplitOneLine(b: string)
    requires '\n' !in b
    ensures Split(b) == [b]
  {
    if b != "" {
      assert b == [b[0]] + b[1..];
      SplitOneLine(b[1..]);
    }
  }

  lemma {:induction false} SplitAtNewline(b: string, rest: string)
    requires '\n' !in b
    ensures Split(b + "\n" + rest) == [b] + Split(rest)
  {
    var s := b + "\n" + rest;
    if b == "" {
      assert s[1..] == rest;
    } else {
      assert b == [b[0]] + b[1..];
      assert s[1..] == b[1..] + "\n" + rest;
      SplitAtNewline(b[1..], rest);
    }
  }

  /** Splitting the buffered text into lines does what the character-wise parser does. */
  lemma {:induction false} SplittingRefines<D>(parse: string -> Option<D>, st: Client<D>, text: string)
    requires '\n' !in st.buffer
    ensures Consume(parse, st, text) == Lines(parse, st.(buffer := ""), Split(st.buffer + text))
    decreases |text|
  {
    var b := st.buffer;
    if text == "" {
      SplitOneLine(b);
      assert b + text == b;
    } else if text[0] == '\n' {
      var next := OnLine(parse, st.(buffer := ""), b);
      SplittingRefines(parse, next, text[1..]);
      assert next.buffer + text[1..] == text[1..];
      assert text == "\n" + text[1..];
      Associative(b, "\n", text[1..]);
      SplitAtNewline(b, text[1..]);
    } else {
      SplittingRefines(parse, st.(buffer := b + [text[0]]), text[1..]);
      assert text == [text[0]] + text[1..];
      Associative(b, [text[0]], text[1..]);
    }
  }

  lemma LinesOneMore<D>(parse: string -> Option<D>, st: Client<D>, parts: seq<string>, i: nat)
    requires i + 1 < |parts|
    ensures Lines(parse, st, parts[i..]) == Lines(parse, OnLine(parse, st, parts[i]), parts[i + 1..])
  {
    assert parts[i..][1..] == parts[i + 1..];
  }

  class SseClient<D> {
    const parse: string -> Option<D>
    var buffer: string
    var currentEvent: string
    var delivered: seq<(string, D)>

    function Snapshot(): Client<D>
      reads this
    {
      Client(buffer, currentEvent, delivered)
    }

    predicate Valid()
      reads this
    {
      '\n' !in buffer
    }

    constructor (parse: string -> Option<D>)
      ensures Valid() && Snapshot() == Client("", "", []) && this.parse == parse
    {
      this.parse := parse;
      buffer, currentEvent, delivered := "", "", [];
    }

    /** The body of the loop over lines. */
    method TakeLine(line: string)
      modifies this`currentEvent, this`delivered
      ensures Client("", currentEvent, delivered) == OnLine(parse, Client("", old(currentEvent), old(delivered)), line)
    {
      var trimmed := Trim(line);
      if "event: " <= trimmed {
        currentEvent := trimmed[7..];
      } else if "data: " <= trimmed {
        var data := parse(trimmed[6..]);
        if data.Some? && currentEvent != "" {
          delivered := delivered + [(currentEvent, data.value)];
        }
        currentEvent := "";
      }
    }

    /** One turn of the read loop. */
    method Receive(chunk: string)
      requires Valid()
      modifies this
      ensures Valid()
      ensures Snapshot() == Consume(parse, old(Snapshot()), chunk)
    {
      ghost var start := Snapshot();
      SplittingRefines(parse, start, chunk);
      ConsumeKeepsBufferOneLine(parse, start, chunk);
      buffer := buffer + chunk;
      var parts := Split(buffer);
      var last := |parts| - 1;
      buffer := parts[last];
      var i := 0;
      while i < last
        invariant 0 <= i <= last
        invariant buffer == parts[last]
        invariant Lines(parse, start.(buffer := ""), parts) ==
                  Lines(parse, Client("", currentEvent, delivered), parts[i..])
      {
        LinesOneMore(parse, Client("", currentEvent, delivered), parts, i);
        TakeLine(parts[i]);
        i := i + 1;
      }
    }
  }

  lemma {:induction false} ConsumeKeepsBufferOneLine<D>(parse: string -> Option<D>, st: Client<D>, text: string)
    requires '\n' !in st.buffer
    ensures '\n' !in Consume(parse, st, text).buffer
    decreases |text|
  {
    if text != "" {
      ConsumeKeepsBufferOneLine(parse, OnChar(parse, st, text[0]), text[1..]);
    }
  }

  // ----- Where the reads are cut does not matter -------------------------------------------------

  lemma {:induction false} ConsumeAppend<D>(parse: string -> Option<D>, st: Client<D>, a: string, b: string)
    ensures Consume(parse, st, a + b) == Consume(parse, Consume(parse, st, a), b)
    decreases |a|
  {
    if a == "" {
      assert a + b == b;
    } else {
      assert (a + b)[1..] == a[1..] + b;
      ConsumeAppend(parse, OnChar(parse, st, a[0]), a[1..], b);
    }
  }

  function Concat(chunks: seq<string>): string {
    if chunks == [] then "" else chunks[0] + Concat(chunks[1..])
  }

  function ConsumeAll<D>(parse: string -> Option<D>, st: Client<D>, chunks: seq<string>): Client<D>
    decreases |chunks|
  {
    if chunks == [] then st else ConsumeAll(parse, Consume(parse, st, chunks[0]), chunks[1..])
  }

  /** The outcome of a sequence of reads depends only on the text they add up to. */
  lemma {:induction false} ChunkingIrrelevant<D>(parse: string -> Option<D>, st: Client<D>, chunks: seq<string>)
    ensures ConsumeAll(parse, st, chunks) == Consume(parse, st, Concat(chunks))
    decreases |chunks|
  {
    if chunks != [] {
      ConsumeAppend(parse, st, chunks[0], Concat(chunks[1..]));
      ChunkingIrrelevant(parse, Consume(parse, st, chunks[0]), chunks[1..]);
    }
  }

  /** Callbacks are never taken back: reading more only adds to them. */
  lemma {:induction false} DeliveredGrows<D>(parse: string -> Option<D>, st: Client<D>, text: string)
    ensures st.delivered <= Consume(parse, st, text).delivered
    decreases |text|
  {
    if text != "" {
      DeliveredGrows(parse, OnChar(parse, st, text[0]), text[1..]);
    }
  }

  // ----- Frames printed by the server ------------------------------------------------------------

  function EventName(ev: Event): string {
    if ev.event.Some? then ev.event.value else "message"
  }

  function Frame(ev: Event): string {
    "id: " + ev.eventId + "\n" + "event: " + EventName(ev) + "\n" + "data: " + ev.json + "\n" + "\n"
  }

  function PrintAll(evs: seq<Event>): string {
    if evs == [] then "" else Frame(evs[0]) + PrintAll(evs[1..])
  }

  predicate EndsInk(s: string) {
    s != "" && !IsSpace(s[|s| - 1])
  }

  /** What the server guarantees: a UUID id, and one-line JSON text that the client can parse. */
  predicate WellPrinted<D>(parse: string -> Option<D>, ev: Event) {
    '\n' !in ev.eventId && '\n' !in ev.json && EndsInk(ev.json) && parse(ev.json).Some?
  }

  /** Names the line format can carry: one line, not empty, no space at the end. */
  predicate CarriableName(name: string) {
    '\n' !in name && EndsInk(name)
  }

  /** The stored event has no name of its own, or one the line format can carry. */
  predicate Carriable(ev: Event) {
    match ev.event
    case Some(name) => CarriableName(name)
    case None => true
  }

  /** The callback a stored event is meant to cause. */
  function Callback<D>(parse: string -> Option<D>, ev: Event): (string, D)
    requires parse(ev.json).Some?
  {
    match ev.event
    case Some(name) => (name, parse(ev.json).value)
    case None => ("message", parse(ev.json).value)
  }

  function Expected<D>(parse: string -> Option<D>, evs: seq<Event>): seq<(string, D)>
    requires forall i :: 0 <= i < |evs| ==> WellPrinted(parse, evs[i])
  {
    if evs == [] then []
    else
      assert WellPrinted(parse, evs[0]);
      [Callback(parse, evs[0])] + Expected(parse, evs[1..])
  }

  lemma TrimOfInk(s: string)
    requires EndsInk(s) && !IsSpace(s[0])
    ensures Trim(s) == s
  {
  }

  lemma {:induction false} TrimEndSlice(s: string)
    ensures TrimEnd(s) <= s && (TrimEnd(s) == "" || EndsInk(TrimEnd(s)))
    ensures s != "" && !IsSpace(s[0]) ==> TrimEnd(s) != ""
  {
    if s != "" && IsSpace(s[|s| - 1]) {
      TrimEndSlice(s[..|s| - 1]);
    }
  }

  lemma {:induction false} TrimStartKeeps(s: string, c: char)
    requires c !in s
    ensures c !in TrimStart(s)
  {
    if s != "" && IsSpace(s[0]) {
      TrimStartKeeps(s[1..], c);
    }
  }

  lemma TrimmedLine(line: string)
    requires '\n' !in line
    ensures '\n' !in Trim(line) && (Trim(line) == "" || EndsInk(Trim(line)))
  {
    TrimStartKeeps(line, '\n');
    TrimEndSlice(TrimStart(line));
  }

  lemma {:induction false} ConsumeLine<D>(parse: string -> Option<D>, st: Client<D>, line: string, rest: string)
    requires '\n' !in line
    ensures Consume(parse, st, line + "\n" + rest) ==
            Consume(parse, OnLine(parse, st.(buffer := ""), st.buffer + line), rest)
    decreases |line|
  {
    var text := line + "\n" + rest;
    if line == "" {
      assert text[1..] == rest && st.buffer + line == st.buffer;
    } else {
      assert line == [line[0]] + line[1..];
      assert text[1..] == line[1..] + "\n" + rest;
      ConsumeLine(parse, st.(buffer := st.buffer + [line[0]]), line[1..], rest);
      assert st.buffer + [line[0]] + line[1..] == st.buffer + line;
    }
  }

  lemma IdLineIgnored<D>(parse: string -> Option<D>, st: Client<D>, id: string)
    ensures OnLine(parse, st, "id: " + id) == st
  {
    var line := "id: " + id;
    TrimEndSlice(line);
    assert line[0] == 'i' && TrimStart(line) == line;
    assert Trim(line)[0] == 'i';
  }

  lemma EventLine<D>(parse: string -> Option<D>, st: Client<D>, name: string)
    requires CarriableName(name)
    ensures OnLine(parse, st, "event: " + name) == st.(currentEvent := name)
  {
    var line := "event: " + name;
    assert line[|line| - 1] == name[|name| - 1];
    TrimOfInk(line);
    assert line[7..] == name;
  }

  lemma DataLine<D>(parse: string -> Option<D>, st: Client<D>, ev: Event)
    requires WellPrinted(parse, ev) && st.currentEvent != ""
    ensures OnLine(parse, st, "data: " + ev.json) ==
            Client(st.buffer, "", st.delivered + [(st.currentEvent, parse(ev.json).value)])
  {
    var line := "data: " + ev.json;
    assert line[|line| - 1] == ev.json[|ev.json| - 1];
    TrimOfInk(line);
    assert line[0] == 'd' && line[6..] == ev.json;
  }

  lemma FullLine<D>(parse: string -> Option<D>, st: Client<D>, line: string, rest: string)
    requires '\n' !in line && st.buffer == ""
    ensures Consume(parse, st, line + "\n" + rest) == Consume(parse, OnLine(parse, st, line), rest)
  {
    ConsumeLine(parse, st, line, rest);
    assert st.buffer + line == line && st.(buffer := "") == st;
  }

  lemma FrameText(ev: Event, rest: string)
    ensures var r3 := "" + "\n" + rest;
            var r2 := ("data: " + ev.json) + "\n" + r3;
            var r1 := ("event: " + EventName(ev)) + "\n" + r2;
            Frame(ev) + rest == ("id: " + ev.eventId) + "\n" + r1
  {
  }

  lemma FrameDelivers<D>(parse: string -> Option<D>, st: Client<D>, ev: Event, rest: string)
    requires st.buffer == "" && WellPrinted(parse, ev) && Carriable(ev)
    ensures Consume(parse, st, Frame(ev) + rest) ==
            Consume(parse, Client("", "", st.delivered + [Callback(parse, ev)]), rest)
  {
    var r3 := "" + "\n" + rest;
    var r2 := ("data: " + ev.json) + "\n" + r3;
    var r1 := ("event: " + EventName(ev)) + "\n" + r2;
    var named := st.(currentEvent := EventName(ev));
    var fired := Client("", "", st.delivered + [Callback(parse, ev)]);
    FrameText(ev, rest);
    FullLine(parse, st, "id: " + ev.eventId, r1);
    IdLineIgnored(parse, st, ev.eventId);
    FullLine(parse, st, "event: " + EventName(ev), r2);
    EventLine(parse, st, EventName(ev));
    FullLine(parse, named, "data: " + ev.json, r3);
    DataLine(parse, named, ev);
    FullLine(parse, fired, "", rest);
  }

  lemma {:induction false} FramesDeliver<D>(parse: string -> Option<D>, st: Client<D>, evs: seq<Event>)
    requires st.buffer == "" && st.currentEvent == ""
    requires forall i :: 0 <= i < |evs| ==> WellPrinted(parse, evs[i]) && Carriable(evs[i])
    ensures Consume(parse, st, PrintAll(evs)) == Client("", "", st.delivered + Expected(parse, evs))
    decreases |evs|
  {
    if evs == [] {
      assert st.delivered + Expected(parse, evs) == st.delivered;
    } else {
      FrameDelivers(parse, st, evs[0], PrintAll(evs[1..]));
      var one := [Callback(parse, evs[0])];
      FramesDeliver(parse, Client("", "", st.delivered + one), evs[1..]);
      Associative(st.delivered, one, Expected(parse, evs[1..]));
    }
  }

  /** The client only ever calls back with carriable names. */
  ghost predicate OnlyCarriable<D>(st: Client<D>) {
    && '\n' !in st.buffer
    && (st.currentEvent == "" || CarriableName(st.currentEvent))
    && forall i :: 0 <= i < |st.delivered| ==> CarriableName(st.delivered[i].0)
  }

  lemma LineKeepsCarriable<D>(parse: string -> Option<D>, st: Client<D>, line: string)
    requires OnlyCarriable(st) && '\n' !in line
    ensures OnlyCarriable(OnLine(parse, st, line))
  {
    TrimmedLine(line);
    var t := Trim(line);
    if "event: " <= t {
      assert t[6] == ' ';
      assert |t| > 7 && t[7..][|t| - 8] == t[|t| - 1];
    }
  }

  lemma {:induction false} ConsumeKeepsCarriable<D>(parse: string -> Option<D>, st: Client<D>, text: string)
    requires OnlyCarriable(st)
    ensures OnlyCarriable(Consume(parse, st, text))
    decreases |text|
  {
    if text != "" {
      if text[0] == '\n' {
        LineKeepsCarriable(parse, st.(buffer := ""), st.buffer);
      }
      ConsumeKeepsCarriable(parse, OnChar(parse, st, text[0]), text[1..]);
    }
  }

  lemma {:induction false} ExpectedAt<D>(parse: string -> Option<D>, evs: seq<Event>, i: nat)
    requires forall j :: 0 <= j < |evs| ==> WellPrinted(parse, evs[j])
    requires i < |evs|
    ensures |Expected(parse, evs)| == |evs|
    ensures WellPrinted(parse, evs[i]) && Expected(parse, evs)[i].1 == parse(evs[i].json).value
    ensures Expected(parse, evs)[i].0 == if evs[i].event.Some? then evs[i].event.value else "message"
    decreases |evs|
  {
    if i > 0 {
      ExpectedAt(parse, evs[1..], i - 1);
    } else if |evs| > 1 {
      ExpectedAt(parse, evs[1..], 0);
    }
  }

  /**
   Printer and parser are inverse: however the stream of frames is cut into reads, the callbacks
   are the printed events in order, exactly when every event name fits on one line, is not empty
   and does not end in a space.
   */
  lemma RoundTripIff<D>(parse: string -> Option<D>, evs: seq<Event>, chunks: seq<string>)
    requires forall i :: 0 <= i < |evs| ==> WellPrinted(parse, evs[i])
    requires Concat(chunks) == PrintAll(evs)
    ensures ConsumeAll(parse, Client("", "", []), chunks).delivered == Expected(parse, evs)
            <==> forall i :: 0 <= i < |evs| ==> Carriable(evs[i])
  {
    var st := Client("", "", []);
    ChunkingIrrelevant(parse, st, chunks);
    var end := Consume(parse, st, PrintAll(evs));
    ConsumeKeepsCarriable(parse, st, PrintAll(evs));
    if forall i :: 0 <= i < |evs| ==> Carriable(evs[i]) {
      FramesDeliver(parse, st, evs);
      assert [] + Expected(parse, evs) == Expected(parse, evs);
    }
    if end.delivered == Expected(parse, evs) {
      forall i | 0 <= i < |evs| ensures Carriable(evs[i]) {
        ExpectedAt(parse, evs, i);
        assert CarriableName(end.delivered[i].0);
      }
    }
  }

  /** A frame is five lines: the id, the stored name or "message", the JSON text, and two empty ones. */
  lemma FrameLines(ev: Event)
    requires '\n' !in ev.eventId && '\n' !in ev.json && (ev.event.Some? ==> '\n' !in ev.event.value)
    ensures Split(Frame(ev)) ==
            ["id: " + ev.eventId, "event: " + (if ev.event.Some? then ev.event.value else "message"), "data: " + ev.json, "", ""]
  {
    var name := if ev.event.Some? then ev.event.value else "message";
    var r3 := "" + "\n" + "";
    var r2 := ("data: " + ev.json) + "\n" + r3;
    var r1 := ("event: " + name) + "\n" + r2;
    FrameText(ev, "");
    assert Frame(ev) + "" == Frame(ev);
    SplitAtNewline("id: " + ev.eventId, r1);
    SplitAtNewline("event: " + name, r2);
    SplitAtNewline("data: " + ev.json, r3);
    SplitAtNewline("", "");
    SplitOneLine("");
  }
}
