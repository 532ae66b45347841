/**
 TextChunker: greedy packing of paragraphs, and of the sentences of over-long paragraphs, into
 chunks of bounded length; then overlap with the previous chunk, and removal of duplicates.
 Nothing but white space may be lost on the way, and nothing may change places: `Ink` is the
 text without white space, and the chunks before overlap have the ink of the input.
 */
module TextChunker {
  import opened Sequences

  // ----- White space and ink -------------------------------------------------------------------

  /** Python's str.isspace, by code point. */
  predicate IsSpace(c: char) {
    var n := c as int;
    || 0x09 <= n <= 0x0D || 0x1C <= n <= 0x20 || n == 0x85 || n == 0xA0 || n == 0x1680
    || 0x2000 <= n <= 0x200A || n == 0x2028 || n == 0x2029 || n == 0x202F || n == 0x205F || n == 0x3000
  }

  function Ink(s: string): string {
    if s == "" then "" else (if IsSpace(s[0]) then "" else [s[0]]) + Ink(s[1..])
  }

  function Join(parts: seq<string>): string {
    if parts == [] then "" else Join(parts[..|parts| - 1]) + parts[|parts| - 1]
  }

  lemma {:induction false} InkAppend(a: string, b: string)
    ensures Ink(a + b) == Ink(a) + Ink(b)
  {
    if a == "" {
      assert a + b == b;
    } else {
      assert (a + b)[1..] == a[1..] + b;
      InkAppend(a[1..], b);
    }
  }

  lemma InkCons(c: char, s: string)
    ensures Ink([c] + s) == (if IsSpace(c) then "" else [c]) + Ink(s)
  {
    assert ([c] + s)[1..] == s;
  }

  lemma {:induction false} JoinAppend(a: seq<string>, b: seq<string>)
    ensures Join(a + b) == Join(a) + Join(b)
  {
    if b == [] {
      assert a + b == a;
    } else {
      var front, last := b[..|b| - 1], b[|b| - 1];
      assert (a + b)[..|a| + |b| - 1] == a + front;
      JoinAppend(a, front);
      Associative(Join(a), Join(front), last);
    }
  }

  lemma InkJoin(a: seq<string>, b: seq<string>)
    ensures Ink(Join(a + b)) == Ink(Join(a)) + Ink(Join(b))
  {
    JoinAppend(a, b);
    InkAppend(Join(a), Join(b));
  }

  lemma JoinOne(s: string)
    ensures Join([s]) == s
  {
    assert Join([s][..0]) == "";
  }

  function LStrip(s: string): string {
    if s != "" && IsSpace(s[0]) then LStrip(s[1..]) else s
  }

  function RStrip(s: string): string {
    if s != "" && IsSpace(s[|s| - 1]) then RStrip(s[..|s| - 1]) else s
  }

  function Strip(s: string): string {
    RStrip(LStrip(s))
  }

  predicate Stripped(s: string) {
    s != "" ==> !IsSpace(s[0]) && !IsSpace(s[|s| - 1])
  }

  lemma {:induction false} LStripInk(s: string)
    ensures Ink(LStrip(s)) == Ink(s) && |LStrip(s)| <= |s|
    ensures LStrip(s) != "" ==> !IsSpace(LStrip(s)[0]) && LStrip(s)[|LStrip(s)| - 1] == s[|s| - 1]
  {
    if s != "" && IsSpace(s[0]) {
      LStripInk(s[1..]);
    }
  }

  lemma {:induction false} RStripInk(s: string)
    ensures Ink(RStrip(s)) == Ink(s) && |RStrip(s)| <= |s|
    ensures RStrip(s) != "" ==> !IsSpace(RStrip(s)[|RStrip(s)| - 1]) && RStrip(s)[0] == s[0]
  {
    if s != "" && IsSpace(s[|s| - 1]) {
      RStripInk(s[..|s| - 1]);
      assert s == s[..|s| - 1] + [s[|s| - 1]];
      InkAppend(s[..|s| - 1], [s[|s| - 1]]);
    }
  }

  lemma StripInk(s: string)
    ensures Ink(Strip(s)) == Ink(s) && |Strip(s)| <= |s| && Stripped(Strip(s))
  {
    LStripInk(s);
    RStripInk(LStrip(s));
  }

  lemma StripOfStripped(s: string)
    requires Stripped(s)
    ensures Strip(s) == s
  {
  }

  // ----- Normalising and cutting into paragraphs -------------------------------------------------

  /** re.sub("\r\n", "\n") */
  function UnixNewlines(s: string): string {
    if |s| < 2 then s
    else if s[0] == '\r' && s[1] == '\n' then "\n" + UnixNewlines(s[2..])
    else [s[0]] + UnixNewlines(s[1..])
  }

  /** re.sub("\n{3,}", "\n\n") */
  function CollapseBlank(s: string): string {
    if s == "" then ""
    else if |s| >= 3 && s[0] == '\n' && s[1] == '\n' && s[2] == '\n' then CollapseBlank(s[1..])
    else [s[0]] + CollapseBlank(s[1..])
  }

  /** split("\n\n") */
  function Paragraphs(s: string): (r: seq<string>)
    ensures |r| >= 1
  {
    if s == "" then [""]
    else if |s| >= 2 && s[0] == '\n' && s[1] == '\n' then [""] + Paragraphs(s[2..])
    else
      var rest := Paragraphs(s[1..]);
      [[s[0]] + rest[0]] + rest[1..]
  }

  lemma {:induction false} UnixNewlinesInk(s: string)
    ensures Ink(UnixNewlines(s)) == Ink(s)
  {
    if |s| >= 2 && s[0] == '\r' && s[1] == '\n' {
      UnixNewlinesInk(s[2..]);
      InkCons('\n', UnixNewlines(s[2..]));
      assert s[1..][1..] == s[2..];
    } else if |s| >= 2 {
      UnixNewlinesInk(s[1..]);
      InkCons(s[0], UnixNewlines(s[1..]));
    }
  }

  lemma {:induction false} CollapseBlankInk(s: string)
    ensures Ink(CollapseBlank(s)) == Ink(s)
  {
    if s != "" {
      CollapseBlankInk(s[1..]);
      InkCons(s[0], CollapseBlank(s[1..]));
    }
  }

  lemma JoinCons(s: string, rest: seq<string>)
    ensures Join([s] + rest) == s + Join(rest)
  {
    JoinAppend([s], rest);
    JoinOne(s);
  }

  lemma {:induction false} ParagraphsInk(s: string)
    ensures Ink(Join(Paragraphs(s))) == Ink(s)
  {
    if s == "" {
      JoinOne("");
    } else if |s| >= 2 && s[0] == '\n' && s[1] == '\n' {
      ParagraphsInk(s[2..]);
      assert s[1..][1..] == s[2..];
      JoinCons("", Paragraphs(s[2..]));
      assert "" + Join(Paragraphs(s[2..])) == Join(Paragraphs(s[2..]));
      assert Ink(s[1..]) == Ink(s[2..]);
    } else {
      var rest := Paragraphs(s[1..]);
      ParagraphsInk(s[1..]);
      FirstLonger(s[0], rest);
      InkCons(s[0], Join(rest));
    }
  }

  lemma FirstLonger(c: char, rest: seq<string>)
    requires rest != []
    ensures Join([[c] + rest[0]] + rest[1..]) == [c] + Join(rest)
  {
    JoinCons([c] + rest[0], rest[1..]);
    JoinCons(rest[0], rest[1..]);
    assert rest == [rest[0]] + rest[1..];
    Associative([c], rest[0], Join(rest[1..]));
  }

  // ----- Cutting into sentences: split on white space after . ! ? -----------------------------------

  predicate EndsSentence(c: char) {
    c == '.' || c == '!' || c == '?'
  }

  /** The first position where white space follows a sentence end, from position i on. */
  function NextBreak(s: string, i: nat): (r: nat)
    requires 1 <= i
    ensures r >= i
    ensures r < |s| ==> EndsSentence(s[r - 1]) && IsSpace(s[r])
    decreases |s| - i
  {
    if i >= |s| then i
    else if EndsSentence(s[i - 1]) && IsSpace(s[i]) then i
    else NextBreak(s, i + 1)
  }

  function Sentences(s: string): seq<string>
    decreases |s|
  {
    var b := NextBreak(s, 1);
    if b >= |s| then [s]
    else
      LStripInk(s[b..]);
      [s[..b]] + Sentences(LStrip(s[b..]))
  }

  ghost predicate Pieces(parts: seq<string>) {
    forall k :: 0 <= k < |parts| ==> parts[k] != "" && Stripped(parts[k])
  }

  lemma TailNotBlank(tail: string)
    requires tail != "" && !IsSpace(tail[|tail| - 1])
    ensures LStrip(tail) != "" && Stripped(LStrip(tail)) && Ink(LStrip(tail)) == Ink(tail)
  {
    LStripInk(tail);
    LastInk(tail);
  }

  /** Both sides of a cut in a stripped text keep its outer ends. */
  lemma EndsOfCut(head: string, tail: string)
    requires head != "" && tail != "" && Stripped(head + tail)
    ensures !IsSpace(head[0]) && !IsSpace(tail[|tail| - 1])
  {
    assert (head + tail)[0] == head[0];
    assert (head + tail)[|head| + |tail| - 1] == tail[|tail| - 1];
  }

  /** The sentences of a stripped text are non-empty, stripped, and together have its ink. */
  lemma {:induction false} SentencesArePieces(s: string)
    requires s != "" && Stripped(s)
    ensures Pieces(Sentences(s)) && Ink(Join(Sentences(s))) == Ink(s)
    decreases |s|
  {
    var b := NextBreak(s, 1);
    if b >= |s| {
      JoinOne(s);
    } else {
      var head, tail := s[..b], s[b..];
      Cut(s, b);
      EndsOfCut(head, tail);
      InkAppend(head, tail);
      TailNotBlank(tail);
      LStripInk(tail);
      SentencesArePieces(LStrip(tail));
      PieceBefore(head, Sentences(LStrip(tail)));
    }
  }

  lemma PieceBefore(first: string, rest: seq<string>)
    requires first != "" && Stripped(first) && Pieces(rest)
    ensures Pieces([first] + rest) && Ink(Join([first] + rest)) == Ink(first) + Ink(Join(rest))
  {
    JoinCons(first, rest);
    InkAppend(first, Join(rest));
  }

  lemma {:induction false} LastInk(s: string)
    requires s != "" && !IsSpace(s[|s| - 1])
    ensures Ink(s) != ""
  {
    if |s| > 1 {
      LastInk(s[1..]);
    }
  }

  // ----- Packing ---------------------------------------------------------------------------------

  /** A chunk is the parts of a group with separators in between. */
  datatype Group = Group(separator: string, parts: seq<string>)

  function JoinWith(separator: string, parts: seq<string>): string
    requires parts != []
  {
    if |parts| == 1 then parts[0]
    else JoinWith(separator, parts[..|parts| - 1]) + separator + parts[|parts| - 1]
  }

  function Flatten(groups: seq<Group>): seq<string> {
    if groups == [] then [] else Flatten(groups[..|groups| - 1]) + groups[|groups| - 1].parts
  }

  ghost predicate ChunkOf(chunk: string, g: Group) {
    && (g.separator == " " || g.separator == "\n\n")
    && g.parts != [] && Pieces(g.parts) && chunk == JoinWith(g.separator, g.parts)
  }

  ghost predicate ChunksOf(chunks: seq<string>, groups: seq<Group>) {
    |chunks| == |groups| && forall k :: 0 <= k < |chunks| ==> ChunkOf(chunks[k], groups[k])
  }

  /** Only a chunk that is one single sentence may exceed the limit. */
  ghost predicate Fits(chunks: seq<string>, groups: seq<Group>, maxChars: nat) {
    && |chunks| == |groups|
    && forall k :: 0 <= k < |chunks| ==>
         |chunks[k]| <= maxChars || (groups[k].separator == " " && |groups[k].parts| == 1)
  }

  ghost predicate AllSeparatedBy(groups: seq<Group>, separator: string) {
    forall k :: 0 <= k < |groups| ==> groups[k].separator == separator
  }

  /** The state of a packing loop: `units` so far, the last of them still in the open chunk. */
  ghost predicate Packing(chunks: seq<string>, groups: seq<Group>, current: string, open: Group, units: seq<string>) {
    && ChunksOf(chunks, groups)
    && Flatten(groups) + open.parts == units
    && (if open.parts == [] then current == "" else ChunkOf(current, open))
  }

  lemma {:induction false} JoinWithStripped(separator: string, parts: seq<string>)
    requires parts != [] && Pieces(parts)
    ensures JoinWith(separator, parts) != "" && Stripped(JoinWith(separator, parts))
  {
    if |parts| > 1 {
      JoinWithStripped(separator, parts[..|parts| - 1]);
    }
  }

  lemma JoinWithOneMore(separator: string, parts: seq<string>, part: string)
    requires parts != []
    ensures JoinWith(separator, parts + [part]) == JoinWith(separator, parts) + separator + part
  {
    assert (parts + [part])[..|parts|] == parts;
  }

  lemma FlattenOneMore(groups: seq<Group>, g: Group)
    ensures Flatten(groups + [g]) == Flatten(groups) + g.parts
  {
    assert (groups + [g])[..|groups|] == groups;
  }

  lemma {:induction false} FlattenAppend(a: seq<Group>, b: seq<Group>)
    ensures Flatten(a + b) == Flatten(a) + Flatten(b)
  {
    if b == [] {
      assert a + b == a;
    } else {
      var front, last := b[..|b| - 1], b[|b| - 1];
      FlattenAppend(a, front);
      assert b == front + [last];
      Associative(a, front, [last]);
      Associative(Flatten(a), Flatten(front), last.parts);
      FlattenOneMore(a + front, last);
      FlattenOneMore(front, last);
    }
  }

  /** An open chunk is stripped, and empty only when it has no parts. */
  lemma OpenIsStripped(chunks: seq<string>, groups: seq<Group>, current: string, open: Group, units: seq<string>)
    requires Packing(chunks, groups, current, open, units)
    ensures Strip(current) == current
    ensures current == "" <==> open.parts == []
  {
    if open.parts != [] {
      JoinWithStripped(open.separator, open.parts);
    }
    StripOfStripped(current);
  }

  lemma Extend(chunks: seq<string>, groups: seq<Group>, current: string, open: Group, units: seq<string>, unit: string)
    requires Packing(chunks, groups, current, open, units)
    requires open.separator == " " || open.separator == "\n\n"
    requires unit != "" && Stripped(unit)
    ensures Packing(chunks, groups, if current == "" then unit else current + open.separator + unit,
                    Group(open.separator, open.parts + [unit]), units + [unit])
  {
    OpenIsStripped(chunks, groups, current, open, units);
    if open.parts != [] {
      JoinWithOneMore(open.separator, open.parts, unit);
    }
    assert Flatten(groups) + (open.parts + [unit]) == units + [unit];
  }

  lemma Flush(chunks: seq<string>, groups: seq<Group>, current: string, open: Group, units: seq<string>, maxChars: nat)
    requires Packing(chunks, groups, current, open, units) && Fits(chunks, groups, maxChars)
    requires open.parts != []
    requires |current| <= maxChars || (open.separator == " " && |open.parts| == 1)
    ensures Packing(chunks + [current], groups + [open], "", Group(open.separator, []), units)
    ensures Fits(chunks + [current], groups + [open], maxChars)
  {
    FlattenOneMore(groups, open);
    assert Flatten(groups + [open]) + [] == units;
  }

  /** Greedy: a chunk was closed only because the first part of the next one no longer fitted. */
  ghost predicate Tight(chunks: seq<string>, groups: seq<Group>, separator: string, maxChars: nat) {
    && |chunks| == |groups|
    && forall k :: 0 < k < |groups| && groups[k].separator == separator && groups[k].parts != [] ==>
         TightAt(chunks[k - 1], groups[k - 1], groups[k].parts[0], separator, maxChars)
  }

  ghost predicate TightAt(chunk: string, g: Group, unit: string, separator: string, maxChars: nat) {
    g.separator == separator ==> |chunk| + |unit| + |separator| > maxChars
  }

  /** The open chunk counts as one more, as long as it has parts. */
  ghost predicate TightOpen(chunks: seq<string>, groups: seq<Group>, open: Group, maxChars: nat) {
    && Tight(chunks, groups, open.separator, maxChars)
    && (open.parts != [] && groups != [] ==>
          TightAt(chunks[|chunks| - 1], groups[|groups| - 1], open.parts[0], open.separator, maxChars))
  }

  lemma TightFlush(chunks: seq<string>, groups: seq<Group>, current: string, open: Group, maxChars: nat)
    requires TightOpen(chunks, groups, open, maxChars)
    ensures Tight(chunks + [current], groups + [open], open.separator, maxChars)
  {
  }

  lemma TightSkip(chunks: seq<string>, groups: seq<Group>, separator: string, more: seq<string>, moreGroups: seq<Group>, maxChars: nat)
    requires Tight(chunks, groups, separator, maxChars) && |more| == |moreGroups|
    requires forall k :: 0 <= k < |moreGroups| ==> moreGroups[k].separator != separator
    ensures Tight(chunks + more, groups + moreGroups, separator, maxChars)
  {
    var all := groups + moreGroups;
    forall k | 0 < k < |all| && all[k].separator == separator && all[k].parts != []
      ensures TightAt((chunks + more)[k - 1], all[k - 1], all[k].parts[0], separator, maxChars)
    {
      assert k < |groups|;
    }
  }

  /** The state of the sentence loop. */
  ghost predicate Filling(chunks: seq<string>, groups: seq<Group>, current: string, parts: seq<string>,
                          units: seq<string>, maxChars: nat) {
    && Packing(chunks, groups, current, Group(" ", parts), units)
    && Fits(chunks, groups, maxChars) && AllSeparatedBy(groups, " ")
    && (|current| <= maxChars || |parts| == 1)
    && TightOpen(chunks, groups, Group(" ", parts), maxChars)
    && (parts == [] ==> groups == [])
  }

  lemma FillMore(chunks: seq<string>, groups: seq<Group>, current: string, parts: seq<string>,
                 units: seq<string>, maxChars: nat, unit: string)
    requires Filling(chunks, groups, current, parts, units, maxChars)
    requires unit != "" && Stripped(unit) && |current| + |unit| + 1 <= maxChars
    ensures Filling(chunks, groups, if current == "" then unit else current + " " + unit, parts + [unit], units + [unit], maxChars)
  {
    Extend(chunks, groups, current, Group(" ", parts), units, unit);
  }

  lemma FillNext(chunks: seq<string>, groups: seq<Group>, current: string, parts: seq<string>,
                 units: seq<string>, maxChars: nat, unit: string)
    requires Filling(chunks, groups, current, parts, units, maxChars)
    requires unit != "" && Stripped(unit) && |current| + |unit| + 1 > maxChars
    ensures current == "" ==> Filling(chunks, groups, unit, [unit], units + [unit], maxChars)
    ensures current != "" ==>
              Filling(chunks + [current], groups + [Group(" ", parts)], unit, [unit], units + [unit], maxChars)
  {
    FillFlush(chunks, groups, current, parts, units, maxChars);
    assert [] + [unit] == [unit];
    if current == "" {
      Extend(chunks, groups, "", Group(" ", []), units, unit);
    } else {
      Extend(chunks + [current], groups + [Group(" ", parts)], "", Group(" ", []), units, unit);
    }
  }

  lemma FillFlush(chunks: seq<string>, groups: seq<Group>, current: string, parts: seq<string>, units: seq<string>, maxChars: nat)
    requires Filling(chunks, groups, current, parts, units, maxChars)
    ensures Strip(current) == current && (current == "" <==> parts == [])
    ensures current != "" ==>
              && Packing(chunks + [current], groups + [Group(" ", parts)], "", Group(" ", []), units)
              && Fits(chunks + [current], groups + [Group(" ", parts)], maxChars)
              && AllSeparatedBy(groups + [Group(" ", parts)], " ")
              && Tight(chunks + [current], groups + [Group(" ", parts)], " ", maxChars)
  {
    OpenIsStripped(chunks, groups, current, Group(" ", parts), units);
    if current != "" {
      Flush(chunks, groups, current, Group(" ", parts), units, maxChars);
      TightFlush(chunks, groups, current, Group(" ", parts), maxChars);
    }
  }

  /** The finished chunks and the one being filled. */
  datatype Draft = Draft(chunks: seq<string>, current: string)

  function Close(d: Draft): seq<string> {
    if d.current == "" then d.chunks else d.chunks + [Strip(d.current)]
  }

  function Finished(d: Draft): seq<string> {
    if Strip(d.current) == "" then d.chunks else d.chunks + [Strip(d.current)]
  }

  function FillStep(d: Draft, sentence: string, maxChars: nat): Draft {
    if |d.current| + |sentence| + 1 <= maxChars
    then Draft(d.chunks, if d.current != "" then d.current + " " + sentence else sentence)
    else Draft(Close(d), sentence)
  }

  function Fill(sentences: seq<string>, maxChars: nat): Draft {
    if sentences == [] then Draft([], "")
    else FillStep(Fill(sentences[..|sentences| - 1], maxChars), sentences[|sentences| - 1], maxChars)
  }

  lemma FillStepExact(d: Draft, sentence: string, maxChars: nat, units: seq<string>,
                      groups: seq<Group>, parts: seq<string>) returns (groups': seq<Group>, parts': seq<string>)
    requires Filling(d.chunks, groups, d.current, parts, units, maxChars)
    requires sentence != "" && Stripped(sentence)
    ensures var d' := FillStep(d, sentence, maxChars);
            Filling(d'.chunks, groups', d'.current, parts', units + [sentence], maxChars)
  {
    FillFlush(d.chunks, groups, d.current, parts, units, maxChars);
    if |d.current| + |sentence| + 1 <= maxChars {
      FillMore(d.chunks, groups, d.current, parts, units, maxChars, sentence);
      groups', parts' := groups, parts + [sentence];
    } else {
      FillNext(d.chunks, groups, d.current, parts, units, maxChars, sentence);
      groups' := if d.current == "" then groups else groups + [Group(" ", parts)];
      parts' := [sentence];
    }
  }

  lemma {:induction false} FillExact(sentences: seq<string>, maxChars: nat) returns (groups: seq<Group>, parts: seq<string>)
    requires Pieces(sentences)
    ensures var d := Fill(sentences, maxChars); Filling(d.chunks, groups, d.current, parts, sentences, maxChars)
  {
    if sentences == [] {
      groups, parts := [], [];
    } else {
      var front, last := sentences[..|sentences| - 1], sentences[|sentences| - 1];
      groups, parts := FillExact(front, maxChars);
      groups, parts := FillStepExact(Fill(front, maxChars), last, maxChars, front, groups, parts);
      FrontAndLast(sentences);
    }
  }

  function SentenceChunks(text: string, maxChars: nat): seq<string> {
    Finished(Fill(Sentences(text), maxChars))
  }

  /** The sentences in order, none lost, packed greedily; a chunk over the limit is a single sentence. */
  lemma SentenceChunksExact(text: string, maxChars: nat) returns (groups: seq<Group>)
    requires text != "" && Stripped(text)
    ensures var chunks := SentenceChunks(text, maxChars);
            && ChunksOf(chunks, groups) && Flatten(groups) == Sentences(text)
            && Fits(chunks, groups, maxChars) && AllSeparatedBy(groups, " ") && Tight(chunks, groups, " ", maxChars)
  {
    SentencesArePieces(text);
    var parts;
    groups, parts := FillExact(Sentences(text), maxChars);
    var d := Fill(Sentences(text), maxChars);
    FillFlush(d.chunks, groups, d.current, parts, Sentences(text), maxChars);
    if d.current != "" {
      groups := groups + [Group(" ", parts)];
    }
  }

  method SplitBySentences(text: string, maxChars: nat) returns (chunks: seq<string>)
    ensures chunks == SentenceChunks(text, maxChars)
  {
    var sentences := Sentences(text);
    chunks := [];
    var current := "";
    var i := 0;
    while i < |sentences|
      invariant 0 <= i <= |sentences| && Draft(chunks, current) == Fill(sentences[..i], maxChars)
    {
      var sentence := sentences[i];
      assert sentences[..i + 1][..i] == sentences[..i];
      if |current| + |sentence| + 1 <= maxChars {
        current := if current != "" then current + " " + sentence else sentence;
      } else {
        if current != "" {
          chunks := chunks + [Strip(current)];
        }
        current := sentence;
      }
      i := i + 1;
    }
    assert sentences[..i] == sentences;
    if Strip(current) != "" {
      chunks := chunks + [Strip(current)];
    }
  }

  /** What is packed: every short paragraph whole, every long one as its sentences. */
  function UnitsOf(para: string, maxChars: nat): seq<string> {
    if Strip(para) == "" then []
    else if |Strip(para)| <= maxChars then [Strip(para)]
    else Sentences(Strip(para))
  }

  function Units(paragraphs: seq<string>, maxChars: nat): seq<string> {
    if paragraphs == [] then []
    else Units(paragraphs[..|paragraphs| - 1], maxChars) + UnitsOf(paragraphs[|paragraphs| - 1], maxChars)
  }

  lemma ChunksAppend(a: seq<string>, g: seq<Group>, b: seq<string>, h: seq<Group>, maxChars: nat)
    requires ChunksOf(a, g) && Fits(a, g, maxChars) && ChunksOf(b, h) && Fits(b, h, maxChars)
    ensures ChunksOf(a + b, g + h) && Fits(a + b, g + h, maxChars)
  {
    var chunks, groups := a + b, g + h;
    forall k | 0 <= k < |chunks|
      ensures ChunkOf(chunks[k], groups[k])
      ensures |chunks[k]| <= maxChars || (groups[k].separator == " " && |groups[k].parts| == 1)
    {
      if k < |a| {
        assert chunks[k] == a[k] && groups[k] == g[k];
      } else {
        assert chunks[k] == b[k - |a|] && groups[k] == h[k - |a|];
      }
    }
  }

  /** The state of the paragraph loop. */
  ghost predicate Gathering(chunks: seq<string>, groups: seq<Group>, current: string, parts: seq<string>,
                            units: seq<string>, maxChars: nat) {
    && Packing(chunks, groups, current, Group("\n\n", parts), units)
    && Fits(chunks, groups, maxChars) && |current| <= maxChars
    && TightOpen(chunks, groups, Group("\n\n", parts), maxChars)
    && (parts == [] && groups != [] ==> groups[|groups| - 1].separator == " ")
  }

  ghost function ClosedGroups(groups: seq<Group>, parts: seq<string>): seq<Group> {
    if parts == [] then groups else groups + [Group("\n\n", parts)]
  }

  lemma GatherMore(chunks: seq<string>, groups: seq<Group>, current: string, parts: seq<string>,
                   units: seq<string>, maxChars: nat, unit: string)
    requires Gathering(chunks, groups, current, parts, units, maxChars)
    requires unit != "" && Stripped(unit) && |current| + |unit| + 2 <= maxChars
    ensures Gathering(chunks, groups, if current == "" then unit else current + "\n\n" + unit, parts + [unit],
                      units + [unit], maxChars)
  {
    Extend(chunks, groups, current, Group("\n\n", parts), units, unit);
  }

  lemma GatherFlush(chunks: seq<string>, groups: seq<Group>, current: string, parts: seq<string>,
                    units: seq<string>, maxChars: nat)
    requires Gathering(chunks, groups, current, parts, units, maxChars)
    ensures Strip(current) == current && (current == "" <==> parts == [])
    ensures var closed, closedGroups := Close(Draft(chunks, current)), ClosedGroups(groups, parts);
            && Packing(closed, closedGroups, "", Group("\n\n", []), units) && Fits(closed, closedGroups, maxChars)
            && Tight(closed, closedGroups, "\n\n", maxChars)
  {
    OpenIsStripped(chunks, groups, current, Group("\n\n", parts), units);
    if current != "" {
      Flush(chunks, groups, current, Group("\n\n", parts), units, maxChars);
      TightFlush(chunks, groups, current, Group("\n\n", parts), maxChars);
    }
  }

  lemma GatherNext(chunks: seq<string>, groups: seq<Group>, current: string, parts: seq<string>,
                   units: seq<string>, maxChars: nat, unit: string)
    requires Gathering(chunks, groups, current, parts, units, maxChars)
    requires unit != "" && Stripped(unit) && |unit| <= maxChars && |current| + |unit| + 2 > maxChars
    ensures Gathering(Close(Draft(chunks, current)), ClosedGroups(groups, parts), unit, [unit], units + [unit], maxChars)
  {
    GatherFlush(chunks, groups, current, parts, units, maxChars);
    var closed, closedGroups := Close(Draft(chunks, current)), ClosedGroups(groups, parts);
    assert closedGroups != [] ==>
        TightAt(closed[|closed| - 1], closedGroups[|closedGroups| - 1], unit, "\n\n", maxChars);
    GatherStart(closed, closedGroups, units, maxChars, unit);
  }

  lemma GatherStart(chunks: seq<string>, groups: seq<Group>, units: seq<string>, maxChars: nat, unit: string)
    requires Packing(chunks, groups, "", Group("\n\n", []), units) && Fits(chunks, groups, maxChars)
    requires Tight(chunks, groups, "\n\n", maxChars) && unit != "" && Stripped(unit) && |unit| <= maxChars
    requires groups != [] ==> TightAt(chunks[|chunks| - 1], groups[|groups| - 1], unit, "\n\n", maxChars)
    ensures Gathering(chunks, groups, unit, [unit], units + [unit], maxChars)
  {
    assert [] + [unit] == [unit];
    Extend(chunks, groups, "", Group("\n\n", []), units, unit);
  }

  lemma GatherLong(chunks: seq<string>, groups: seq<Group>, current: string, parts: seq<string>,
                   units: seq<string>, maxChars: nat, more: seq<string>, moreGroups: seq<Group>)
    requires Gathering(chunks, groups, current, parts, units, maxChars)
    requires ChunksOf(more, moreGroups) && Fits(more, moreGroups, maxChars) && AllSeparatedBy(moreGroups, " ")
    requires moreGroups != []
    ensures Gathering(Close(Draft(chunks, current)) + more, ClosedGroups(groups, parts) + moreGroups, "", [],
                      units + Flatten(moreGroups), maxChars)
  {
    GatherFlush(chunks, groups, current, parts, units, maxChars);
    var closed, closedGroups := Close(Draft(chunks, current)), ClosedGroups(groups, parts);
    ChunksAppend(closed, closedGroups, more, moreGroups, maxChars);
    TightSkip(closed, closedGroups, "\n\n", more, moreGroups, maxChars);
    FlattenAppend(closedGroups, moreGroups);
    assert Flatten(closedGroups) == units;
    assert Flatten(closedGroups + moreGroups) + [] == units + Flatten(moreGroups);
  }

  function GatherStep(d: Draft, paragraph: string, maxChars: nat): Draft {
    var para := Strip(paragraph);
    if para == "" then d
    else if |d.current| + |para| + 2 <= maxChars then
      Draft(d.chunks, if d.current != "" then d.current + "\n\n" + para else para)
    else if |para| > maxChars then Draft(Close(d) + SentenceChunks(para, maxChars), "")
    else Draft(Close(d), para)
  }

  function Gather(paragraphs: seq<string>, maxChars: nat): Draft {
    if paragraphs == [] then Draft([], "")
    else GatherStep(Gather(paragraphs[..|paragraphs| - 1], maxChars), paragraphs[|paragraphs| - 1], maxChars)
  }

  // ----- Where the parts of a chunk come from -----------------------------------------------------------

  /** A whole paragraph within the limit. */
  ghost predicate ShortParagraph(part: string, paragraphs: seq<string>, maxChars: nat) {
    exists p :: p in paragraphs && |Strip(p)| <= maxChars && part == Strip(p)
  }

  /** Consecutive sentences of one paragraph over the limit. */
  ghost predicate SentencesOfOne(parts: seq<string>, paragraphs: seq<string>, maxChars: nat) {
    exists p :: p in paragraphs && |Strip(p)| > maxChars && SliceOf(parts, Sentences(Strip(p)))
  }

  ghost predicate SliceOf(parts: seq<string>, whole: seq<string>) {
    exists i :: 0 <= i <= |whole| - |parts| && SliceAt(parts, whole, i)
  }

  ghost predicate SliceAt(parts: seq<string>, whole: seq<string>, i: nat) {
    i + |parts| <= |whole| && parts == whole[i..i + |parts|]
  }

  ghost predicate AllShort(parts: seq<string>, paragraphs: seq<string>, maxChars: nat) {
    forall j :: 0 <= j < |parts| ==> ShortParagraph(parts[j], paragraphs, maxChars)
  }

  /** A blank line separates whole short paragraphs, a space the sentences of one long paragraph. */
  ghost predicate Origin(g: Group, paragraphs: seq<string>, maxChars: nat) {
    if g.separator == " " then SentencesOfOne(g.parts, paragraphs, maxChars) else AllShort(g.parts, paragraphs, maxChars)
  }

  ghost predicate Sourced(groups: seq<Group>, paragraphs: seq<string>, maxChars: nat) {
    forall k :: 0 <= k < |groups| ==> Origin(groups[k], paragraphs, maxChars)
  }

  lemma {:induction false} FlattenSlice(groups: seq<Group>, k: nat)
    requires k < |groups|
    ensures SliceOf(groups[k].parts, Flatten(groups))
  {
    var front, parts := Flatten(groups[..|groups| - 1]), groups[|groups| - 1].parts;
    if k < |groups| - 1 {
      FlattenSlice(groups[..|groups| - 1], k);
      var i :| 0 <= i <= |front| - |groups[k].parts| && SliceAt(groups[k].parts, front, i);
      assert SliceAt(groups[k].parts, front + parts, i);
    } else {
      assert SliceAt(parts, front + parts, |front|);
    }
  }

  lemma SentencesSourced(groups: seq<Group>, p: string, paragraphs: seq<string>, maxChars: nat)
    requires Flatten(groups) == Sentences(Strip(p)) && AllSeparatedBy(groups, " ")
    requires p in paragraphs && |Strip(p)| > maxChars
    ensures Sourced(groups, paragraphs, maxChars)
  {
    forall k | 0 <= k < |groups| ensures Origin(groups[k], paragraphs, maxChars) {
      FlattenSlice(groups, k);
    }
  }

  lemma ClosedSourced(groups: seq<Group>, parts: seq<string>, paragraphs: seq<string>, maxChars: nat)
    requires Sourced(groups, paragraphs, maxChars) && AllShort(parts, paragraphs, maxChars)
    ensures Sourced(ClosedGroups(groups, parts), paragraphs, maxChars)
  {
  }

  lemma BothSourced(a: seq<Group>, b: seq<Group>, paragraphs: seq<string>, maxChars: nat)
    requires Sourced(a, paragraphs, maxChars) && Sourced(b, paragraphs, maxChars)
    ensures Sourced(a + b, paragraphs, maxChars)
  {
  }

  /** How one more paragraph changes the groups. */
  ghost predicate Grown(groups: seq<Group>, parts: seq<string>, p: string, maxChars: nat, groups': seq<Group>, parts': seq<string>) {
    || (groups' == groups && parts' == parts)
    || (groups' == groups && parts' == parts + [Strip(p)] && |Strip(p)| <= maxChars)
    || (groups' == ClosedGroups(groups, parts) && parts' == [Strip(p)] && |Strip(p)| <= maxChars)
    || (parts' == [] && |Strip(p)| > maxChars && GrownBySentences(ClosedGroups(groups, parts), p, groups'))
  }

  ghost predicate GrownBySentences(closed: seq<Group>, p: string, groups': seq<Group>) {
    exists more :: groups' == closed + more && Flatten(more) == Sentences(Strip(p)) && AllSeparatedBy(more, " ")
  }

  lemma GrownSourced(groups: seq<Group>, parts: seq<string>, p: string, maxChars: nat,
                     groups': seq<Group>, parts': seq<string>, paragraphs: seq<string>)
    requires Sourced(groups, paragraphs, maxChars) && AllShort(parts, paragraphs, maxChars) && p in paragraphs
    requires Grown(groups, parts, p, maxChars, groups', parts')
    ensures Sourced(groups', paragraphs, maxChars) && AllShort(parts', paragraphs, maxChars)
  {
    ClosedSourced(groups, parts, paragraphs, maxChars);
    assert |Strip(p)| <= maxChars ==> ShortParagraph(Strip(p), paragraphs, maxChars);
    if |Strip(p)| > maxChars && GrownBySentences(ClosedGroups(groups, parts), p, groups') {
      var more :| groups' == ClosedGroups(groups, parts) + more && Flatten(more) == Sentences(Strip(p)) && AllSeparatedBy(more, " ");
      SentencesSourced(more, p, paragraphs, maxChars);
      BothSourced(ClosedGroups(groups, parts), more, paragraphs, maxChars);
    }
  }

  lemma GatherStepExact(d: Draft, paragraph: string, maxChars: nat, units: seq<string>,
                        groups: seq<Group>, parts: seq<string>) returns (groups': seq<Group>, parts': seq<string>)
    requires Gathering(d.chunks, groups, d.current, parts, units, maxChars)
    ensures var d' := GatherStep(d, paragraph, maxChars);
            Gathering(d'.chunks, groups', d'.current, parts', units + UnitsOf(paragraph, maxChars), maxChars)
    ensures Grown(groups, parts, paragraph, maxChars, groups', parts')
  {
    var para := Strip(paragraph);
    StripInk(paragraph);
    if para == "" {
      groups', parts' := groups, parts;
      assert units + [] == units;
    } else if |para| > maxChars {
      groups', parts' := GatherLongStep(d, para, maxChars, units, groups, parts);
      var more :| groups' == ClosedGroups(groups, parts) + more && Flatten(more) == Sentences(para) && AllSeparatedBy(more, " ");
    } else if |d.current| + |para| + 2 <= maxChars {
      GatherMore(d.chunks, groups, d.current, parts, units, maxChars, para);
      groups', parts' := groups, parts + [para];
    } else {
      GatherNext(d.chunks, groups, d.current, parts, units, maxChars, para);
      groups', parts' := ClosedGroups(groups, parts), [para];
    }
  }

  lemma GatherLongStep(d: Draft, para: string, maxChars: nat, units: seq<string>,
                       groups: seq<Group>, parts: seq<string>) returns (groups': seq<Group>, parts': seq<string>)
    requires Gathering(d.chunks, groups, d.current, parts, units, maxChars)
    requires para != "" && Stripped(para) && |para| > maxChars
    ensures Gathering(Close(d) + SentenceChunks(para, maxChars), groups', "", parts', units + Sentences(para), maxChars)
    ensures parts' == []
    ensures exists more :: groups' == ClosedGroups(groups, parts) + more && Flatten(more) == Sentences(para) && AllSeparatedBy(more, " ")
  {
    var more := SentenceChunksExact(para, maxChars);
    GatherLong(d.chunks, groups, d.current, parts, units, maxChars, SentenceChunks(para, maxChars), more);
    groups', parts' := ClosedGroups(groups, parts) + more, [];
  }

  lemma {:induction false} GatherExact(taken: seq<string>, maxChars: nat, paragraphs: seq<string>)
      returns (groups: seq<Group>, parts: seq<string>)
    requires forall i :: 0 <= i < |taken| ==> taken[i] in paragraphs
    ensures var d := Gather(taken, maxChars);
            Gathering(d.chunks, groups, d.current, parts, Units(taken, maxChars), maxChars)
    ensures Sourced(groups, paragraphs, maxChars) && AllShort(parts, paragraphs, maxChars)
  {
    if taken == [] {
      groups, parts := [], [];
    } else {
      var front, last := taken[..|taken| - 1], taken[|taken| - 1];
      groups, parts := GatherExact(front, maxChars, paragraphs);
      var before, open := groups, parts;
      groups, parts := GatherStepExact(Gather(front, maxChars), last, maxChars, Units(front, maxChars), before, open);
      GrownSourced(before, open, last, maxChars, groups, parts, paragraphs);
    }
  }

  function PackedChunks(paragraphs: seq<string>, maxChars: nat): seq<string> {
    Finished(Gather(paragraphs, maxChars))
  }

  /** What the packed chunks consist of: `groups` says which units each of them joins, and how. */
  ghost predicate PackedAs(chunks: seq<string>, groups: seq<Group>, paragraphs: seq<string>, maxChars: nat) {
    && ChunksOf(chunks, groups) && Flatten(groups) == Units(paragraphs, maxChars)
    && Fits(chunks, groups, maxChars) && Tight(chunks, groups, "\n\n", maxChars)
    && Sourced(groups, paragraphs, maxChars)
  }

  /**
   Before overlap and de-duplication the chunks hold the paragraphs in order, each short one whole
   within one chunk, and no sentence of a long one lost; a chunk exceeds the limit only if it is a
   single sentence; paragraphs share a chunk whenever they fit, and no chunk mixes them with the
   sentences of a long one, or those of two.
   */
  lemma PackedExact(paragraphs: seq<string>, maxChars: nat) returns (groups: seq<Group>)
    ensures PackedAs(PackedChunks(paragraphs, maxChars), groups, paragraphs, maxChars)
  {
    var parts;
    groups, parts := GatherExact(paragraphs, maxChars, paragraphs);
    ClosedSourced(groups, parts, paragraphs, maxChars);
    var d := Gather(paragraphs, maxChars);
    GatherFlush(d.chunks, groups, d.current, parts, Units(paragraphs, maxChars), maxChars);
    groups := ClosedGroups(groups, parts);
  }

  method Pack(paragraphs: seq<string>, maxChars: nat) returns (chunks: seq<string>)
    ensures chunks == PackedChunks(paragraphs, maxChars)
  {
    chunks := [];
    var current := "";
    var i := 0;
    while i < |paragraphs|
      invariant 0 <= i <= |paragraphs| && Draft(chunks, current) == Gather(paragraphs[..i], maxChars)
    {
      var para := Strip(paragraphs[i]);
      assert paragraphs[..i + 1][..i] == paragraphs[..i];
      if para != "" {
        if |current| + |para| + 2 <= maxChars {
          current := if current != "" then current + "\n\n" + para else para;
        } else {
          if current != "" {
            chunks := chunks + [Strip(current)];
          }
          if |para| > maxChars {
            var sentenceChunks := SplitBySentences(para, maxChars);
            chunks := chunks + sentenceChunks;
            current := "";
          } else {
            current := para;
          }
        }
      }
      i := i + 1;
    }
    assert paragraphs[..i] == paragraphs;
    if Strip(current) != "" {
      chunks := chunks + [Strip(current)];
    }
  }

  // ----- Nothing but white space is lost -----------------------------------------------------------

  lemma {:induction false} JoinWithInk(separator: string, parts: seq<string>)
    requires parts != [] && Ink(separator) == ""
    ensures Ink(JoinWith(separator, parts)) == Ink(Join(parts))
  {
    if |parts| == 1 {
      assert parts == [parts[0]];
      JoinOne(parts[0]);
    } else {
      var front, last := parts[..|parts| - 1], parts[|parts| - 1];
      JoinWithInk(separator, front);
      assert parts == front + [last];
      InkJoin(front, [last]);
      JoinOne(last);
      InkAppend(JoinWith(separator, front) + separator, last);
      InkAppend(JoinWith(separator, front), separator);
    }
  }

  lemma SeparatorsHaveNoInk()
    ensures Ink(" ") == "" && Ink("\n\n") == ""
  {
    InkCons(' ', "");
    InkCons('\n', "\n");
    InkCons('\n', "");
  }

  lemma {:induction false} ChunksInk(chunks: seq<string>, groups: seq<Group>)
    requires ChunksOf(chunks, groups)
    ensures Ink(Join(chunks)) == Ink(Join(Flatten(groups)))
  {
    if chunks != [] {
      var n := |chunks| - 1;
      ChunksInk(chunks[..n], groups[..n]);
      assert chunks == chunks[..n] + [chunks[n]];
      InkJoin(chunks[..n], [chunks[n]]);
      JoinOne(chunks[n]);
      assert ChunkOf(chunks[n], groups[n]);
      SeparatorsHaveNoInk();
      JoinWithInk(groups[n].separator, groups[n].parts);
      InkJoin(Flatten(groups[..n]), groups[n].parts);
    }
  }

  lemma UnitsOfInk(para: string, maxChars: nat)
    ensures Ink(Join(UnitsOf(para, maxChars))) == Ink(para)
  {
    StripInk(para);
    if Strip(para) != "" {
      JoinOne(Strip(para));
      SentencesArePieces(Strip(para));
    }
  }

  lemma {:induction false} UnitsInk(paragraphs: seq<string>, maxChars: nat)
    ensures Ink(Join(Units(paragraphs, maxChars))) == Ink(Join(paragraphs))
  {
    if paragraphs != [] {
      var front, last := paragraphs[..|paragraphs| - 1], paragraphs[|paragraphs| - 1];
      UnitsInk(front, maxChars);
      UnitsOfInk(last, maxChars);
      InkJoin(Units(front, maxChars), UnitsOf(last, maxChars));
      InkAppend(Join(front), last);
    }
  }

  /** Before overlap and de-duplication the chunks hold exactly the ink of the text, in order. */
  lemma PackingKeepsInk(text: string, maxChars: nat)
    ensures Ink(Join(PackedChunks(Paragraphs(Normal(text)), maxChars))) == Ink(text)
  {
    var paragraphs := Paragraphs(Normal(text));
    var groups := PackedExact(paragraphs, maxChars);
    NormalInk(text);
    ParagraphsInk(Normal(text));
    UnitsInk(paragraphs, maxChars);
    ChunksInk(PackedChunks(paragraphs, maxChars), groups);
  }

  // ----- Overlap, duplicates ---------------------------------------------------------------------

  function Tail(s: string, n: nat): string {
    if |s| <= n then s else s[|s| - n..]
  }

  /** A chunk behind the tail of the one before it. */
  function Behind(chunks: seq<string>, overlapChars: nat, i: nat): string
    requires i < |chunks|
  {
    if i == 0 then chunks[0] else Spaced(Tail(chunks[i - 1], overlapChars), chunks[i])
  }

  function Spaced(before: string, after: string): string {
    before + " " + after
  }

  function WithTails(chunks: seq<string>, overlapChars: nat): seq<string> {
    seq(|chunks|, i requires 0 <= i < |chunks| => Behind(chunks, overlapChars, i))
  }

  /** Overlap adds at most its length and one character, and leaves the first chunk alone. */
  lemma WithTailsAt(chunks: seq<string>, overlapChars: nat, i: nat)
    requires i < |chunks|
    ensures |WithTails(chunks, overlapChars)| == |chunks|
    ensures WithTails(chunks, overlapChars)[i] ==
            if i == 0 then chunks[0] else Tail(chunks[i - 1], overlapChars) + " " + chunks[i]
    ensures |WithTails(chunks, overlapChars)[i]| <= |chunks[i]| + overlapChars + 1
  {
  }

  method AddOverlap(chunks: seq<string>, overlapChars: nat) returns (r: seq<string>)
    requires |chunks| > 0 && overlapChars > 0
    ensures r == WithTails(chunks, overlapChars)
  {
    r := [chunks[0]];
    var i := 1;
    while i < |chunks|
      invariant 1 <= i <= |chunks| && |r| == i
      invariant forall j :: 0 <= j < i ==> r[j] == Behind(chunks, overlapChars, j)
    {
      r := r + [Spaced(Tail(chunks[i - 1], overlapChars), chunks[i])];
      assert r[i] == Behind(chunks, overlapChars, i);
      i := i + 1;
    }
  }

  /** The stripped, non-empty chunks, each at its first occurrence. */
  function FirstOccurrences(chunks: seq<string>): seq<string> {
    if chunks == [] then []
    else
      var front := FirstOccurrences(chunks[..|chunks| - 1]);
      var last := Strip(chunks[|chunks| - 1]);
      if last != "" && last !in front then front + [last] else front
  }

  ghost predicate SomeStripIs(chunks: seq<string>, x: string) {
    exists k :: 0 <= k < |chunks| && Strip(chunks[k]) == x
  }

  lemma SomeStripOneMore(chunks: seq<string>, x: string)
    requires chunks != []
    ensures SomeStripIs(chunks, x) <==> SomeStripIs(chunks[..|chunks| - 1], x) || Strip(chunks[|chunks| - 1]) == x
  {
    var front := chunks[..|chunks| - 1];
    if SomeStripIs(front, x) {
      var k :| 0 <= k < |front| && Strip(front[k]) == x;
      assert Strip(chunks[k]) == x;
    }
    if SomeStripIs(chunks, x) {
      var k :| 0 <= k < |chunks| && Strip(chunks[k]) == x;
      assert k < |front| ==> Strip(front[k]) == x;
    }
  }

  ghost predicate NoRepeats(s: seq<string>) {
    forall i, j :: 0 <= i < j < |s| ==> s[i] != s[j]
  }

  /** No chunk is repeated, and exactly the non-empty ones are there. */
  lemma {:induction false} FirstOccurrencesExact(chunks: seq<string>, x: string)
    ensures NoRepeats(FirstOccurrences(chunks))
    ensures x in FirstOccurrences(chunks) <==> x != "" && SomeStripIs(chunks, x)
  {
    if chunks != [] {
      FirstOccurrencesExact(chunks[..|chunks| - 1], x);
      SomeStripOneMore(chunks, x);
    }
  }

  method Deduplicate(chunks: seq<string>) returns (result: seq<string>)
    ensures result == FirstOccurrences(chunks)
  {
    var seen: set<string> := {};
    result := [];
    var i := 0;
    while i < |chunks|
      invariant 0 <= i <= |chunks|
      invariant result == FirstOccurrences(chunks[..i])
      invariant seen == set x | x in result
    {
      var chunk := Strip(chunks[i]);
      assert chunks[..i + 1][..i] == chunks[..i];
      if chunk != "" && chunk !in seen {
        seen := seen + {chunk};
        result := result + [chunk];
      }
      i := i + 1;
    }
    assert chunks[..i] == chunks;
  }

  function Overlapped(chunks: seq<string>, overlapChars: nat): seq<string> {
    if overlapChars > 0 then WithTails(chunks, overlapChars) else chunks
  }

  /** Normalise, pack, overlap, de-duplicate. */
  function Chunks(text: string, maxChars: nat, overlapChars: nat): seq<string> {
    if Strip(text) == "" then []
    else FirstOccurrences(Overlapped(PackedChunks(Paragraphs(Normal(text)), maxChars), overlapChars))
  }

  method Split(text: string, maxChars: nat, overlapChars: nat) returns (result: seq<string>)
    ensures result == Chunks(text, maxChars, overlapChars)
  {
    if Strip(text) == "" {
      return [];
    }
    var chunks := Pack(Paragraphs(Normal(text)), maxChars);
    if overlapChars > 0 && |chunks| > 1 {
      chunks := AddOverlap(chunks, overlapChars);
    }
    result := Deduplicate(chunks);
  }

  /**
   What comes out: nothing exactly for a text without ink; no repeats, nothing empty or unstripped,
   and nothing longer than limit, overlap and one, but for a single long sentence behind its overlap.
   */
  lemma SplitExact(text: string, maxChars: nat, overlapChars: nat)
    ensures var result := Chunks(text, maxChars, overlapChars);
            && NoRepeats(result) && (result == [] <==> Ink(text) == "")
            && forall i :: 0 <= i < |result| ==>
                 && result[i] != "" && Stripped(result[i])
                 && (|result[i]| > maxChars + overlapChars + 1 ==> FromLongSentence(text, maxChars, overlapChars, result[i]))
  {
    StripInk(text);
    InkOfStripped(Strip(text));
    var packed := PackedChunks(Paragraphs(Normal(text)), maxChars);
    var chunks := Overlapped(packed, overlapChars);
    if Strip(text) != "" {
      var result := FirstOccurrences(chunks);
      forall i | 0 <= i < |result|
        ensures result[i] != "" && Stripped(result[i])
        ensures |result[i]| > maxChars + overlapChars + 1 ==> FromLongSentence(text, maxChars, overlapChars, result[i])
      {
        FirstOccurrencesExact(chunks, result[i]);
        var k :| 0 <= k < |chunks| && Strip(chunks[k]) == result[i];
        StripInk(chunks[k]);
        WithTailsAt(packed, overlapChars, k);
        OversizeIsSentence(Paragraphs(Normal(text)), maxChars, k);
      }
      FirstOccurrencesExact(chunks, "");
      PackingKeepsInk(text, maxChars);
      var groups := PackedExact(Paragraphs(Normal(text)), maxChars);
      SomethingPacked(packed, groups, overlapChars);
    }
  }

  /** A packed chunk over the limit is one sentence of a paragraph over the limit. */
  lemma OversizeIsSentence(paragraphs: seq<string>, maxChars: nat, k: nat)
    requires k < |PackedChunks(paragraphs, maxChars)|
    ensures var chunk := PackedChunks(paragraphs, maxChars)[k];
            |chunk| > maxChars ==> SentencesOfOne([chunk], paragraphs, maxChars)
  {
    var packed := PackedChunks(paragraphs, maxChars);
    var groups := PackedExact(paragraphs, maxChars);
    assert ChunkOf(packed[k], groups[k]) && Origin(groups[k], paragraphs, maxChars);
    assert |packed[k]| > maxChars ==> groups[k].parts == [packed[k]];
  }

  lemma SomethingPacked(packed: seq<string>, groups: seq<Group>, overlapChars: nat)
    requires ChunksOf(packed, groups) && Ink(Join(packed)) != ""
    ensures FirstOccurrences(Overlapped(packed, overlapChars)) != []
  {
    assert packed == [] ==> Ink(Join(packed)) == "";
    assert ChunkOf(packed[0], groups[0]);
    JoinWithStripped(groups[0].separator, groups[0].parts);
    StripOfStripped(packed[0]);
    WithTailsAt(packed, overlapChars, 0);
    var chunks := Overlapped(packed, overlapChars);
    assert Strip(chunks[0]) == packed[0];
    FirstOccurrencesExact(chunks, packed[0]);
  }

  /** The result comes from the k-th packed chunk, which is one sentence over the limit, behind the overlap. */
  ghost predicate FromLongSentence(text: string, maxChars: nat, overlapChars: nat, result: string) {
    var paragraphs := Paragraphs(Normal(text));
    var packed := PackedChunks(paragraphs, maxChars);
    exists k :: 0 <= k < |packed|
                && result == Strip(Overlapped(packed, overlapChars)[k])
                && |packed[k]| > maxChars && SentencesOfOne([packed[k]], paragraphs, maxChars)
  }

  lemma InkOfStripped(s: string)
    requires Stripped(s)
    ensures Ink(s) == "" <==> s == ""
  {
  }

  function Normal(text: string): string {
    Strip(CollapseBlank(UnixNewlines(text)))
  }

  lemma NormalInk(text: string)
    ensures Ink(Normal(text)) == Ink(text)
  {
    UnixNewlinesInk(text);
    CollapseBlankInk(UnixNewlines(text));
    StripInk(CollapseBlank(UnixNewlines(text)));
  }
}
