/**
 The cuts the chunker makes, each put back together: stripped margins, unified newlines, paragraphs,
 sentences, overlaps, and where the kept chunks come from.
 */
module TextParts {
  import opened Sequences
  import opened TextChunker

  ghost predicate Blank(s: string) {
    forall i :: 0 <= i < |s| ==> IsSpace(s[i])
  }

  // ----- Stripping ------------------------------------------------------------------------------------

  lemma {:induction false} LStripExact(s: string) returns (margin: string)
    ensures s == margin + LStrip(s) && Blank(margin) && (margin == "" <==> s == "" || !IsSpace(s[0]))
  {
    if s != "" && IsSpace(s[0]) {
      var rest := LStripExact(s[1..]);
      margin := [s[0]] + rest;
    } else {
      margin := "";
    }
  }

  lemma {:induction false} RStripExact(s: string) returns (margin: string)
    ensures s == RStrip(s) + margin && Blank(margin)
  {
    if s != "" && IsSpace(s[|s| - 1]) {
      var rest := RStripExact(s[..|s| - 1]);
      margin := rest + [s[|s| - 1]];
      FrontAndLast(s);
      Associative(RStrip(s), rest, [s[|s| - 1]]);
    } else {
      margin := "";
    }
  }

  /** What stays begins and ends with ink; what goes is the white space around it. */
  lemma StripExact(s: string) returns (before: string, after: string)
    ensures s == before + (Strip(s) + after) && Blank(before) && Blank(after) && Stripped(Strip(s))
  {
    before := LStripExact(s);
    after := RStripExact(LStrip(s));
    StripInk(s);
  }

  // ----- Newlines -------------------------------------------------------------------------------------

  ghost predicate CrLfAt(s: string, i: int) {
    0 <= i && i + 1 < |s| && s[i] == '\r' && s[i + 1] == '\n'
  }

  /** Every "\r\n" becomes "\n", wherever it stands. */
  lemma UnixNewlinesReplace(a: string, b: string)
    ensures UnixNewlines(a + ("\r\n" + b)) == UnixNewlines(a) + ("\n" + UnixNewlines(b))
  {
    var t := "\r\n" + b;
    assert t[2..] == b;
    UnixNewlinesAppend(a, t);
  }

  lemma {:induction false} UnixNewlinesAppend(a: string, t: string)
    requires CrLfAt(t, 0)
    ensures UnixNewlines(a + t) == UnixNewlines(a) + UnixNewlines(t)
  {
    if a == "" {
      assert a + t == t;
    } else if CrLfAt(a, 0) {
      Behead(a, t, 2);
      UnixNewlinesAppend(a[2..], t);
      Associative("\n", UnixNewlines(a[2..]), UnixNewlines(t));
    } else {
      Behead(a, t, 1);
      UnixNewlinesAppend(a[1..], t);
      Associative([a[0]], UnixNewlines(a[1..]), UnixNewlines(t));
      assert |a| == 1 ==> UnixNewlines(a) == [a[0]] + UnixNewlines(a[1..]);
      assert !CrLfAt(a + t, 0);
    }
  }

  lemma Behead(a: string, t: string, n: nat)
    requires n <= |a|
    ensures (a + t)[n..] == a[n..] + t && |a + t| == |a| + |t|
    ensures forall i :: 0 <= i < |a| ==> (a + t)[i] == a[i]
  {
  }

  /** Nothing else changes. */
  lemma {:induction false} UnixNewlinesKeep(s: string)
    requires forall i :: !CrLfAt(s, i)
    ensures UnixNewlines(s) == s
  {
    if |s| >= 2 {
      assert !CrLfAt(s, 0);
      forall i ensures !CrLfAt(s[1..], i) {
        assert !CrLfAt(s, i + 1);
      }
      UnixNewlinesKeep(s[1..]);
    }
  }

  ghost predicate ThreeAt(s: string, i: int) {
    0 <= i && i + 2 < |s| && s[i] == '\n' && s[i + 1] == '\n' && s[i + 2] == '\n'
  }

  ghost predicate NoThree(s: string) {
    forall i :: !ThreeAt(s, i)
  }

  /** Of three newlines one may go. */
  lemma CollapseOne(a: string, b: string)
    ensures CollapseBlank(a + ("\n\n\n" + b)) == CollapseBlank(a + ("\n\n" + b))
  {
    var s, t := "\n\n\n" + b, "\n\n" + b;
    assert s[1..] == t;
    CollapseTail(a, s, t);
  }

  lemma {:induction false} CollapseTail(a: string, s: string, t: string)
    requires TwoAt(s, 0) && TwoAt(t, 0) && CollapseBlank(s) == CollapseBlank(t)
    ensures CollapseBlank(a + s) == CollapseBlank(a + t)
  {
    if a == "" {
      assert a + s == s && a + t == t;
    } else {
      Behead(a, s, 1);
      Behead(a, t, 1);
      CollapseTail(a[1..], s, t);
      SameStart(a, s, t);
    }
  }

  /** The first three characters decide, and two newlines behind a look the same. */
  lemma SameStart(a: string, s: string, t: string)
    requires a != "" && TwoAt(s, 0) && TwoAt(t, 0)
    ensures (a + s)[0] == (a + t)[0] && (ThreeAt(a + s, 0) <==> ThreeAt(a + t, 0))
  {
  }

  /** Without three in a row nothing changes. */
  lemma {:induction false} CollapseKeep(s: string)
    requires NoThree(s)
    ensures CollapseBlank(s) == s
  {
    if s != "" {
      assert !ThreeAt(s, 0);
      forall i ensures !ThreeAt(s[1..], i) {
        assert !ThreeAt(s, i + 1);
      }
      CollapseKeep(s[1..]);
    }
  }

  /** Three in a row never remain. */
  lemma {:induction false} CollapsedHasNoThree(s: string)
    ensures NoThree(CollapseBlank(s))
    ensures s != "" ==> CollapseBlank(s) != "" && CollapseBlank(s)[0] == s[0]
    ensures |s| >= 2 && s[0] != '\n' ==> |CollapseBlank(s)| >= 2 && CollapseBlank(s)[1] == s[1]
    ensures |CollapseBlank(s)| >= 2 && CollapseBlank(s)[0] == '\n' && CollapseBlank(s)[1] == '\n' ==> |s| >= 2 && s[1] == '\n'
  {
    if s != "" {
      CollapsedHasNoThree(s[1..]);
      var r := CollapseBlank(s);
      if !(|s| >= 3 && s[0] == '\n' && s[1] == '\n' && s[2] == '\n') {
        assert r[1..] == CollapseBlank(s[1..]);
        forall i ensures !ThreeAt(r, i) {
          assert !ThreeAt(r[1..], i - 1);
        }
      }
    }
  }

  /** The normal form has stripped ends and no three newlines in a row. */
  lemma NormalExact(text: string)
    ensures Stripped(Normal(text)) && NoThree(Normal(text))
  {
    var collapsed := CollapseBlank(UnixNewlines(text));
    CollapsedHasNoThree(UnixNewlines(text));
    var before, after := StripExact(collapsed);
    forall i ensures !ThreeAt(Normal(text), i) {
      assert !ThreeAt(collapsed, |before| + i);
    }
  }

  // ----- Paragraphs -----------------------------------------------------------------------------------

  ghost predicate TwoAt(s: string, i: int) {
    0 <= i && i + 1 < |s| && s[i] == '\n' && s[i + 1] == '\n'
  }

  lemma {:induction false} JoinWithFirst(separator: string, first: string, rest: seq<string>)
    requires rest != []
    ensures JoinWith(separator, [first] + rest) == first + (separator + JoinWith(separator, rest))
  {
    var all := [first] + rest;
    var n := |rest| - 1;
    if n == 0 {
      assert all[..1] == [first] && all[1] == rest[0];
      assert JoinWith(separator, all) == JoinWith(separator, all[..1]) + separator + rest[0];
    } else {
      assert all[..|all| - 1] == [first] + rest[..n];
      JoinWithFirst(separator, first, rest[..n]);
      Regroup(first, separator, JoinWith(separator, rest[..n]), rest[n]);
    }
  }

  lemma Regroup(first: string, separator: string, middle: string, last: string)
    ensures (first + (separator + middle)) + separator + last == first + (separator + (middle + separator + last))
  {
  }

  lemma JoinWithLonger(separator: string, c: char, rest: seq<string>)
    requires rest != []
    ensures JoinWith(separator, [[c] + rest[0]] + rest[1..]) == [c] + JoinWith(separator, rest)
  {
    if |rest| > 1 {
      JoinWithFirst(separator, [c] + rest[0], rest[1..]);
      JoinWithFirst(separator, rest[0], rest[1..]);
      assert rest == [rest[0]] + rest[1..];
      Associative([c], rest[0], separator + JoinWith(separator, rest[1..]));
    }
  }

  /** A paragraph holds no blank line, and only the last may end in a newline: cuts are made as early as possible. */
  ghost predicate ParagraphAt(parts: seq<string>, k: nat)
    requires k < |parts|
  {
    && (forall i :: !TwoAt(parts[k], i))
    && (k + 1 < |parts| && parts[k] != "" ==> parts[k][|parts[k]| - 1] != '\n')
  }

  /** Joining the paragraphs by blank lines gives the text back. */
  lemma {:induction false} ParagraphsJoined(s: string)
    ensures JoinWith("\n\n", Paragraphs(s)) == s
  {
    if s == "" {
    } else if TwoAt(s, 0) {
      var rest := Paragraphs(s[2..]);
      ParagraphsJoined(s[2..]);
      JoinWithFirst("\n\n", "", rest);
      Cut(s, 2);
      assert s[..2] == "\n\n";
      assert "" + ("\n\n" + s[2..]) == "\n\n" + s[2..];
    } else {
      ParagraphsJoined(s[1..]);
      JoinWithLonger("\n\n", s[0], Paragraphs(s[1..]));
      Cut(s, 1);
      assert s[..1] == [s[0]];
    }
  }

  lemma FirstParagraph(s: string)
    ensures Paragraphs(s)[0] == "" <==> s == "" || TwoAt(s, 0)
    ensures Paragraphs(s)[0] != "" ==> Paragraphs(s)[0][0] == s[0]
  {
  }

  /** No paragraph holds a blank line, and cuts are made as early as possible. */
  lemma {:induction false} ParagraphsExact(s: string, k: nat)
    requires k < |Paragraphs(s)|
    ensures ParagraphAt(Paragraphs(s), k)
  {
    if s == "" {
    } else if TwoAt(s, 0) {
      if k > 0 {
        ParagraphsExact(s[2..], k - 1);
        Shifted(Paragraphs(s[2..]), k - 1);
      }
    } else {
      ParagraphsExact(s[1..], k);
      if k == 0 {
        FirstParagraph(s[1..]);
        LongerFirst(s, Paragraphs(s[1..]));
      } else {
        assert Paragraphs(s)[k] == Paragraphs(s[1..])[k];
      }
    }
  }

  lemma Shifted(rest: seq<string>, k: nat)
    requires k < |rest| && ParagraphAt(rest, k)
    ensures ParagraphAt([""] + rest, k + 1)
  {
  }

  lemma LongerFirst(s: string, rest: seq<string>)
    requires s != "" && !TwoAt(s, 0) && rest != [] && ParagraphAt(rest, 0)
    requires rest[0] == "" <==> s[1..] == "" || TwoAt(s[1..], 0)
    requires rest[0] != "" ==> rest[0][0] == s[1]
    requires s[1..] == "" ==> |rest| == 1
    ensures ParagraphAt([[s[0]] + rest[0]] + rest[1..], 0)
  {
    var p := [s[0]] + rest[0];
    forall i ensures !TwoAt(p, i) {
      assert !TwoAt(rest[0], i - 1);
      assert rest[0] != "" && s[0] == '\n' ==> s[1] != '\n';
    }
    assert p[|p| - 1] == if rest[0] == "" then s[0] else rest[0][|rest[0]| - 1];
    assert TwoAt(s[1..], 0) ==> s[1] == '\n';
  }

  // ----- Sentences ------------------------------------------------------------------------------------

  ghost predicate BreakAt(s: string, i: int) {
    0 < i < |s| && (s[i - 1] == '.' || s[i - 1] == '!' || s[i - 1] == '?') && IsSpace(s[i])
  }

  lemma {:induction false} NextBreakIsFirst(s: string, i: nat, k: nat)
    requires 1 <= i <= k < NextBreak(s, i)
    ensures !BreakAt(s, k)
    decreases |s| - i
  {
    if i < |s| && k > i {
      NextBreakIsFirst(s, i + 1, k);
    }
  }

  /** Parts with something between every two. */
  function Woven(parts: seq<string>, gaps: seq<string>): string
    requires |parts| == |gaps| + 1
  {
    if gaps == [] then parts[0] else parts[0] + (gaps[0] + Woven(parts[1..], gaps[1..]))
  }

  lemma WovenFirst(first: string, gap: string, parts: seq<string>, gaps: seq<string>)
    requires |parts| == |gaps| + 1
    ensures Woven([first] + parts, [gap] + gaps) == first + (gap + Woven(parts, gaps))
  {
    assert ([first] + parts)[1..] == parts && ([gap] + gaps)[1..] == gaps;
  }

  /** No sentence holds a break, and all but the last end in one. */
  ghost predicate SentenceAt(parts: seq<string>, k: nat)
    requires k < |parts|
  {
    && (forall i :: !BreakAt(parts[k], i))
    && (k + 1 < |parts| ==> parts[k] != "" && (var c := parts[k][|parts[k]| - 1]; c == '.' || c == '!' || c == '?'))
  }

  ghost predicate BlankGaps(gaps: seq<string>) {
    forall k :: 0 <= k < |gaps| ==> gaps[k] != "" && Blank(gaps[k])
  }

  ghost predicate AllSentences(parts: seq<string>) {
    forall k :: 0 <= k < |parts| ==> SentenceAt(parts, k)
  }

  /** The sentences and the white space between them are the text, in order. */
  lemma {:induction false} SentencesWoven(s: string) returns (gaps: seq<string>)
    ensures |Sentences(s)| == |gaps| + 1 && BlankGaps(gaps) && Woven(Sentences(s), gaps) == s
    decreases |s|
  {
    var b := NextBreak(s, 1);
    if b >= |s| {
      gaps := [];
    } else {
      var tail := s[b..];
      LStripInk(tail);
      var gap := LStripExact(tail);
      var more := SentencesWoven(LStrip(tail));
      gaps := [gap] + more;
      Cut(s, b);
      WovenFirst(s[..b], gap, Sentences(LStrip(tail)), more);
    }
  }

  /** Every break of the text, and nothing else, separates two sentences. */
  lemma {:induction false} SentencesExact(s: string)
    ensures AllSentences(Sentences(s)) && Sentences(s) != []
    decreases |s|
  {
    var b := NextBreak(s, 1);
    if b >= |s| {
      forall i ensures !BreakAt(s, i) {
        if 0 < i < |s| { NextBreakIsFirst(s, 1, i); }
      }
    } else {
      LStripInk(s[b..]);
      SentencesExact(LStrip(s[b..]));
      FirstSentence(s, b, Sentences(LStrip(s[b..])));
    }
  }

  lemma FirstSentence(s: string, b: nat, rest: seq<string>)
    requires b == NextBreak(s, 1) < |s| && AllSentences(rest) && rest != []
    ensures AllSentences([s[..b]] + rest)
  {
    var parts := [s[..b]] + rest;
    forall k | 0 <= k < |parts| ensures SentenceAt(parts, k) {
      if k == 0 {
        forall i ensures !BreakAt(s[..b], i) {
          if 0 < i < b { NextBreakIsFirst(s, 1, i); }
        }
      } else {
        assert SentenceAt(rest, k - 1);
      }
    }
  }

  // ----- Overlap and duplicates ---------------------------------------------------------------------

  /** The last n characters, or all of a shorter text. */
  lemma TailExact(s: string, n: nat) returns (before: string)
    ensures s == before + Tail(s, n) && |Tail(s, n)| == if |s| < n then |s| else n
  {
    before := if |s| <= n then "" else s[..|s| - n];
  }

  /** Chunk k is where a kept one occurs first. */
  ghost predicate FirstAt(chunks: seq<string>, k: nat, x: string) {
    && k < |chunks| && Strip(chunks[k]) == x && forall j :: 0 <= j < k ==> Strip(chunks[j]) != x
  }

  ghost predicate FirstsAt(chunks: seq<string>, positions: seq<nat>, result: seq<string>) {
    && |positions| == |result|
    && (forall i :: 0 <= i < |result| ==> FirstAt(chunks, positions[i], result[i]))
    && (forall i, j :: 0 <= i < j < |positions| ==> positions[i] < positions[j])
  }

  /** What is kept stays in order, each chunk at its first occurrence. */
  lemma {:induction false} FirstOccurrencesInOrder(chunks: seq<string>) returns (positions: seq<nat>)
    ensures FirstsAt(chunks, positions, FirstOccurrences(chunks))
  {
    positions := [];
    if chunks != [] {
      var n := |chunks| - 1;
      positions := FirstOccurrencesInOrder(chunks[..n]);
      var last := Strip(chunks[n]);
      FirstsLater(chunks, positions, FirstOccurrences(chunks[..n]));
      if last != "" && last !in FirstOccurrences(chunks[..n]) {
        NewAtEnd(chunks);
        positions := positions + [n];
      }
    }
  }

  lemma NewAtEnd(chunks: seq<string>)
    requires chunks != []
    ensures var n, last := |chunks| - 1, Strip(chunks[|chunks| - 1]);
            last != "" && last !in FirstOccurrences(chunks[..n]) ==> FirstAt(chunks, n, last)
  {
    var n, last := |chunks| - 1, Strip(chunks[|chunks| - 1]);
    FirstOccurrencesExact(chunks[..n], last);
    forall j | 0 <= j < n && Strip(chunks[j]) == last ensures SomeStripIs(chunks[..n], last) {
      assert Strip(chunks[..n][j]) == last;
    }
  }

  lemma FirstsLater(chunks: seq<string>, positions: seq<nat>, result: seq<string>)
    requires chunks != [] && FirstsAt(chunks[..|chunks| - 1], positions, result)
    ensures FirstsAt(chunks, positions, result)
    ensures forall i :: 0 <= i < |positions| ==> positions[i] < |chunks| - 1
  {
    var front := chunks[..|chunks| - 1];
    forall i | 0 <= i < |result| ensures FirstAt(chunks, positions[i], result[i]) && positions[i] < |front| {
      assert FirstAt(front, positions[i], result[i]);
      assert forall j :: 0 <= j <= positions[i] ==> front[j] == chunks[j];
    }
  }
}
