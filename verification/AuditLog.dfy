/**
 The hash-chained audit log: AuditHasher, AuditEntry and AuditChainVerifier.

 The digest is a parameter `h`, any function from text to 64 lower-case hexadecimal
 characters. Such a function has collisions, so none is assumed away: the tamper-evidence
 theorem ends in "same history, or here is a collision, or here is a preimage of the genesis
 hash", and what is ruled out elsewhere is ruled out among the entries at hand only.
 */
module AuditLog {
  import opened Sorting
  import opened Wrappers

  // ----- Values ------------------------------------------------------------------------------

  predicate HexDigit(c: char) {
    '0' <= c <= '9' || 'a' <= c <= 'f'
  }

  type HashValue = s: string | |s| == 64 && forall i :: 0 <= i < |s| ==> HexDigit(s[i])
    witness seq(64, i => '0')

  /** The previous hash of the first entry: sixty-four zeros. */
  function GenesisHash(): HashValue {
    seq(64, i => '0')
  }

  /** The escrow id is a UUID: sixteen bytes. */
  type Byte = b: nat | b < 256
  type EscrowId = s: seq<Byte> | |s| == 16 witness seq(16, i => 0)

  datatype AuditEntry = AuditEntry(
    escrowId: EscrowId,
    sequenceNo: nat,
    eventType: string,
    payloadJson: string,
    prevHash: HashValue,
    entryHash: HashValue)

  // ----- AuditHasher -------------------------------------------------------------------------

  function Content(prevHash: string, eventType: string, payloadJson: string): string {
    prevHash + "|" + eventType + "|" + payloadJson
  }

  function EntryContent(e: AuditEntry): string {
    Content(e.prevHash, e.eventType, e.payloadJson)
  }

  predicate SelfConsistent(h: string -> HashValue, e: AuditEntry) {
    e.entryHash == h(EntryContent(e))
  }

  function Create(h: string -> HashValue, escrowId: EscrowId, sequenceNo: nat,
                  eventType: string, payloadJson: string, prevHash: HashValue): AuditEntry {
    AuditEntry(escrowId, sequenceNo, eventType, payloadJson, prevHash,
               h(Content(prevHash, eventType, payloadJson)))
  }

  // ----- Chains ------------------------------------------------------------------------------

  /** The hash the entry at position k must point back to; for k == |s|, the one to append on. */
  function HashBefore(s: seq<AuditEntry>, k: nat): HashValue
    requires k <= |s|
  {
    if k == 0 then GenesisHash() else s[k - 1].entryHash
  }

  predicate EntryOk(h: string -> HashValue, s: seq<AuditEntry>, k: nat)
    requires k < |s|
  {
    SelfConsistent(h, s[k]) && s[k].prevHash == HashBefore(s, k)
  }

  ghost predicate ValidChain(h: string -> HashValue, s: seq<AuditEntry>) {
    forall k :: 0 <= k < |s| ==> EntryOk(h, s, k)
  }

  // ----- Listing by sequence number ------------------------------------------------------------

  function Number(e: AuditEntry): nat {
    e.sequenceNo
  }

  function SortBySequence(s: seq<AuditEntry>): seq<AuditEntry> {
    SortBy(s, Number)
  }

  // ----- AuditChainVerifier ------------------------------------------------------------------

  ghost predicate FirstInvalidAt(h: string -> HashValue, s: seq<AuditEntry>, k: int) {
    0 <= k < |s| && !EntryOk(h, s, k) && ValidChain(h, s[..k])
  }

  /** What a verdict on the sorted list `s` means. */
  ghost predicate Verdict(h: string -> HashValue, s: seq<AuditEntry>, valid: bool, firstInvalid: Option<nat>) {
    && (valid <==> ValidChain(h, s))
    && (valid <==> firstInvalid.None?)
    && (!valid ==> exists k :: FirstInvalidAt(h, s, k) && s[k].sequenceNo == firstInvalid.value)
  }

  method Verify(h: string -> HashValue, entries: seq<AuditEntry>) returns (valid: bool, firstInvalid: Option<nat>)
    ensures Verdict(h, SortBySequence(entries), valid, firstInvalid)
  {
    if |entries| == 0 {
      return true, None;
    }
    var sorted := SortBySequence(entries);
    var expectedPrev := GenesisHash();
    var i := 0;
    while i < |sorted|
      invariant 0 <= i <= |sorted|
      invariant expectedPrev == HashBefore(sorted, i)
      invariant ValidChain(h, sorted[..i])
    {
      var entry := sorted[i];
      if !SelfConsistent(h, entry) {
        assert FirstInvalidAt(h, sorted, i);
        return false, Some(entry.sequenceNo);
      }
      if entry.prevHash != expectedPrev {
        assert FirstInvalidAt(h, sorted, i);
        return false, Some(entry.sequenceNo);
      }
      ExtendsChain(h, sorted[..i], entry);
      assert sorted[..i + 1] == sorted[..i] + [entry];
      expectedPrev := entry.entryHash;
      i := i + 1;
    }
    assert sorted[..i] == sorted;
    return true, None;
  }

  lemma ExtendsChain(h: string -> HashValue, s: seq<AuditEntry>, e: AuditEntry)
    requires ValidChain(h, s) && SelfConsistent(h, e) && e.prevHash == HashBefore(s, |s|)
    ensures ValidChain(h, s + [e])
  {
    var r := s + [e];
    forall k | 0 <= k < |r| ensures EntryOk(h, r, k) {
      if k < |s| {
        assert EntryOk(h, s, k);
      }
    }
  }

  lemma PrefixOk(h: string -> HashValue, s: seq<AuditEntry>, n: nat)
    requires n <= |s|
    ensures forall k :: 0 <= k < n ==> (EntryOk(h, s[..n], k) <==> EntryOk(h, s, k))
  {
  }

  /** The verdict is a function of the sorted list. */
  lemma VerdictUnique(h: string -> HashValue, s: seq<AuditEntry>, v1: bool, b1: Option<nat>, v2: bool, b2: Option<nat>)
    requires Verdict(h, s, v1, b1) && Verdict(h, s, v2, b2)
    ensures v1 == v2 && b1 == b2
  {
    if !v1 {
      var j :| FirstInvalidAt(h, s, j) && s[j].sequenceNo == b1.value;
      var k :| FirstInvalidAt(h, s, k) && s[k].sequenceNo == b2.value;
      PrefixOk(h, s, j);
      PrefixOk(h, s, k);
      assert k <= j && j <= k;
    }
  }

  /** Listing the same distinctly numbered entries in another order changes no verdict. */
  lemma VerdictIgnoresOrder(h: string -> HashValue, a: seq<AuditEntry>, b: seq<AuditEntry>,
                            va: bool, fa: Option<nat>, vb: bool, fb: Option<nat>)
    requires multiset(a) == multiset(b) && DistinctKeys(a, Number)
    requires Verdict(h, SortBySequence(a), va, fa) && Verdict(h, SortBySequence(b), vb, fb)
    ensures va == vb && fa == fb
  {
    SortIgnoresOrder(a, b, Number);
    VerdictUnique(h, SortBySequence(a), va, fa, vb, fb);
  }

  /** Cutting an accepted chain short leaves an accepted chain: truncation alone is invisible. */
  lemma PrefixAccepted(h: string -> HashValue, s: seq<AuditEntry>, n: nat, valid: bool, firstInvalid: Option<nat>)
    requires n <= |s| && OrderedBy(s, Number)
    requires Verdict(h, s, true, None)
    requires Verdict(h, SortBySequence(s[..n]), valid, firstInvalid)
    ensures valid && firstInvalid == None
  {
    SortOfOrdered(s[..n], Number);
    PrefixOk(h, s, n);
  }

  // ----- Tamper evidence ---------------------------------------------------------------------

  /** Joining with `|` can be undone when only the last part may contain a `|`. */
  lemma UniqueParse(p1: string, e1: string, d1: string, p2: string, e2: string, d2: string)
    requires '|' !in p1 && '|' !in p2 && '|' !in e1 && '|' !in e2
    requires Content(p1, e1, d1) == Content(p2, e2, d2)
    ensures p1 == p2 && e1 == e2 && d1 == d2
  {
    assert Content(p1, e1, d1) == p1 + "|" + (e1 + "|" + d1);
    assert Content(p2, e2, d2) == p2 + "|" + (e2 + "|" + d2);
    SplitAtBar(p1, e1 + "|" + d1, p2, e2 + "|" + d2);
    SplitAtBar(e1, d1, e2, d2);
  }

  lemma SplitAtBar(p1: string, r1: string, p2: string, r2: string)
    requires '|' !in p1 && '|' !in p2
    requires p1 + "|" + r1 == p2 + "|" + r2
    ensures p1 == p2 && r1 == r2
  {
    var a, b := p1 + "|" + r1, p2 + "|" + r2;
    assert a[|p1|] == '|' && b[|p2|] == '|';
    assert |p1| == |p2|;
    assert p1 == a[..|p1|] && p2 == b[..|p2|];
    assert r1 == a[|p1| + 1..] && r2 == b[|p2| + 1..];
  }

  /**
   An event type can be told apart from every other `|`-free event type, whatever the payloads,
   exactly when it is itself free of `|`.
   */
  lemma UnambiguousIff(prev: HashValue, e: string)
    ensures (forall e2: string, d: string, d2: string {:trigger Content(prev, e, d), Content(prev, e2, d2)} ::
               '|' !in e2 && Content(prev, e, d) == Content(prev, e2, d2) ==> e == e2)
            <==> '|' !in e
  {
    if '|' in e {
      var k :| 0 <= k < |e| && e[k] == '|' && '|' !in e[..k] by { FirstBar(e); }
      var e2, d2 := e[..k], e[k + 1..] + "|";
      assert e == e[..k] + "|" + e[k + 1..];
      assert Content(prev, e, "") == Content(prev, e2, d2);
      assert e != e2;
    } else {
      forall e2: string, d: string, d2: string | '|' !in e2 && Content(prev, e, d) == Content(prev, e2, d2)
        ensures e == e2
      {
        UniqueParse(prev, e, d, prev, e2, d2);
      }
    }
  }

  lemma FirstBar(e: string)
    requires '|' in e
    ensures exists k :: 0 <= k < |e| && e[k] == '|' && '|' !in e[..k]
  {
    if e[0] == '|' {
      assert e[..0] == [];
    } else {
      assert e == [e[0]] + e[1..];
      FirstBar(e[1..]);
      var k :| 0 <= k < |e[1..]| && e[1..][k] == '|' && '|' !in e[1..][..k];
      assert e[..k + 1] == [e[0]] + e[1..][..k];
      assert e[k + 1] == '|';
    }
  }

  datatype Fact = Fact(eventType: string, payloadJson: string)

  function History(s: seq<AuditEntry>): (r: seq<Fact>)
    ensures |r| == |s|
  {
    seq(|s|, i requires 0 <= i < |s| => Fact(s[i].eventType, s[i].payloadJson))
  }

  ghost predicate BarFree(s: seq<AuditEntry>) {
    forall k :: 0 <= k < |s| ==> '|' !in s[k].eventType
  }

  ghost predicate Collision(h: string -> HashValue, a: seq<AuditEntry>, b: seq<AuditEntry>) {
    exists i, j :: 0 <= i < |a| && 0 <= j < |b| &&
                   EntryContent(a[i]) != EntryContent(b[j]) && h(EntryContent(a[i])) == h(EntryContent(b[j]))
  }

  ghost predicate GenesisPreimage(h: string -> HashValue, s: seq<AuditEntry>) {
    exists i :: 0 <= i < |s| && h(EntryContent(s[i])) == GenesisHash()
  }

  /**
   Two accepted logs with the same head hash hold the same history, or the two logs
   themselves exhibit a collision of the digest or a preimage of the genesis hash.
   */
  lemma {:induction false} TamperEvidence(h: string -> HashValue, a: seq<AuditEntry>, b: seq<AuditEntry>)
    requires ValidChain(h, a) && ValidChain(h, b)
    requires |a| > 0 && |b| > 0 && a[|a| - 1].entryHash == b[|b| - 1].entryHash
    requires BarFree(a) && BarFree(b)
    ensures History(a) == History(b) || Collision(h, a, b) || GenesisPreimage(h, a) || GenesisPreimage(h, b)
    decreases |a|
  {
    var i, j := |a| - 1, |b| - 1;
    assert EntryOk(h, a, i) && EntryOk(h, b, j);
    if EntryContent(a[i]) == EntryContent(b[j]) {
      UniqueParse(a[i].prevHash, a[i].eventType, a[i].payloadJson, b[j].prevHash, b[j].eventType, b[j].payloadJson);
      var a0, b0 := a[..i], b[..j];
      assert History(a) == History(a0) + [Fact(a[i].eventType, a[i].payloadJson)];
      assert History(b) == History(b0) + [Fact(b[j].eventType, b[j].payloadJson)];
      if i > 0 && j > 0 {
        PrefixOk(h, a, i);
        PrefixOk(h, b, j);
        TamperEvidence(h, a0, b0);
        if Collision(h, a0, b0) {
          var m, n :| 0 <= m < |a0| && 0 <= n < |b0| &&
            EntryContent(a0[m]) != EntryContent(b0[n]) && h(EntryContent(a0[m])) == h(EntryContent(b0[n]));
          assert a[m] == a0[m] && b[n] == b0[n];
        }
      } else if i > 0 {
        assert EntryOk(h, a, i - 1);
      } else if j > 0 {
        assert EntryOk(h, b, j - 1);
      }
    }
  }

  lemma {:induction false} SameHistorySameHead(h: string -> HashValue, a: seq<AuditEntry>, b: seq<AuditEntry>)
    requires ValidChain(h, a) && ValidChain(h, b) && History(a) == History(b)
    ensures HashBefore(a, |a|) == HashBefore(b, |b|)
    decreases |a|
  {
    assert |History(a)| == |History(b)|;
    if a != [] {
      var n := |a| - 1;
      PrefixOk(h, a, n);
      PrefixOk(h, b, n);
      assert History(a[..n]) == History(a)[..n] && History(b[..n]) == History(b)[..n];
      SameHistorySameHead(h, a[..n], b[..n]);
      assert EntryOk(h, a, n) && EntryOk(h, b, n);
      assert History(a)[n] == History(b)[n];
    }
  }

  /** A chain whose head is the genesis hash is empty, unless an entry hashes to it. */
  lemma GenesisHead(h: string -> HashValue, s: seq<AuditEntry>)
    requires ValidChain(h, s) && !GenesisPreimage(h, s)
    ensures HashBefore(s, |s|) == GenesisHash() <==> s == []
  {
    if s != [] {
      assert EntryOk(h, s, |s| - 1);
    }
  }

  /**
   For unsorted lists the verifier accepted: where the digest tells their entries apart and none
   hashes to the genesis value, equal heads mean equal histories, and the other way round.
   */
  lemma AcceptedHeadFixesHistory(h: string -> HashValue, a: seq<AuditEntry>, b: seq<AuditEntry>)
    requires BarFree(a) && BarFree(b)
    requires Verdict(h, SortBySequence(a), true, None) && Verdict(h, SortBySequence(b), true, None)
    requires !Collision(h, SortBySequence(a), SortBySequence(b))
    requires !GenesisPreimage(h, SortBySequence(a)) && !GenesisPreimage(h, SortBySequence(b))
    ensures HashBefore(SortBySequence(a), |SortBySequence(a)|) == HashBefore(SortBySequence(b), |SortBySequence(b)|)
            <==> History(SortBySequence(a)) == History(SortBySequence(b))
  {
    var sa, sb := SortBySequence(a), SortBySequence(b);
    forall k | 0 <= k < |sa| ensures '|' !in sa[k].eventType { SortMembers(a, Number, sa[k]); }
    forall k | 0 <= k < |sb| ensures '|' !in sb[k].eventType { SortMembers(b, Number, sb[k]); }
    GenesisHead(h, sa);
    GenesisHead(h, sb);
    if History(sa) == History(sb) {
      SameHistorySameHead(h, sa, sb);
    } else if HashBefore(sa, |sa|) == HashBefore(sb, |sb|) && sa != [] {
      TamperEvidence(h, sa, sb);
    } else {
      assert sa == [] && sb == [] ==> History(sa) == History(sb);
    }
  }

  /** What the digest does not cover: any order-keeping renumbering gets the same verdict. */
  lemma RenumberingInvisible(h: string -> HashValue, s: seq<AuditEntry>, t: seq<AuditEntry>)
    requires |t| == |s| && OrderedBy(s, Number) && OrderedBy(t, Number)
    requires forall i :: 0 <= i < |s| ==> t[i] == s[i].(sequenceNo := t[i].sequenceNo)
    ensures ValidChain(h, SortBySequence(t)) <==> ValidChain(h, SortBySequence(s))
  {
    SortOfOrdered(s, Number);
    SortOfOrdered(t, Number);
    assert forall k :: 0 <= k < |s| ==> (EntryOk(h, t, k) <==> EntryOk(h, s, k));
  }
}
