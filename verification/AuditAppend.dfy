/**
 Concurrent appenders of the audit log: every call of append_audit_event is a transaction
 that takes the advisory lock of its escrow, reads the latest entry, stages a new one and
 commits or rolls back. Transactions interleave freely, one database step at a time.
 */
module AuditAppend {
  import opened AuditLog
  import opened Sorting
  import opened Wrappers

  // ----- The advisory lock key -----------------------------------------------------------------

  function BigEndian(b: seq<Byte>): nat {
    if b == [] then 0 else 256 * BigEndian(b[..|b| - 1]) + b[|b| - 1]
  }

  /** The first eight bytes of the escrow id as a signed 64-bit integer. */
  function LockKey(e: EscrowId): int {
    var u := BigEndian(e[..8]);
    if u < 0x8000_0000_0000_0000 then u else u - 0x1_0000_0000_0000_0000
  }

  function Pow256(n: nat): nat {
    if n == 0 then 1 else 256 * Pow256(n - 1)
  }

  lemma {:induction false} BigEndianBound(b: seq<Byte>)
    ensures BigEndian(b) < Pow256(|b|)
  {
    if b != [] {
      BigEndianBound(b[..|b| - 1]);
    }
  }

  lemma {:induction false} BigEndianInjective(a: seq<Byte>, b: seq<Byte>)
    requires |a| == |b| && BigEndian(a) == BigEndian(b)
    ensures a == b
  {
    if a != [] {
      var a0, b0 := a[..|a| - 1], b[..|b| - 1];
      assert BigEndian(a0) == BigEndian(b0) && a[|a| - 1] == b[|b| - 1];
      BigEndianInjective(a0, b0);
      assert a == a0 + [a[|a| - 1]] && b == b0 + [b[|b| - 1]];
    }
  }

  /** The key fits a PostgreSQL bigint, and two escrows share it exactly when they share eight bytes. */
  lemma LockKeyExact(d: EscrowId, e: EscrowId)
    ensures -0x8000_0000_0000_0000 <= LockKey(d) < 0x8000_0000_0000_0000
    ensures LockKey(d) == LockKey(e) <==> d[..8] == e[..8]
  {
    BigEndianBound(d[..8]);
    BigEndianBound(e[..8]);
    assert Pow256(4) == 0x1_0000_0000;
    assert Pow256(8) == 0x1_0000_0000_0000_0000;
    if LockKey(d) == LockKey(e) {
      BigEndianInjective(d[..8], e[..8]);
    }
  }

  // ----- The database and its steps ------------------------------------------------------------

  datatype Command = Command(escrowId: EscrowId, eventType: string, payloadJson: string)

  datatype Phase =
    | Waiting
    | Locked
    | Read(latest: Option<AuditEntry>)
    | Staged(entry: AuditEntry)

  datatype Txn = Txn(cmd: Command, phase: Phase)

  /** Committed rows in commit order, and the transactions in flight. */
  datatype Db = Db(rows: seq<AuditEntry>, txns: map<nat, Txn>)

  datatype Action =
    | Begin(t: nat, cmd: Command)
    | Acquire(t: nat)
    | GetLatest(t: nat, latest: Option<AuditEntry>)
    | CreateEntry(t: nat)
    | Commit(t: nat)
    | Abort(t: nat)

  predicate HoldsLock(s: Db, t: nat) {
    t in s.txns && !s.txns[t].phase.Waiting?
  }

  /** What SELECT ... ORDER BY sequence_no DESC LIMIT 1 may return. */
  ghost predicate IsLatest(rows: seq<AuditEntry>, e: EscrowId, latest: Option<AuditEntry>) {
    match latest
    case None => forall r :: r in rows ==> r.escrowId != e
    case Some(l) => l in rows && l.escrowId == e &&
                    forall r :: r in rows && r.escrowId == e ==> r.sequenceNo <= l.sequenceNo
  }

  /** The table's unique constraints: (escrow_id, sequence_no), and entry_hash over all escrows. */
  predicate KeepsUnique(rows: seq<AuditEntry>, x: AuditEntry) {
    forall r :: r in rows ==>
      !(r.escrowId == x.escrowId && r.sequenceNo == x.sequenceNo) && r.entryHash != x.entryHash
  }

  function NextEntry(h: string -> HashValue, cmd: Command, latest: Option<AuditEntry>): AuditEntry {
    var prevHash := if latest.Some? then latest.value.entryHash else GenesisHash();
    var nextSeq := if latest.Some? then latest.value.sequenceNo + 1 else 0;
    Create(h, cmd.escrowId, nextSeq, cmd.eventType, cmd.payloadJson, prevHash)
  }

  function SetPhase(s: Db, t: nat, phase: Phase): Db
    requires t in s.txns
  {
    Db(s.rows, s.txns[t := Txn(s.txns[t].cmd, phase)])
  }

  ghost predicate Step(h: string -> HashValue, s: Db, a: Action, s': Db) {
    match a
    case Begin(t, cmd) =>
      t !in s.txns && s' == Db(s.rows, s.txns[t := Txn(cmd, Waiting)])
    case Acquire(t) =>
      && t in s.txns && s.txns[t].phase.Waiting?
      && (forall u :: HoldsLock(s, u) ==> LockKey(s.txns[u].cmd.escrowId) != LockKey(s.txns[t].cmd.escrowId))
      && s' == SetPhase(s, t, Locked)
    case GetLatest(t, latest) =>
      && t in s.txns && s.txns[t].phase.Locked?
      && IsLatest(s.rows, s.txns[t].cmd.escrowId, latest)
      && s' == SetPhase(s, t, Read(latest))
    case CreateEntry(t) =>
      && t in s.txns && s.txns[t].phase.Read?
      && s' == SetPhase(s, t, Staged(NextEntry(h, s.txns[t].cmd, s.txns[t].phase.latest)))
    case Commit(t) =>
      && t in s.txns && s.txns[t].phase.Staged?
      && var x := s.txns[t].phase.entry;
         s' == Db(if KeepsUnique(s.rows, x) then s.rows + [x] else s.rows, s.txns - {t})
    case Abort(t) =>
      t in s.txns && s' == Db(s.rows, s.txns - {t})
  }

  ghost predicate Run(h: string -> HashValue, states: seq<Db>, actions: seq<Action>) {
    && |states| == |actions| + 1
    && states[0] == Db([], map[])
    && forall i {:trigger actions[i]} :: 0 <= i < |actions| ==> Step(h, states[i], actions[i], states[i + 1])
  }

  // ----- One escrow's log ----------------------------------------------------------------------

  function Log(rows: seq<AuditEntry>, e: EscrowId): seq<AuditEntry> {
    if rows == [] then []
    else
      var rest := Log(rows[..|rows| - 1], e);
      var last := rows[|rows| - 1];
      if last.escrowId == e then rest + [last] else rest
  }

  lemma LogAppend(rows: seq<AuditEntry>, x: AuditEntry, e: EscrowId)
    ensures Log(rows + [x], e) == if x.escrowId == e then Log(rows, e) + [x] else Log(rows, e)
  {
    assert (rows + [x])[..|rows|] == rows;
  }

  lemma {:induction false} LogMembers(rows: seq<AuditEntry>, e: EscrowId, x: AuditEntry)
    ensures x in Log(rows, e) <==> x in rows && x.escrowId == e
  {
    if rows != [] {
      var front, last := rows[..|rows| - 1], rows[|rows| - 1];
      LogMembers(front, e, x);
      assert rows == front + [last];
    }
  }

  /** Numbered 0, 1, 2, ... and linked from the genesis hash. */
  ghost predicate LogOk(h: string -> HashValue, log: seq<AuditEntry>) {
    ValidChain(h, log) && forall k :: 0 <= k < |log| ==> log[k].sequenceNo == k
  }

  function Latest(log: seq<AuditEntry>): Option<AuditEntry> {
    if log == [] then None else Some(log[|log| - 1])
  }

  lemma LatestIsLast(h: string -> HashValue, rows: seq<AuditEntry>, e: EscrowId, latest: Option<AuditEntry>)
    requires LogOk(h, Log(rows, e)) && IsLatest(rows, e, latest)
    ensures latest == Latest(Log(rows, e))
  {
    var log := Log(rows, e);
    if latest.Some? {
      LogMembers(rows, e, latest.value);
    }
    if log != [] {
      LogMembers(rows, e, log[|log| - 1]);
      assert latest.Some?;
      var k :| 0 <= k < |log| && log[k] == latest.value;
      assert log[|log| - 1].sequenceNo <= log[k].sequenceNo;
    }
  }

  // ----- The invariant -------------------------------------------------------------------------

  ghost predicate TxnOk(h: string -> HashValue, rows: seq<AuditEntry>, x: Txn) {
    var latest := Latest(Log(rows, x.cmd.escrowId));
    match x.phase
    case Waiting => true
    case Locked => true
    case Read(l) => l == latest
    case Staged(entry) => entry == NextEntry(h, x.cmd, latest)
  }

  ghost predicate UniqueHashes(rows: seq<AuditEntry>) {
    forall i, j :: 0 <= i < j < |rows| ==> rows[i].entryHash != rows[j].entryHash
  }

  ghost predicate LocksApart(s: Db) {
    forall t, u :: HoldsLock(s, t) && HoldsLock(s, u) && t != u ==>
      LockKey(s.txns[t].cmd.escrowId) != LockKey(s.txns[u].cmd.escrowId)
  }

  ghost predicate TxnsOk(h: string -> HashValue, s: Db) {
    forall t :: t in s.txns ==> TxnOk(h, s.rows, s.txns[t])
  }

  ghost predicate Inv(h: string -> HashValue, s: Db) {
    (forall e: EscrowId :: LogOk(h, Log(s.rows, e))) && UniqueHashes(s.rows) && LocksApart(s) && TxnsOk(h, s)
  }

  lemma NextEntryExtends(h: string -> HashValue, log: seq<AuditEntry>, cmd: Command)
    requires LogOk(h, log)
    ensures LogOk(h, log + [NextEntry(h, cmd, Latest(log))])
  {
    ExtendsChain(h, log, NextEntry(h, cmd, Latest(log)));
  }

  /** The lock makes the (escrow_id, sequence_no) constraint redundant: only entry_hash can refuse. */
  lemma OnlyHashCanClash(h: string -> HashValue, s: Db, t: nat)
    requires Inv(h, s) && t in s.txns && s.txns[t].phase.Staged?
    ensures var x := s.txns[t].phase.entry;
            KeepsUnique(s.rows, x) <==> forall r :: r in s.rows ==> r.entryHash != x.entryHash
  {
    var x := s.txns[t].phase.entry;
    var log := Log(s.rows, x.escrowId);
    assert TxnOk(h, s.rows, s.txns[t]);
    assert LogOk(h, log);
    forall r | r in s.rows && r.escrowId == x.escrowId ensures r.sequenceNo != x.sequenceNo {
      LogMembers(s.rows, x.escrowId, r);
      var k :| 0 <= k < |log| && log[k] == r;
    }
  }

  lemma CommitKeepsTxns(h: string -> HashValue, s: Db, t: nat, x: AuditEntry, u: nat)
    requires Inv(h, s) && t in s.txns && s.txns[t].phase == Staged(x) && u in s.txns && u != t
    ensures TxnOk(h, s.rows + [x], s.txns[u])
  {
    LogAppend(s.rows, x, s.txns[u].cmd.escrowId);
    assert TxnOk(h, s.rows, s.txns[t]) && TxnOk(h, s.rows, s.txns[u]);
    assert HoldsLock(s, t);
    assert HoldsLock(s, u) ==> s.txns[u].cmd.escrowId != x.escrowId;
  }

  lemma CommitKeepsLogs(h: string -> HashValue, s: Db, t: nat, x: AuditEntry, d: EscrowId)
    requires Inv(h, s) && t in s.txns && s.txns[t].phase == Staged(x)
    ensures LogOk(h, Log(s.rows + [x], d))
  {
    LogAppend(s.rows, x, d);
    assert LogOk(h, Log(s.rows, d));
    assert TxnOk(h, s.rows, s.txns[t]);
    if d == s.txns[t].cmd.escrowId {
      NextEntryExtends(h, Log(s.rows, d), s.txns[t].cmd);
    }
  }

  lemma CommitKeepsInv(h: string -> HashValue, s: Db, t: nat, s': Db)
    requires Inv(h, s) && Step(h, s, Commit(t), s')
    ensures Inv(h, s')
  {
    var x := s.txns[t].phase.entry;
    if KeepsUnique(s.rows, x) {
      forall d: EscrowId ensures LogOk(h, Log(s'.rows, d)) {
        CommitKeepsLogs(h, s, t, x, d);
      }
      forall u | u in s'.txns ensures TxnOk(h, s'.rows, s'.txns[u]) {
        CommitKeepsTxns(h, s, t, x, u);
      }
    }
    assert forall u :: HoldsLock(s', u) ==> HoldsLock(s, u);
  }

  lemma LocksStayApart(h: string -> HashValue, s: Db, a: Action, s': Db)
    requires LocksApart(s) && Step(h, s, a, s') && !a.Commit?
    ensures LocksApart(s')
  {
    assert forall u :: u != a.t && HoldsLock(s', u) ==> HoldsLock(s, u) && s'.txns[u] == s.txns[u];
    if a.GetLatest? || a.CreateEntry? {
      assert HoldsLock(s, a.t);
    }
  }

  lemma TxnsStayOk(h: string -> HashValue, s: Db, a: Action, s': Db)
    requires Inv(h, s) && Step(h, s, a, s') && !a.Commit?
    ensures TxnsOk(h, s')
  {
    if a.GetLatest? {
      LatestIsLast(h, s.rows, s.txns[a.t].cmd.escrowId, a.latest);
    }
    forall u | u in s'.txns ensures TxnOk(h, s'.rows, s'.txns[u]) {
      if u in s.txns { assert TxnOk(h, s.rows, s.txns[u]); }
    }
  }

  lemma StepKeepsInv(h: string -> HashValue, s: Db, a: Action, s': Db)
    requires Inv(h, s) && Step(h, s, a, s')
    ensures Inv(h, s')
  {
    if a.Commit? {
      CommitKeepsInv(h, s, a.t, s');
    } else {
      assert s'.rows == s.rows;
      LocksStayApart(h, s, a, s');
      TxnsStayOk(h, s, a, s');
    }
  }

  // ----- Every run -----------------------------------------------------------------------------

  lemma {:induction false} RunKeepsInv(h: string -> HashValue, states: seq<Db>, actions: seq<Action>, i: nat)
    requires Run(h, states, actions) && i < |states|
    ensures Inv(h, states[i])
  {
    if i == 0 {
      assert forall e: EscrowId :: Log([], e) == [];
    } else {
      RunKeepsInv(h, states, actions, i - 1);
      StepKeepsInv(h, states[i - 1], actions[i - 1], states[i]);
    }
  }

  /**
   In every interleaving, at every moment, each escrow's committed entries are numbered
   0..n-1 and linked from the genesis hash.
   */
  lemma EveryRunKeepsChains(h: string -> HashValue, states: seq<Db>, actions: seq<Action>, i: nat, e: EscrowId)
    requires Run(h, states, actions) && i < |states|
    ensures var log := Log(states[i].rows, e);
            && ValidChain(h, log)
            && forall k :: 0 <= k < |log| ==> log[k].sequenceNo == k && log[k].escrowId == e
  {
    RunKeepsInv(h, states, actions, i);
    var log := Log(states[i].rows, e);
    assert LogOk(h, log);
    forall k | 0 <= k < |log| ensures log[k].escrowId == e {
      LogMembers(states[i].rows, e, log[k]);
    }
  }

  /** ... and the verifier accepts it, in whatever order the rows are listed. */
  lemma EveryRunVerifies(h: string -> HashValue, states: seq<Db>, actions: seq<Action>, i: nat, e: EscrowId,
                         listed: seq<AuditEntry>, valid: bool, firstInvalid: Option<nat>)
    requires Run(h, states, actions) && i < |states|
    requires multiset(listed) == multiset(Log(states[i].rows, e))
    requires Verdict(h, SortBySequence(listed), valid, firstInvalid)
    ensures valid && firstInvalid == None
  {
    var log := Log(states[i].rows, e);
    EveryRunKeepsChains(h, states, actions, i, e);
    assert DistinctKeys(log, Number) && OrderedBy(log, Number);
    SortIgnoresOrder(log, listed, Number);
    SortOfOrdered(log, Number);
  }

  /** Nothing committed is ever changed or removed. */
  lemma {:induction false} EveryRunOnlyAppends(h: string -> HashValue, states: seq<Db>, actions: seq<Action>, i: nat, j: nat)
    requires Run(h, states, actions) && i <= j < |states|
    ensures states[i].rows <= states[j].rows
  {
    if i < j {
      EveryRunOnlyAppends(h, states, actions, i, j - 1);
      assert Step(h, states[j - 1], actions[j - 1], states[j]);
      assert states[j - 1].rows <= states[j].rows;
    }
  }

  // ----- What is committed is what was commanded ---------------------------------------------------

  /** The command with which transaction t last began, among the first n actions. */
  function Given(actions: seq<Action>, t: nat, n: nat): Option<Command>
    requires n <= |actions|
  {
    if n == 0 then None
    else if actions[n - 1].Begin? && actions[n - 1].t == t then Some(actions[n - 1].cmd)
    else Given(actions, t, n - 1)
  }

  /** Step n is the commit of a transaction of escrow e, and it added a row. */
  predicate Records(states: seq<Db>, actions: seq<Action>, e: EscrowId, n: nat)
    requires |states| == |actions| + 1 && n < |actions|
  {
    && actions[n].Commit? && |states[n + 1].rows| > |states[n].rows|
    && Given(actions, actions[n].t, n).Some? && Given(actions, actions[n].t, n).value.escrowId == e
  }

  function Contribution(states: seq<Db>, actions: seq<Action>, e: EscrowId, n: nat): seq<Fact>
    requires |states| == |actions| + 1 && n < |actions|
  {
    if Records(states, actions, e, n)
    then var cmd := Given(actions, actions[n].t, n).value; [Fact(cmd.eventType, cmd.payloadJson)]
    else []
  }

  /** What the recording transactions of e were commanded to record, in commit order. */
  function Commanded(states: seq<Db>, actions: seq<Action>, e: EscrowId, n: nat): seq<Fact>
    requires |states| == |actions| + 1 && n <= |actions|
  {
    if n == 0 then [] else Commanded(states, actions, e, n - 1) + Contribution(states, actions, e, n - 1)
  }

  ghost predicate TxnsAsGiven(s: Db, actions: seq<Action>, n: nat)
    requires n <= |actions|
  {
    forall t :: t in s.txns ==>
      && Given(actions, t, n) == Some(s.txns[t].cmd)
      && (s.txns[t].phase.Staged? ==>
            var x, cmd := s.txns[t].phase.entry, s.txns[t].cmd;
            x.escrowId == cmd.escrowId && x.eventType == cmd.eventType && x.payloadJson == cmd.payloadJson)
  }

  lemma StepKeepsGiven(h: string -> HashValue, s: Db, s': Db, actions: seq<Action>, n: nat)
    requires n < |actions| && Step(h, s, actions[n], s') && TxnsAsGiven(s, actions, n)
    ensures TxnsAsGiven(s', actions, n + 1)
  {
  }

  lemma HistoryAppend(s: seq<AuditEntry>, x: AuditEntry)
    ensures History(s + [x]) == History(s) + [Fact(x.eventType, x.payloadJson)]
  {
  }

  /** One commit extends the log by what its transaction was given, if it adds a row for the escrow. */
  lemma CommitRecords(h: string -> HashValue, s: Db, s': Db, actions: seq<Action>, n: nat, e: EscrowId)
    requires n < |actions| && actions[n].Commit? && Step(h, s, actions[n], s') && TxnsAsGiven(s, actions, n)
    ensures var t := actions[n].t; var given := Given(actions, t, n);
            History(Log(s'.rows, e)) == History(Log(s.rows, e))
              + if |s'.rows| > |s.rows| && given.Some? && given.value.escrowId == e
                then [Fact(given.value.eventType, given.value.payloadJson)] else []
  {
    var x := s.txns[actions[n].t].phase.entry;
    LogAppend(s.rows, x, e);
    HistoryAppend(Log(s.rows, e), x);
    assert History(Log(s.rows, e)) + [] == History(Log(s.rows, e));
  }

  lemma StepRecords(h: string -> HashValue, states: seq<Db>, actions: seq<Action>, n: nat, e: EscrowId)
    requires |states| == |actions| + 1 && n < |actions|
    requires Step(h, states[n], actions[n], states[n + 1]) && TxnsAsGiven(states[n], actions, n)
    ensures History(Log(states[n + 1].rows, e)) == History(Log(states[n].rows, e)) + Contribution(states, actions, e, n)
    ensures TxnsAsGiven(states[n + 1], actions, n + 1)
  {
    StepKeepsGiven(h, states[n], states[n + 1], actions, n);
    if actions[n].Commit? {
      CommitRecords(h, states[n], states[n + 1], actions, n, e);
    } else {
      assert states[n + 1].rows == states[n].rows;
      var history := History(Log(states[n].rows, e));
      assert history + [] == history;
    }
  }

  lemma {:induction false} EveryRunAsGiven(h: string -> HashValue, states: seq<Db>, actions: seq<Action>, i: nat)
    requires Run(h, states, actions) && i < |states|
    ensures TxnsAsGiven(states[i], actions, i)
  {
    if i > 0 {
      EveryRunAsGiven(h, states, actions, i - 1);
      StepKeepsGiven(h, states[i - 1], states[i], actions, i - 1);
    }
  }

  /** After n actions the log of e tells what the transactions that recorded for it were commanded to record. */
  ghost predicate TellsCommands(states: seq<Db>, actions: seq<Action>, e: EscrowId, n: nat)
    requires |states| == |actions| + 1 && n <= |actions|
  {
    History(Log(states[n].rows, e)) == Commanded(states, actions, e, n)
  }

  lemma NothingRecorded(states: seq<Db>, actions: seq<Action>, e: EscrowId)
    requires |states| == |actions| + 1 && states[0].rows == []
    ensures TellsCommands(states, actions, e, 0)
  {
    assert |History(Log(states[0].rows, e))| == 0;
  }

  lemma OneMoreRecorded(h: string -> HashValue, states: seq<Db>, actions: seq<Action>, n: nat, m: nat, e: EscrowId)
    requires Run(h, states, actions) && n < |actions| && m == n + 1
    requires TellsCommands(states, actions, e, n)
    ensures TellsCommands(states, actions, e, m)
  {
    EveryRunAsGiven(h, states, actions, n);
    StepRecords(h, states, actions, n, e);
  }

  /**
   In every interleaving, at every moment, an escrow's log tells exactly what the transactions
   that recorded for it were commanded to record, in the order of their commits.
   */
  lemma {:induction false} EveryRunRecordsCommands(h: string -> HashValue, states: seq<Db>, actions: seq<Action>, i: nat, e: EscrowId)
    requires Run(h, states, actions) && i < |states|
    ensures TellsCommands(states, actions, e, i)
  {
    if i == 0 {
      NothingRecorded(states, actions, e);
    } else {
      var n: nat := i - 1;
      EveryRunRecordsCommands(h, states, actions, n, e);
      OneMoreRecorded(h, states, actions, n, i, e);
    }
  }

  // ----- When a commit is refused ----------------------------------------------------------------

  lemma LogEntryBefore(h: string -> HashValue, rows: seq<AuditEntry>, r: AuditEntry)
    requires LogOk(h, Log(rows, r.escrowId)) && r in rows
    ensures exists k :: 0 <= k < |Log(rows, r.escrowId)| && Log(rows, r.escrowId)[k] == r
  {
    LogMembers(rows, r.escrowId, r);
  }

  ghost predicate StartsWith(log: seq<AuditEntry>, x: AuditEntry) {
    log != [] && log[0].eventType == x.eventType && log[0].payloadJson == x.payloadJson
  }

  /** Among these rows and the staged entry the digest has no collision and does not yield the genesis value. */
  ghost predicate TellsApart(h: string -> HashValue, rows: seq<AuditEntry>, x: AuditEntry) {
    forall r :: r in rows ==>
      && h(EntryContent(r)) != GenesisHash()
      && (h(EntryContent(r)) == h(EntryContent(x)) ==> EntryContent(r) == EntryContent(x))
  }

  lemma LogHashes(h: string -> HashValue, rows: seq<AuditEntry>, e: EscrowId)
    requires LogOk(h, Log(rows, e))
    ensures var log := Log(rows, e);
            forall j :: 0 <= j < |log| ==>
              log[j] in rows && log[j].escrowId == e && log[j].entryHash == h(EntryContent(log[j]))
  {
    var log := Log(rows, e);
    forall j | 0 <= j < |log|
      ensures log[j] in rows && log[j].escrowId == e && log[j].entryHash == h(EntryContent(log[j]))
    {
      LogMembers(rows, e, log[j]);
      assert EntryOk(h, log, j);
    }
  }

  lemma ClashIsAtGenesis(h: string -> HashValue, s: Db, t: nat, r: AuditEntry)
    requires Inv(h, s) && t in s.txns && s.txns[t].phase.Staged?
    requires TellsApart(h, s.rows, s.txns[t].phase.entry)
    requires BarFree(s.rows) && '|' !in s.txns[t].cmd.eventType
    requires r in s.rows && r.entryHash == s.txns[t].phase.entry.entryHash
    ensures Log(s.rows, s.txns[t].cmd.escrowId) == []
    ensures StartsWith(Log(s.rows, r.escrowId), s.txns[t].phase.entry)
  {
    var x := s.txns[t].phase.entry;
    var log, theirs := Log(s.rows, x.escrowId), Log(s.rows, r.escrowId);
    assert TxnOk(h, s.rows, s.txns[t]) && LogOk(h, log) && LogOk(h, theirs);
    LogEntryBefore(h, s.rows, r);
    var k :| 0 <= k < |theirs| && theirs[k] == r;
    assert EntryOk(h, theirs, k);
    UniqueParse(r.prevHash, r.eventType, r.payloadJson, x.prevHash, x.eventType, x.payloadJson);
    assert HashBefore(theirs, k) == HashBefore(log, |log|);
    LogHashes(h, s.rows, x.escrowId);
    LogHashes(h, s.rows, r.escrowId);
  }

  /**
   Where the digest tells the rows and the entry apart, a commit is refused exactly when the entry
   is the first of its escrow and another escrow's log starts with the same event type and payload.
   */
  lemma CommitRefusedIff(h: string -> HashValue, s: Db, t: nat)
    requires Inv(h, s) && t in s.txns && s.txns[t].phase.Staged?
    requires TellsApart(h, s.rows, s.txns[t].phase.entry)
    requires BarFree(s.rows) && '|' !in s.txns[t].cmd.eventType
    ensures !KeepsUnique(s.rows, s.txns[t].phase.entry) <==>
            && Log(s.rows, s.txns[t].cmd.escrowId) == []
            && exists d: EscrowId :: StartsWith(Log(s.rows, d), s.txns[t].phase.entry)
  {
    var x := s.txns[t].phase.entry;
    OnlyHashCanClash(h, s, t);
    assert TxnOk(h, s.rows, s.txns[t]);
    if !KeepsUnique(s.rows, x) {
      var r :| r in s.rows && r.entryHash == x.entryHash;
      ClashIsAtGenesis(h, s, t, r);
    }
    if Log(s.rows, x.escrowId) == [] && exists d: EscrowId :: StartsWith(Log(s.rows, d), x) {
      var d: EscrowId :| StartsWith(Log(s.rows, d), x);
      assert LogOk(h, Log(s.rows, d));
      var r := Log(s.rows, d)[0];
      assert EntryOk(h, Log(s.rows, d), 0);
      LogMembers(s.rows, d, r);
      assert r.entryHash == x.entryHash;
    }
  }

  // ----- A commit that is refused ------------------------------------------------------------------

  /** The database while transaction t, alone, takes cmd through its phases. */
  function Alone(rows: seq<AuditEntry>, t: nat, cmd: Command, phase: Phase): Db {
    Db(rows, map[t := Txn(cmd, phase)])
  }

  function AppendStates(h: string -> HashValue, rows: seq<AuditEntry>, t: nat, cmd: Command, latest: Option<AuditEntry>): seq<Db> {
    [Alone(rows, t, cmd, Waiting), Alone(rows, t, cmd, Locked), Alone(rows, t, cmd, Read(latest)),
     Alone(rows, t, cmd, Staged(NextEntry(h, cmd, latest)))]
  }

  function AppendActions(t: nat, cmd: Command, latest: Option<AuditEntry>): seq<Action> {
    [Begin(t, cmd), Acquire(t), GetLatest(t, latest), CreateEntry(t), Commit(t)]
  }

  ghost predicate Path(h: string -> HashValue, states: seq<Db>, actions: seq<Action>) {
    && |states| == |actions| + 1
    && forall i {:trigger actions[i]} :: 0 <= i < |actions| ==> Step(h, states[i], actions[i], states[i + 1])
  }

  lemma AppendPath(h: string -> HashValue, rows: seq<AuditEntry>, rows': seq<AuditEntry>, t: nat, cmd: Command, latest: Option<AuditEntry>)
    requires IsLatest(rows, cmd.escrowId, latest)
    requires var x := NextEntry(h, cmd, latest); rows' == if KeepsUnique(rows, x) then rows + [x] else rows
    ensures Path(h, [Db(rows, map[])] + AppendStates(h, rows, t, cmd, latest) + [Db(rows', map[])], AppendActions(t, cmd, latest))
  {
    var states := [Db(rows, map[])] + AppendStates(h, rows, t, cmd, latest) + [Db(rows', map[])];
    var actions := AppendActions(t, cmd, latest);
    forall i | 0 <= i < 5 ensures Step(h, states[i], actions[i], states[i + 1]) {
      assert i == 0 || i == 1 || i == 2 || i == 3 || i == 4;
      assert Alone(rows, t, cmd, Staged(NextEntry(h, cmd, latest))).txns - {t} == map[];
    }
  }

  lemma JoinPaths(h: string -> HashValue, a: seq<Db>, m: Db, b: seq<Db>, p: seq<Action>, q: seq<Action>)
    requires Path(h, a + [m], p) && Path(h, [m] + b, q)
    ensures Path(h, a + [m] + b, p + q)
  {
    var states, actions := a + [m] + b, p + q;
    forall i | 0 <= i < |actions| ensures Step(h, states[i], actions[i], states[i + 1]) {
      if i < |p| {
        assert states[i] == (a + [m])[i] && states[i + 1] == (a + [m])[i + 1] && actions[i] == p[i];
      } else {
        var j := i - |p|;
        assert states[i] == ([m] + b)[j] && states[i + 1] == ([m] + b)[j + 1] && actions[i] == q[j];
      }
    }
  }

  /**
   Whatever the digest, two escrows whose logs open with the same event and payload cannot both
   have theirs: the second commit is refused.
   */
  lemma SameOpeningIsRefused(h: string -> HashValue, d: EscrowId, e: EscrowId, eventType: string, payloadJson: string)
      returns (states: seq<Db>, actions: seq<Action>)
    requires d != e
    ensures Run(h, states, actions) && |actions| == 10
    ensures var x := Create(h, d, 0, eventType, payloadJson, GenesisHash()); var before := states[9];
            && before.rows == [x] && actions[9] == Commit(1) && states[10].rows == [x]
            && before == Alone([x], 1, Command(e, eventType, payloadJson), Staged(x.(escrowId := e)))
            && !KeepsUnique(before.rows, x.(escrowId := e))
            && (x.entryHash != GenesisHash() ==> TellsApart(h, before.rows, x.(escrowId := e)))
  {
    var x := Create(h, d, 0, eventType, payloadJson, GenesisHash());
    var first, second := Command(d, eventType, payloadJson), Command(e, eventType, payloadJson);
    assert KeepsUnique([], x) && !KeepsUnique([x], x.(escrowId := e));
    AppendPath(h, [], [x], 0, first, None);
    AppendPath(h, [x], [x], 1, second, None);
    var start, middle := [Db([], map[])] + AppendStates(h, [], 0, first, None), Db([x], map[]);
    var end := AppendStates(h, [x], 1, second, None) + [Db([x], map[])];
    assert [middle] + end == [middle] + AppendStates(h, [x], 1, second, None) + [Db([x], map[])];
    JoinPaths(h, start, middle, end, AppendActions(0, first, None), AppendActions(1, second, None));
    states := start + [middle] + end;
    actions := AppendActions(0, first, None) + AppendActions(1, second, None);
  }

  function AllF(text: string): HashValue {
    seq(64, i => 'f')
  }

  /** A digest and a state in which everything CommitRefusedIff asks for holds, and the commit is refused. */
  lemma RefusalExists(d: EscrowId, e: EscrowId) returns (s: Db)
    requires d != e
    ensures Inv(AllF, s) && 1 in s.txns && s.txns[1].phase.Staged?
    ensures TellsApart(AllF, s.rows, s.txns[1].phase.entry) && BarFree(s.rows) && '|' !in s.txns[1].cmd.eventType
    ensures !KeepsUnique(s.rows, s.txns[1].phase.entry)
  {
    var states, actions := SameOpeningIsRefused(AllF, d, e, "ESCROW_DEPLOYED", "{}");
    RunKeepsInv(AllF, states, actions, 9);
    s := states[9];
    assert AllF("")[0] == 'f' && GenesisHash()[0] == '0';
  }

  function Octet(e: EscrowId, i: nat): int
    requires i < 16
  {
    e[i]
  }

  /** The key reads the first eight bytes as a big-endian integer in two's complement. */
  lemma LockKeyBytes(e: EscrowId)
    ensures LockKey(e) ==
            (if Octet(e, 0) < 128 then Octet(e, 0) else Octet(e, 0) - 256) * 0x100_0000_0000_0000
            + Octet(e, 1) * 0x1_0000_0000_0000 + Octet(e, 2) * 0x100_0000_0000 + Octet(e, 3) * 0x1_0000_0000
            + Octet(e, 4) * 0x100_0000 + Octet(e, 5) * 0x1_0000 + Octet(e, 6) * 0x100 + Octet(e, 7)
  {
    var b := e[..8];
    assert b[..7][..6] == b[..6] && b[..6][..5] == b[..5] && b[..5][..4] == b[..4];
    assert b[..4][..3] == b[..3] && b[..3][..2] == b[..2] && b[..2][..1] == b[..1] && b[..1][..0] == [];
    var two := BigEndian(b[..2]);
    assert BigEndian(b[..1]) == Octet(e, 0) && two == 256 * Octet(e, 0) + Octet(e, 1);
    assert BigEndian(b[..3]) == 256 * two + Octet(e, 2);
    assert BigEndian(b[..4]) == 256 * BigEndian(b[..3]) + Octet(e, 3);
    assert BigEndian(b[..5]) == 256 * BigEndian(b[..4]) + Octet(e, 4);
    assert BigEndian(b[..6]) == 256 * BigEndian(b[..5]) + Octet(e, 5);
    assert BigEndian(b[..7]) == 256 * BigEndian(b[..6]) + Octet(e, 6);
    assert BigEndian(b) == 256 * BigEndian(b[..7]) + Octet(e, 7);
  }
}
