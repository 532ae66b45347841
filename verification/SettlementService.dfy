/**
 SettlementService: each use case acts on the chain first and records on the aggregate second.
 The state is that of one negotiation session: its contract, its database row, its settlements.
 Faults are an input: they say which of the steps outside the service's control fail.
 */
module SettlementService {
  import opened Wrappers
  import C = EscrowContract
  import opened EscrowAggregate

  datatype Settlement = Settlement(milestoneIndex: nat, amount: C.UInt64, tx: TxId)

  datatype Svc = Svc(chain: Option<C.State>, row: Option<Row>, settlements: seq<Settlement>)

  /**
   save: the first insert of a deploy; gateway: before the chain is reached; reply: the chain has
   acted, but its answer is lost or carries a malformed transaction id; anchor; persist: the last write.
   */
  datatype Faults = Faults(save: bool, gateway: bool, reply: bool, anchor: bool, persist: bool)

  /** Chain-assigned ids, the computed Merkle root and the clock come in as inputs. */
  datatype Op =
    | Deploy(appAddress: C.Address, appId: AppId, buyer: C.Address, seller: C.Address, price: int, tx: TxId)
    | Fund(funder: C.Address, tx: TxId)
    | Release(root: string, tx: TxId, now: int)
    | Refund(reason: string, tx: TxId, now: int)
    | Freeze
    | Unfreeze

  // ----- The effect of each use case -----------------------------------------------------------

  /** EscrowAmount must be positive; the column is a signed 64-bit integer. */
  predicate PriceOk(price: int) {
    0 < price < 0x8000_0000_0000_0000
  }

  /** The call the gateway sends for an operation on a deployed escrow. */
  function ChainCall(creator: C.Address, c: C.State, r: Row, op: Op): C.Call
    requires !op.Deploy?
  {
    match op
    case Fund(funder, _) => C.Fund(funder, c.self, r.amount)
    case Release(root, _, _) => C.Release(creator, root)
    case Refund(reason, _, _) => C.Refund(creator, reason)
    case Freeze => C.Freeze(creator)
    case Unfreeze => C.Unfreeze(creator)
  }

  predicate Accepts(creator: C.Address, s: Svc, op: Op)
    requires !op.Deploy?
  {
    && s.row.Some? && s.row.value.appId.Some? && s.chain.Some?
    && C.Exec(s.chain.value, ChainCall(creator, s.chain.value, s.row.value, op)).Some?
  }

  function RecordOf(op: Op): Record
    requires !op.Deploy?
  {
    match op
    case Fund(_, tx) => FundingRecord(tx)
    case Release(root, tx, now) => ReleaseRecord(tx, root, now)
    case Refund(_, tx, now) => RefundRecord(tx, now)
    case Freeze => FreezeRecord
    case Unfreeze => UnfreezeRecord
  }

  function PerformDeploy(creator: C.Address, s: Svc, op: Op, f: Faults): Svc
    requires op.Deploy?
  {
    if s.row.Some? || !PriceOk(op.price) || f.save then s
    else
      var created := Fresh(op.buyer, op.seller, op.price);
      if f.gateway then s.(row := Some(ToRow(created)))
      else
        var chain := C.Initial(creator, op.appAddress, op.buyer, op.seller, op.price);
        var recorded := RecordDeployment(created, op.appId, op.tx).value;
        Svc(Some(chain), Some(ToRow(if f.reply || f.persist then created else recorded)), s.settlements)
  }

  function PerformOther(creator: C.Address, s: Svc, op: Op, f: Faults): Svc
    requires !op.Deploy?
  {
    if s.row.None? || s.row.value.appId.None? || s.chain.None? || f.gateway then s
    else
      var call := ChainCall(creator, s.chain.value, s.row.value, op);
      var chain := C.Exec(s.chain.value, call);
      if chain.None? then s
      else
        var onChain := s.(chain := chain);
        if f.reply || (op.Release? && f.anchor) then onChain
        else
          var recorded := Apply(FromRow(s.row.value), RecordOf(op));
          if recorded.Err? || f.persist then onChain
          else Svc(chain, Some(ToRow(recorded.value)),
                   if op.Release? then s.settlements + [Settlement(0, s.row.value.amount, op.tx)] else s.settlements)
  }

  /** The call returns normally: the chain accepted, nothing failed, and the aggregate recorded. */
  predicate Completes(creator: C.Address, s: Svc, op: Op, f: Faults)
    requires !op.Deploy?
  {
    && !f.gateway && Accepts(creator, s, op)
    && !f.reply && !(op.Release? && f.anchor) && !f.persist
    && Apply(FromRow(s.row.value), RecordOf(op)).Ok?
  }

  function Perform(creator: C.Address, s: Svc, op: Op, f: Faults): Svc {
    if op.Deploy? then PerformDeploy(creator, s, op, f) else PerformOther(creator, s, op, f)
  }

  datatype Step = Step(op: Op, faults: Faults)

  function PerformAll(creator: C.Address, s: Svc, steps: seq<Step>): Svc
    decreases |steps|
  {
    if steps == [] then s
    else PerformAll(creator, Perform(creator, s, steps[0].op, steps[0].faults), steps[1..])
  }

  // ----- The service object --------------------------------------------------------------------

  class Service {
    const creator: C.Address
    var contract: C.CadenciaEscrow?
    var row: Option<Row>
    var settlements: seq<Settlement>

    function Snapshot(): Svc
      reads this, contract
    {
      Svc(if contract == null then None else Some(contract.Snapshot()), row, settlements)
    }

    constructor (creator: C.Address)
      ensures Snapshot() == Svc(None, None, []) && this.creator == creator && contract == null
    {
      this.creator := creator;
      contract, row, settlements := null, None, [];
    }

    method DeployEscrow(op: Op, f: Faults) returns (error: Option<Error>)
      requires op.Deploy?
      modifies this
      ensures Snapshot() == Perform(creator, old(Snapshot()), op, f)
      ensures contract == old(contract) || fresh(contract)
      ensures error == None <==> old(row).Some? || (PriceOk(op.price) && !f.save && !f.gateway && !f.reply && !f.persist)
    {
      if row.Some? { return None; }
      if op.price <= 0 { return Some(ValidationError); }
      if f.save || op.price >= 0x8000_0000_0000_0000 { return Some(StorageError); }
      var escrow := new Escrow(Fresh(op.buyer, op.seller, op.price));
      row := Some(ToRow(escrow.Snapshot()));
      if f.gateway { return Some(GatewayError); }
      contract := new C.CadenciaEscrow.Initialize(creator, op.appAddress, op.buyer, op.seller, op.price);
      if f.reply { return Some(GatewayError); }
      error := escrow.Deployment(op.appId, op.tx);
      if f.persist { return Some(StorageError); }
      row := Some(ToRow(escrow.Snapshot()));
    }

    /** Load the aggregate; fails when there is no row, or no contract to talk to. */
    method Load(f: Faults) returns (escrow: Escrow?, error: Option<Error>)
      ensures escrow != null ==> fresh(escrow)
      ensures escrow != null <==> row.Some? && row.value.appId.Some? && contract != null && !f.gateway
      ensures escrow != null ==> escrow.Snapshot() == FromRow(row.value)
      ensures escrow != null <==> error == None
    {
      if row.None? { return null, Some(NotFoundError); }
      var loaded := new Escrow(FromRow(row.value));
      if loaded.appId.None? { return null, Some(PolicyViolation); }
      if contract == null || f.gateway { return null, Some(GatewayError); }
      return loaded, None;
    }

    method FundEscrow(op: Op, f: Faults) returns (error: Option<Error>)
      requires op.Fund?
      modifies this, contract
      ensures Snapshot() == Perform(creator, old(Snapshot()), op, f) && contract == old(contract)
      ensures error == None <==> Completes(creator, old(Snapshot()), op, f)
    {
      var escrow, failed := Load(f);
      if escrow == null { return failed; }
      var ok := contract.Fund(op.funder, contract.self, escrow.amount);
      if !ok || f.reply { return Some(GatewayError); }
      error := escrow.Funding(op.tx);
      if error.Some? { return; }
      if f.persist { return Some(StorageError); }
      row := Some(ToRow(escrow.Snapshot()));
    }

    method ReleaseEscrow(op: Op, f: Faults) returns (error: Option<Error>)
      requires op.Release?
      modifies this, contract
      ensures Snapshot() == Perform(creator, old(Snapshot()), op, f) && contract == old(contract)
      ensures error == None <==> Completes(creator, old(Snapshot()), op, f)
    {
      var escrow, failed := Load(f);
      if escrow == null { return failed; }
      var ok := contract.Release(creator, op.root);
      if !ok || f.reply { return Some(GatewayError); }
      if f.anchor { return Some(AnchorError); }
      error := escrow.Release(op.tx, op.root, op.now);
      if error.Some? { return; }
      var settlement := Settlement(0, escrow.amount, op.tx);
      if f.persist { return Some(StorageError); }
      row := Some(ToRow(escrow.Snapshot()));
      settlements := settlements + [settlement];
    }

    method RefundEscrow(op: Op, f: Faults) returns (error: Option<Error>)
      requires op.Refund?
      modifies this, contract
      ensures Snapshot() == Perform(creator, old(Snapshot()), op, f) && contract == old(contract)
      ensures error == None <==> Completes(creator, old(Snapshot()), op, f)
    {
      var escrow, failed := Load(f);
      if escrow == null { return failed; }
      var ok := contract.Refund(creator, op.reason);
      if !ok || f.reply { return Some(GatewayError); }
      error := escrow.Refund(op.tx, op.now);
      if error.Some? { return; }
      if f.persist { return Some(StorageError); }
      row := Some(ToRow(escrow.Snapshot()));
    }

    method FreezeEscrow(f: Faults) returns (error: Option<Error>)
      modifies this, contract
      ensures Snapshot() == Perform(creator, old(Snapshot()), Op.Freeze, f) && contract == old(contract)
      ensures error == None <==> Completes(creator, old(Snapshot()), Op.Freeze, f)
    {
      var escrow, failed := Load(f);
      if escrow == null { return failed; }
      var ok := contract.Freeze(creator);
      if !ok || f.reply { return Some(GatewayError); }
      error := escrow.Freeze();
      if error.Some? { return; }
      if f.persist { return Some(StorageError); }
      row := Some(ToRow(escrow.Snapshot()));
    }

    method UnfreezeEscrow(f: Faults) returns (error: Option<Error>)
      modifies this, contract
      ensures Snapshot() == Perform(creator, old(Snapshot()), Op.Unfreeze, f) && contract == old(contract)
      ensures error == None <==> Completes(creator, old(Snapshot()), Op.Unfreeze, f)
    {
      var escrow, failed := Load(f);
      if escrow == null { return failed; }
      var ok := contract.Unfreeze(creator);
      if !ok || f.reply { return Some(GatewayError); }
      error := escrow.Unfreeze();
      if error.Some? { return; }
      if f.persist { return Some(StorageError); }
      row := Some(ToRow(escrow.Snapshot()));
    }
  }

  // ----- The simulation relation ---------------------------------------------------------------

  /** What the aggregate still knows about the contract. FUNDED need not mean funded on chain. */
  ghost predicate Mirrors(c: C.State, a: EscrowState) {
    && (c.status == C.RELEASED <==> a.status == Released)
    && (c.status == C.REFUNDED <==> a.status == Refunded)
    && (c.status == C.DEPLOYED || c.status == C.FUNDED ==> (c.frozen == 1 <==> a.frozen))
    && (c.status == C.FUNDED ==> a.status == Funded || a.status == Frozen)
    && Coherent(a)
  }

  ghost predicate Sim(creator: C.Address, s: Svc) {
    match s.row
    case None => s.chain.None? && s.settlements == []
    case Some(r) =>
      match s.chain
      case None => r.appId.None? && r.status.DbDeployed? && !r.isFrozen && s.settlements == []
      case Some(c) =>
        && r.appId.Some?
        && C.Balanced(c) && c.creator == creator && c.amount == r.amount
        && Mirrors(c, FromRow(r))
        && (if c.status == C.RELEASED then r.releaseTx.Some? && s.settlements == [Settlement(0, c.amount, r.releaseTx.value)]
            else s.settlements == [])
  }

  /** The chain accepts the operation and the aggregate would record it, but the record gets lost. */
  ghost predicate RecordLost(creator: C.Address, s: Svc, op: Op, f: Faults) {
    if op.Deploy? then
      s.row.None? && PriceOk(op.price) && !f.save && !f.gateway && (f.reply || f.persist)
    else
      && !f.gateway && Accepts(creator, s, op)
      && Apply(FromRow(s.row.value), RecordOf(op)).Ok?
      && (f.reply || f.persist || (op.Release? && f.anchor))
  }

  /**
   One service call keeps the simulation exactly when it does not lose a record the aggregate would
   have taken; so with the gateway's answers, anchoring and the database working it always does.
   Records the aggregate refuses are another matter: see RefusedRecordExact.
   */
  lemma StepKeepsSimIff(creator: C.Address, s: Svc, op: Op, f: Faults)
    requires Sim(creator, s)
    ensures Sim(creator, Perform(creator, s, op, f)) <==> !RecordLost(creator, s, op, f)
  {
    if !op.Deploy? {
      OtherKeepsSimIff(creator, s, op, f);
    }
  }

  lemma OtherKeepsSimIff(creator: C.Address, s: Svc, op: Op, f: Faults)
    requires Sim(creator, s) && !op.Deploy?
    ensures Sim(creator, Perform(creator, s, op, f)) <==> !RecordLost(creator, s, op, f)
  {
    if !f.gateway && Accepts(creator, s, op) {
      ReloadAfterRecord(s.row.value, op);
      if f.reply || f.persist || (op.Release? && f.anchor) {
        ChainMovedAlone(creator, s, op, f);
      } else {
        BothMoved(creator, s, op, f);
      }
    }
  }

  /** The record is not written: the simulation survives only if the aggregate would have refused it. */
  lemma ChainMovedAlone(creator: C.Address, s: Svc, op: Op, f: Faults)
    requires Sim(creator, s) && !op.Deploy? && !f.gateway && Accepts(creator, s, op)
    requires f.reply || f.persist || (op.Release? && f.anchor)
    ensures Sim(creator, Perform(creator, s, op, f)) <==> Apply(FromRow(s.row.value), RecordOf(op)).Err?
  {
  }

  lemma BothMoved(creator: C.Address, s: Svc, op: Op, f: Faults)
    requires Sim(creator, s) && !op.Deploy? && !f.gateway && Accepts(creator, s, op)
    requires !f.reply && !f.persist && !(op.Release? && f.anchor)
    ensures Sim(creator, Perform(creator, s, op, f))
  {
    ReloadAfterRecord(s.row.value, op);
  }

  lemma ReloadAfterRecord(r: Row, op: Op)
    requires !op.Deploy?
    ensures var a := Apply(FromRow(r), RecordOf(op));
            a.Ok? ==> Coherent(a.value) && FromRow(ToRow(a.value)) == a.value.(settledAt := None)
  {
    var a := Apply(FromRow(r), RecordOf(op));
    if a.Ok? {
      RecordsStayCoherent(FromRow(r), RecordOf(op));
    }
  }

  ghost predicate Reliable(steps: seq<Step>) {
    forall i :: 0 <= i < |steps| ==>
      !steps[i].faults.reply && !steps[i].faults.anchor && !steps[i].faults.persist
  }

  /** Every run of service calls in which answers, anchoring and the last write work keeps the simulation. */
  lemma {:induction false} RunKeepsSim(creator: C.Address, s: Svc, steps: seq<Step>)
    requires Sim(creator, s) && Reliable(steps)
    ensures Sim(creator, PerformAll(creator, s, steps))
    decreases |steps|
  {
    if steps != [] {
      StepKeepsSimIff(creator, s, steps[0].op, steps[0].faults);
      RunKeepsSim(creator, Perform(creator, s, steps[0].op, steps[0].faults), steps[1..]);
    }
  }

  /**
   After every such run from nothing: settlements hold one record of the full amount exactly when
   the contract is RELEASED, and a release or refund the chain accepts cannot fail to be recorded.
   */
  lemma SettlementsMatchChain(creator: C.Address, steps: seq<Step>)
    requires Reliable(steps)
    ensures var s := PerformAll(creator, Svc(None, None, []), steps);
            && (s.chain.Some? && s.chain.value.status == C.RELEASED <==> s.settlements != [])
            && (s.settlements != [] ==> |s.settlements| == 1 && s.settlements[0].amount == s.chain.value.amount)
            && (s.chain.Some? ==> s.row.Some?)
            && (forall op: Op :: s.chain.Some? && (op.Release? || op.Refund?) && Accepts(creator, s, op) ==>
                  Apply(FromRow(s.row.value), RecordOf(op)).Ok?)
  {
    RunKeepsSim(creator, Svc(None, None, []), steps);
  }

  // ----- What is stored is what was ordered ---------------------------------------------------------

  /** Whatever fails, the row and the contract name the same parties and amount, and the contract obeys the service. */
  ghost predicate PartiesAgree(creator: C.Address, s: Svc) {
    s.chain.Some? ==>
      var c := s.chain.value;
      && s.row.Some? && s.row.value.buyer == c.buyer && s.row.value.seller == c.seller
      && s.row.value.amount == c.amount && c.creator == creator
  }

  lemma StepKeepsParties(creator: C.Address, s: Svc, op: Op, f: Faults)
    requires PartiesAgree(creator, s)
    ensures PartiesAgree(creator, Perform(creator, s, op, f))
  {
  }

  /** Over every run of service calls, with any faults. */
  lemma {:induction false} PartiesAlwaysAgree(creator: C.Address, s: Svc, steps: seq<Step>)
    requires PartiesAgree(creator, s)
    ensures PartiesAgree(creator, PerformAll(creator, s, steps))
    decreases |steps|
  {
    if steps != [] {
      StepKeepsParties(creator, s, steps[0].op, steps[0].faults);
      PartiesAlwaysAgree(creator, Perform(creator, s, steps[0].op, steps[0].faults), steps[1..]);
    }
  }

  /**
   A first deployment: with a valid price and a row that can be saved the row names the buyer, the
   seller and the price of the order, whatever fails later; the contract, if the gateway call gets
   through, names the same; the application and the transaction are recorded unless a later step fails.
   */
  lemma DeployExact(creator: C.Address, deploy: Op, f: Faults)
    requires deploy.Deploy?
    ensures var s := Perform(creator, Svc(None, None, []), deploy, f);
            var saved := 0 < deploy.price < 0x8000_0000_0000_0000 && !f.save;
            var recorded := saved && !f.gateway && !f.reply && !f.persist;
            && (s.row.Some? <==> saved)
            && (saved ==>
                  && s.row.value.buyer == deploy.buyer && s.row.value.seller == deploy.seller && s.row.value.amount == deploy.price
                  && s.row.value.status == DbDeployed && !s.row.value.isFrozen
                  && s.row.value.appId == (if recorded then Some(deploy.appId) else None)
                  && s.row.value.deployTx == (if recorded then Some(deploy.tx) else None)
                  && s.row.value.fundTx == None && s.row.value.releaseTx == None && s.row.value.refundTx == None
                  && s.row.value.merkleRoot == None)
            && (s.chain.Some? <==> saved && !f.gateway)
            && (s.chain.Some? ==>
                  && s.chain.value.creator == creator && s.chain.value.self == deploy.appAddress
                  && s.chain.value.buyer == deploy.buyer && s.chain.value.seller == deploy.seller
                  && s.chain.value.amount == deploy.price
                  && s.chain.value.status == 0 && s.chain.value.frozen == 0 && s.chain.value.held == 0)
            && s.settlements == []
  {
  }

  /** A deployment over an existing row changes nothing. */
  lemma SecondDeployIgnored(creator: C.Address, s: Svc, deploy: Op, f: Faults)
    requires deploy.Deploy? && s.row.Some?
    ensures Perform(creator, s, deploy, f) == s
  {
  }

  /** The row after a call that returned normally: its transaction, and on a release its root, and nothing else of note. */
  function Stored(r: Row, op: Op): Row
    requires !op.Deploy?
  {
    match op
    case Fund(_, tx) => r.(status := DbFunded, fundTx := Some(tx))
    case Release(root, tx, _) => r.(status := DbReleased, releaseTx := Some(tx), merkleRoot := Some(root))
    case Refund(_, tx, _) => r.(status := DbRefunded, isFrozen := false, refundTx := Some(tx))
    case Freeze => r.(status := DbFunded, isFrozen := true)
    case Unfreeze => r.(status := DbFunded, isFrozen := false)
  }

  /**
   Any other call: the chain executes what it accepts, in the service's name, for the row's amount
   and with the given root or reason; the row and the settlements change exactly on a normal return.
   */
  lemma CallExact(creator: C.Address, s: Svc, op: Op, f: Faults)
    requires !op.Deploy? && s.row.Some?
    ensures var s' := Perform(creator, s, op, f);
            && s'.row == Some(if Completes(creator, s, op, f) then Stored(s.row.value, op) else s.row.value)
            && s'.settlements == s.settlements +
                 (if Completes(creator, s, op, f) && op.Release? then [Settlement(0, s.row.value.amount, op.tx)] else [])
            && (s'.chain != s.chain ==> !f.gateway && Accepts(creator, s, op))
            && (!f.gateway && Accepts(creator, s, op) ==>
                  s'.chain == C.Exec(s.chain.value,
                    match op
                    case Fund(funder, _) => C.Fund(funder, s.chain.value.self, s.row.value.amount)
                    case Release(root, _, _) => C.Release(creator, root)
                    case Refund(reason, _, _) => C.Refund(creator, reason)
                    case Freeze => C.Freeze(creator)
                    case Unfreeze => C.Unfreeze(creator)))
  {
    if s.row.value.appId.Some? && s.chain.Some? && !f.gateway && Accepts(creator, s, op) {
      StoredIsRow(s.row.value, op);
    }
  }

  lemma StoredIsRow(r: Row, op: Op)
    requires !op.Deploy?
    ensures Apply(FromRow(r), RecordOf(op)).Ok? ==> ToRow(Apply(FromRow(r), RecordOf(op)).value) == Stored(r, op)
  {
  }

  /** Which calls of a run returned normally, in order. */
  function Returned(creator: C.Address, s: Svc, steps: seq<Step>): seq<Op>
    decreases |steps|
  {
    if steps == [] then []
    else
      var op, f := steps[0].op, steps[0].faults;
      (if !op.Deploy? && Completes(creator, s, op, f) then [op] else [])
      + Returned(creator, Perform(creator, s, op, f), steps[1..])
  }

  function StoredAll(r: Row, ops: seq<Op>): Row
    requires forall i :: 0 <= i < |ops| ==> !ops[i].Deploy?
    decreases |ops|
  {
    if ops == [] then r else StoredAll(Stored(r, ops[0]), ops[1..])
  }

  /**
   Over every run with any faults the row is what it was, with the transactions and the root of
   exactly the calls that returned normally; so no id is recorded for a call that raised.
   */
  lemma {:induction false} RowTellsReturned(creator: C.Address, s: Svc, steps: seq<Step>)
    requires s.row.Some?
    ensures forall i :: 0 <= i < |Returned(creator, s, steps)| ==> !Returned(creator, s, steps)[i].Deploy?
    ensures PerformAll(creator, s, steps).row == Some(StoredAll(s.row.value, Returned(creator, s, steps)))
    decreases |steps|
  {
    if steps != [] {
      var op, f := steps[0].op, steps[0].faults;
      var s' := Perform(creator, s, op, f);
      if op.Deploy? {
        SecondDeployIgnored(creator, s, op, f);
      } else {
        CallExact(creator, s, op, f);
      }
      RowTellsReturned(creator, s', steps[1..]);
      var rest := Returned(creator, s', steps[1..]);
      assert ([op] + rest)[1..] == rest && [] + rest == rest;
    }
  }

  /** A recorded root is the one the seller was paid with. */
  ghost predicate RootPaid(s: Svc) {
    s.row.Some? && s.row.value.merkleRoot.Some? ==>
      && s.chain.Some? && s.chain.value.status == C.RELEASED && s.chain.value.payouts != []
      && s.chain.value.payouts[|s.chain.value.payouts| - 1].note == s.row.value.merkleRoot.value
  }

  lemma StepKeepsRoot(creator: C.Address, s: Svc, op: Op, f: Faults)
    requires RootPaid(s) && (s.chain.Some? ==> s.row.Some?)
    ensures RootPaid(Perform(creator, s, op, f)) && (Perform(creator, s, op, f).chain.Some? ==> Perform(creator, s, op, f).row.Some?)
  {
    if op.Deploy? {
      if s.row.Some? { SecondDeployIgnored(creator, s, op, f); }
    } else if s.row.Some? {
      CallExact(creator, s, op, f);
    }
  }

  lemma {:induction false} RecordedRootIsPaid(creator: C.Address, s: Svc, steps: seq<Step>)
    requires RootPaid(s) && (s.chain.Some? ==> s.row.Some?)
    ensures RootPaid(PerformAll(creator, s, steps))
    decreases |steps|
  {
    if steps != [] {
      StepKeepsRoot(creator, s, steps[0].op, steps[0].faults);
      RecordedRootIsPaid(creator, Perform(creator, s, steps[0].op, steps[0].faults), steps[1..]);
    }
  }

  // ----- Where chain and aggregate part ----------------------------------------------------------

  /** Which operations the aggregate would record although the contract refuses them. */
  lemma GuardsCompared(creator: C.Address, s: Svc, op: Op)
    requires Sim(creator, s) && s.chain.Some? && (op.Release? || op.Refund?)
    ensures var c, a := s.chain.value, FromRow(s.row.value);
            Apply(a, RecordOf(op)).Ok? <==>
            || Accepts(creator, s, op)
            || (c.status == C.DEPLOYED && a.status == Funded)
            || (op.Refund? && a.status == Frozen)
  {
  }

  /**
   Which operations the contract accepts although the aggregate then refuses to record them:
   funding once the aggregate has left DEPLOYED, freezing what it holds for frozen or settled,
   and thawing what it holds for settled; never a release or a refund.
   */
  lemma RefusedRecordExact(creator: C.Address, s: Svc, op: Op)
    requires Sim(creator, s) && !op.Deploy? && Accepts(creator, s, op)
    ensures var a := FromRow(s.row.value);
            Apply(a, RecordOf(op)).Err? <==>
            match op
            case Fund(_, _) => a.status != Deployed
            case Freeze => a.status == Frozen || a.status == Released || a.status == Refunded
            case Unfreeze => a.status == Released || a.status == Refunded
            case _ => false
  {
  }

  /** An accepted call returns normally if and only if the aggregate takes the record and no later step fails. */
  lemma AcceptedCompletesIff(creator: C.Address, s: Svc, op: Op, f: Faults)
    requires Sim(creator, s) && !op.Deploy? && Accepts(creator, s, op) && !f.gateway
    ensures Completes(creator, s, op, f) <==>
              && !f.reply && !f.persist && !(op.Release? && f.anchor)
              && match op
                 case Fund(_, _) => s.row.value.status.DbDeployed? && !s.row.value.isFrozen
                 case Freeze => !s.row.value.isFrozen && (s.row.value.status.DbDeployed? || s.row.value.status.DbFunded?)
                 case Unfreeze => s.row.value.isFrozen
                 case _ => true
  {
    RefusedRecordExact(creator, s, op);
  }

  /** The aggregate has left DEPLOYED without a funding transaction. */
  ghost predicate FundingMissed(s: Svc) {
    s.row.Some? && s.row.value.appId.Some? && !s.row.value.status.DbDeployed? && s.row.value.fundTx.None?
  }

  /** From there on no funding is ever recorded, even if the contract takes the money. */
  lemma {:induction false} MissedFundingNeverRecorded(creator: C.Address, s: Svc, steps: seq<Step>)
    requires FundingMissed(s)
    ensures FundingMissed(PerformAll(creator, s, steps))
    decreases |steps|
  {
    if steps != [] {
      MissedFundingNeverRecorded(creator, Perform(creator, s, steps[0].op, steps[0].faults), steps[1..]);
    }
  }

  const NO_FAULTS := Faults(false, false, false, false, false)

  /** Freezing and thawing before the buyer has paid: the aggregate is FUNDED, the contract still DEPLOYED. */
  function Thawed(creator: C.Address, deploy: Op): Svc {
    PerformAll(creator, Svc(None, None, []), [Step(deploy, NO_FAULTS), Step(Freeze, NO_FAULTS), Step(Unfreeze, NO_FAULTS)])
  }

  lemma ThawedExact(creator: C.Address, deploy: Op)
    requires deploy.Deploy? && PriceOk(deploy.price)
    ensures var s := Thawed(creator, deploy);
            && Sim(creator, s) && s.chain == Some(C.Initial(creator, deploy.appAddress, deploy.buyer, deploy.seller, deploy.price))
            && s.row.Some? && s.row.value.appId.Some? && s.row.value.amount == deploy.price
            && s.row.value.status.DbFunded? && !s.row.value.isFrozen && s.row.value.fundTx.None?
  {
    var none := Svc(None, None, []);
    var path := [Step(deploy, NO_FAULTS), Step(Freeze, NO_FAULTS), Step(Unfreeze, NO_FAULTS)];
    ThreeSteps(creator, none, path);
    RunKeepsSim(creator, none, path);
  }

  /**
   The first deploy, freeze, thaw and fund of any escrow end with the buyer's money in the contract,
   an error for the caller and no funding transaction, then or ever.
   */
  lemma ThawLosesFunding(creator: C.Address, deploy: Op, funder: C.Address, tx: TxId, steps: seq<Step>)
    requires deploy.Deploy? && PriceOk(deploy.price)
    ensures var s := Thawed(creator, deploy); var fund := Fund(funder, tx);
            var paid := Perform(creator, s, fund, NO_FAULTS);
            && Sim(creator, s) && s.chain.Some? && s.row.Some?
            && s.chain.value.status == C.DEPLOYED && FromRow(s.row.value).status == Funded
            && Accepts(creator, s, fund) && !Completes(creator, s, fund, NO_FAULTS)
            && Sim(creator, paid) && paid.chain.Some? && paid.chain.value.held == deploy.price
            && FundingMissed(PerformAll(creator, paid, steps))
  {
    var s := Thawed(creator, deploy);
    ThawedExact(creator, deploy);
    StepKeepsSimIff(creator, s, Fund(funder, tx), NO_FAULTS);
    MissedFundingNeverRecorded(creator, Perform(creator, s, Fund(funder, tx), NO_FAULTS), steps);
  }

  lemma TwoSteps(creator: C.Address, s: Svc, steps: seq<Step>)
    requires |steps| == 2
    ensures PerformAll(creator, s, steps) ==
            Perform(creator, Perform(creator, s, steps[0].op, steps[0].faults), steps[1].op, steps[1].faults)
  {
    var rest := steps[1..];
    assert rest[1..] == [];
    assert PerformAll(creator, Perform(creator, s, steps[0].op, steps[0].faults), rest) ==
           PerformAll(creator, Perform(creator, Perform(creator, s, steps[0].op, steps[0].faults),
                                       rest[0].op, rest[0].faults), []);
  }

  lemma ThreeSteps(creator: C.Address, s: Svc, steps: seq<Step>)
    requires |steps| == 3
    ensures var s1 := Perform(creator, s, steps[0].op, steps[0].faults);
            var s2 := Perform(creator, s1, steps[1].op, steps[1].faults);
            PerformAll(creator, s, steps) == Perform(creator, s2, steps[2].op, steps[2].faults)
  {
    TwoSteps(creator, Perform(creator, s, steps[0].op, steps[0].faults), steps[1..]);
  }

  /** A row without an application id is never changed by the service, whatever the chain holds. */
  lemma {:induction false} FailedDeployIsStuck(creator: C.Address, s: Svc, steps: seq<Step>)
    requires s.row.Some? && s.row.value.appId.None?
    ensures PerformAll(creator, s, steps) == s
    decreases |steps|
  {
    if steps != [] {
      FailedDeployIsStuck(creator, Perform(creator, s, steps[0].op, steps[0].faults), steps[1..]);
    }
  }

  /**
   A first deployment can never be repaired through the service exactly when its row is saved and
   the gateway call, its answer, or the last write then fails; after the latter two a live
   contract is left to which no row points.
   */
  lemma FirstDeployStrandedIff(creator: C.Address, deploy: Op, f: Faults)
    requires deploy.Deploy? && PriceOk(deploy.price)
    ensures var s := Perform(creator, Svc(None, None, []), deploy, f);
            && ((forall steps :: PerformAll(creator, s, steps) == s) <==> !f.save && (f.gateway || f.reply || f.persist))
            && (s.chain.Some? <==> !f.save && !f.gateway)
            && (s.row.Some? && s.row.value.appId.None? <==> !f.save && (f.gateway || f.reply || f.persist))
  {
    var s := Perform(creator, Svc(None, None, []), deploy, f);
    if !f.save && (f.gateway || f.reply || f.persist) {
      forall steps ensures PerformAll(creator, s, steps) == s {
        FailedDeployIsStuck(creator, s, steps);
      }
    } else {
      OneStepMoves(creator, s, if f.save then deploy else Freeze);
    }
  }

  lemma OneStepMoves(creator: C.Address, s: Svc, op: Op)
    requires Perform(creator, s, op, NO_FAULTS) != s
    ensures PerformAll(creator, s, [Step(op, NO_FAULTS)]) != s
  {
    var steps := [Step(op, NO_FAULTS)];
    assert steps[1..] == [];
    assert PerformAll(creator, s, steps) == PerformAll(creator, Perform(creator, s, op, NO_FAULTS), []);
  }

  /** The seller is paid, but the aggregate is still unsettled. */
  ghost predicate PaidButUnsettled(s: Svc) {
    && s.chain.Some? && s.chain.value.status == C.RELEASED
    && s.row.Some? && s.row.value.appId.Some? && s.row.value.status.DbFunded?
    && s.settlements == []
  }

  /** A release that is lost after the chain accepted it is never caught up with by any later call. */
  lemma LostReleaseNeverRecovers(creator: C.Address, s: Svc, op: Op, f: Faults, steps: seq<Step>)
    requires Sim(creator, s) && op.Release? && RecordLost(creator, s, op, f)
    ensures PaidButUnsettled(PerformAll(creator, Perform(creator, s, op, f), steps))
  {
    StaysUnsettled(creator, Perform(creator, s, op, f), steps);
  }

  /**
   A release the contract accepts leaves a paid seller and an unsettled aggregate for good exactly
   when the answer, anchoring or the last write fails.
   */
  lemma ReleaseLostIff(creator: C.Address, s: Svc, op: Op, f: Faults)
    requires Sim(creator, s) && op.Release? && Accepts(creator, s, op) && !f.gateway
    ensures (forall steps :: PaidButUnsettled(PerformAll(creator, Perform(creator, s, op, f), steps)))
            <==> f.reply || f.anchor || f.persist
  {
    RefusedRecordExact(creator, s, op);
    var after := Perform(creator, s, op, f);
    if f.reply || f.anchor || f.persist {
      forall steps ensures PaidButUnsettled(PerformAll(creator, after, steps)) {
        LostReleaseNeverRecovers(creator, s, op, f, steps);
      }
    } else {
      BothMoved(creator, s, op, f);
      var none: seq<Step> := [];
      assert PerformAll(creator, after, none) == after;
      assert !PaidButUnsettled(PerformAll(creator, after, none));
    }
  }

  /** Such a release exists: deploy, fund, then release while anchoring is down. */
  lemma ReleaseCanBeLost(creator: C.Address, deploy: Op, funder: C.Address, tx: TxId, root: string, now: int)
    requires deploy.Deploy? && PriceOk(deploy.price)
    ensures var s := PerformAll(creator, Svc(None, None, []),
                                [Step(deploy, NO_FAULTS), Step(Fund(funder, tx), NO_FAULTS)]);
            Sim(creator, s) && RecordLost(creator, s, Release(root, tx, now), NO_FAULTS.(anchor := true))
  {
    var none := Svc(None, None, []);
    var path := [Step(deploy, NO_FAULTS), Step(Fund(funder, tx), NO_FAULTS)];
    RunKeepsSim(creator, none, path);
    TwoSteps(creator, none, path);
  }

  lemma {:induction false} StaysUnsettled(creator: C.Address, s: Svc, steps: seq<Step>)
    requires PaidButUnsettled(s)
    ensures PaidButUnsettled(PerformAll(creator, s, steps))
    decreases |steps|
  {
    if steps != [] {
      StaysUnsettled(creator, Perform(creator, s, steps[0].op, steps[0].faults), steps[1..]);
    }
  }
}
