/** The settlement service's own picture of an escrow: the Escrow aggregate and its database row. */
module EscrowAggregate {
  import opened Wrappers
  import opened EscrowContract

  datatype EscrowStatus = Deployed | Funded | Released | Refunded | Frozen

  datatype Error = ConflictError | PolicyViolation | NotFoundError | ValidationError | GatewayError | AnchorError | StorageError

  type TxId = string
  type AppId = n: nat | 0 < n witness 1

  datatype EscrowState = EscrowState(
    buyer: Address,
    seller: Address,
    amount: UInt64,
    appId: Option<AppId>,
    status: EscrowStatus,
    frozen: bool,
    deployTx: Option<TxId>,
    fundTx: Option<TxId>,
    releaseTx: Option<TxId>,
    refundTx: Option<TxId>,
    merkleRoot: Option<string>,
    settledAt: Option<int>)

  function Fresh(buyer: Address, seller: Address, amount: UInt64): EscrowState {
    EscrowState(buyer, seller, amount, None, Deployed, false, None, None, None, None, None, None)
  }

  // ----- What each lifecycle method does -------------------------------------------------------

  function RecordDeployment(s: EscrowState, appId: AppId, tx: TxId): Result<EscrowState, Error> {
    if s.appId.Some? then Err(ConflictError)
    else Ok(s.(appId := Some(appId), deployTx := Some(tx)))
  }

  function RecordFunding(s: EscrowState, tx: TxId): Result<EscrowState, Error> {
    if s.frozen then Err(PolicyViolation)
    else if s.status != Deployed then Err(ConflictError)
    else Ok(s.(status := Funded, fundTx := Some(tx)))
  }

  function RecordRelease(s: EscrowState, tx: TxId, root: string, now: int): Result<EscrowState, Error> {
    if s.frozen then Err(PolicyViolation)
    else if s.status != Funded then Err(ConflictError)
    else Ok(s.(status := Released, releaseTx := Some(tx), merkleRoot := Some(root), settledAt := Some(now)))
  }

  /** Unlike the contract, the aggregate lets a frozen escrow be refunded. */
  function RecordRefund(s: EscrowState, tx: TxId, now: int): Result<EscrowState, Error> {
    if s.status != Funded && s.status != Frozen then Err(ConflictError)
    else Ok(s.(status := Refunded, frozen := false, refundTx := Some(tx), settledAt := Some(now)))
  }

  function RecordFreeze(s: EscrowState): Result<EscrowState, Error> {
    if s.status == Released || s.status == Refunded || s.frozen then Err(ConflictError)
    else Ok(s.(frozen := true, status := Frozen))
  }

  /** Always restores FUNDED, even if nothing was ever funded. */
  function RecordUnfreeze(s: EscrowState): Result<EscrowState, Error> {
    if !s.frozen then Err(ConflictError)
    else Ok(s.(frozen := false, status := Funded))
  }

  // ----- The aggregate object ------------------------------------------------------------------

  class Escrow {
    const buyer: Address
    const seller: Address
    const amount: UInt64
    var appId: Option<AppId>
    var status: EscrowStatus
    var frozen: bool
    var deployTx: Option<TxId>
    var fundTx: Option<TxId>
    var releaseTx: Option<TxId>
    var refundTx: Option<TxId>
    var merkleRoot: Option<string>
    var settledAt: Option<int>

    function Snapshot(): EscrowState
      reads this
    {
      EscrowState(buyer, seller, amount, appId, status, frozen, deployTx, fundTx, releaseTx, refundTx, merkleRoot, settledAt)
    }

    ghost predicate Follows(before: EscrowState, step: Result<EscrowState, Error>, error: Option<Error>)
      reads this
    {
      match step
      case Ok(s') => Snapshot() == s' && error == None
      case Err(e) => Snapshot() == before && error == Some(e)
    }

    constructor (s: EscrowState)
      ensures Snapshot() == s
    {
      buyer, seller, amount, appId := s.buyer, s.seller, s.amount, s.appId;
      status, frozen := s.status, s.frozen;
      deployTx, fundTx, releaseTx, refundTx := s.deployTx, s.fundTx, s.releaseTx, s.refundTx;
      merkleRoot, settledAt := s.merkleRoot, s.settledAt;
    }

    method Deployment(app: AppId, tx: TxId) returns (error: Option<Error>)
      modifies this
      ensures Follows(old(Snapshot()), RecordDeployment(old(Snapshot()), app, tx), error)
    {
      if appId.Some? { return Some(ConflictError); }
      appId := Some(app);
      deployTx := Some(tx);
      return None;
    }

    method Funding(tx: TxId) returns (error: Option<Error>)
      modifies this
      ensures Follows(old(Snapshot()), RecordFunding(old(Snapshot()), tx), error)
    {
      if frozen { return Some(PolicyViolation); }
      if status != Deployed { return Some(ConflictError); }
      status := Funded;
      fundTx := Some(tx);
      return None;
    }

    method Release(tx: TxId, root: string, now: int) returns (error: Option<Error>)
      modifies this
      ensures Follows(old(Snapshot()), RecordRelease(old(Snapshot()), tx, root, now), error)
    {
      if frozen { return Some(PolicyViolation); }
      if status != Funded { return Some(ConflictError); }
      status := Released;
      releaseTx := Some(tx);
      merkleRoot := Some(root);
      settledAt := Some(now);
      return None;
    }

    method Refund(tx: TxId, now: int) returns (error: Option<Error>)
      modifies this
      ensures Follows(old(Snapshot()), RecordRefund(old(Snapshot()), tx, now), error)
    {
      if status != Funded && status != Frozen { return Some(ConflictError); }
      status := Refunded;
      frozen := false;
      refundTx := Some(tx);
      settledAt := Some(now);
      return None;
    }

    method Freeze() returns (error: Option<Error>)
      modifies this
      ensures Follows(old(Snapshot()), RecordFreeze(old(Snapshot())), error)
    {
      if status == Released || status == Refunded { return Some(ConflictError); }
      if frozen { return Some(ConflictError); }
      frozen := true;
      status := Frozen;
      return None;
    }

    method Unfreeze() returns (error: Option<Error>)
      modifies this
      ensures Follows(old(Snapshot()), RecordUnfreeze(old(Snapshot())), error)
    {
      if !frozen { return Some(ConflictError); }
      frozen := false;
      status := Funded;
      return None;
    }
  }

  // ----- The database row ----------------------------------------------------------------------

  datatype DbStatus = DbDeployed | DbFunded | DbReleased | DbRefunded

  /** The table has no FROZEN status and no settlement time. */
  datatype Row = Row(
    buyer: Address,
    seller: Address,
    amount: UInt64,
    appId: Option<AppId>,
    status: DbStatus,
    isFrozen: bool,
    deployTx: Option<TxId>,
    fundTx: Option<TxId>,
    releaseTx: Option<TxId>,
    refundTx: Option<TxId>,
    merkleRoot: Option<string>)

  function ToRow(s: EscrowState): Row {
    var dbStatus := match s.status
                    case Deployed => DbDeployed
                    case Funded => DbFunded
                    case Released => DbReleased
                    case Refunded => DbRefunded
                    case Frozen => DbFunded;
    Row(s.buyer, s.seller, s.amount, s.appId, dbStatus, s.status == Frozen || s.frozen,
        s.deployTx, s.fundTx, s.releaseTx, s.refundTx, s.merkleRoot)
  }

  function FromRow(r: Row): EscrowState {
    var status := if r.isFrozen then Frozen else
                    match r.status
                    case DbDeployed => Deployed
                    case DbFunded => Funded
                    case DbReleased => Released
                    case DbRefunded => Refunded;
    EscrowState(r.buyer, r.seller, r.amount, r.appId, status, r.isFrozen,
                r.deployTx, r.fundTx, r.releaseTx, r.refundTx, r.merkleRoot, None)
  }

  ghost predicate Coherent(s: EscrowState) {
    s.frozen <==> s.status == Frozen
  }

  /** Saving and reloading loses the settlement time, and nothing else exactly on coherent aggregates. */
  lemma ReloadExact(s: EscrowState)
    ensures FromRow(ToRow(s)) == s.(settledAt := None) <==> Coherent(s)
  {
  }

  datatype Record =
    | DeploymentRecord(app: AppId, tx: TxId)
    | FundingRecord(tx: TxId)
    | ReleaseRecord(tx: TxId, root: string, now: int)
    | RefundRecord(tx: TxId, now: int)
    | FreezeRecord
    | UnfreezeRecord

  function Apply(s: EscrowState, r: Record): Result<EscrowState, Error> {
    match r
    case DeploymentRecord(app, tx) => RecordDeployment(s, app, tx)
    case FundingRecord(tx) => RecordFunding(s, tx)
    case ReleaseRecord(tx, root, now) => RecordRelease(s, tx, root, now)
    case RefundRecord(tx, now) => RecordRefund(s, tx, now)
    case FreezeRecord => RecordFreeze(s)
    case UnfreezeRecord => RecordUnfreeze(s)
  }

  /** Every lifecycle method keeps the aggregate coherent, so every reload is exact up to the time. */
  lemma RecordsStayCoherent(s: EscrowState, r: Record)
    requires Coherent(s) && Apply(s, r).Ok?
    ensures Coherent(Apply(s, r).value)
    ensures FromRow(ToRow(Apply(s, r).value)) == Apply(s, r).value.(settledAt := None)
  {
    ReloadExact(Apply(s, r).value);
  }

  /** Which records each state takes, and everything a record changes. */
  lemma RecordExact(s: EscrowState, r: Record)
    requires Coherent(s)
    ensures Apply(s, r).Ok? <==>
              match r
              case DeploymentRecord(_, _) => s.appId.None?
              case FundingRecord(_) => s.status == Deployed
              case ReleaseRecord(_, _, _) => s.status == Funded
              case RefundRecord(_, _) => s.status == Funded || s.status == Frozen
              case FreezeRecord => s.status == Deployed || s.status == Funded
              case UnfreezeRecord => s.status == Frozen
    ensures Apply(s, r).Ok? ==>
              var t := Apply(s, r).value;
              && t.buyer == s.buyer && t.seller == s.seller && t.amount == s.amount
              && t.status == (match r
                              case DeploymentRecord(_, _) => s.status
                              case FundingRecord(_) => Funded
                              case ReleaseRecord(_, _, _) => Released
                              case RefundRecord(_, _) => Refunded
                              case FreezeRecord => Frozen
                              case UnfreezeRecord => Funded)
              && t.appId == (if r.DeploymentRecord? then Some(r.app) else s.appId)
              && t.deployTx == (if r.DeploymentRecord? then Some(r.tx) else s.deployTx)
              && t.fundTx == (if r.FundingRecord? then Some(r.tx) else s.fundTx)
              && t.releaseTx == (if r.ReleaseRecord? then Some(r.tx) else s.releaseTx)
              && t.refundTx == (if r.RefundRecord? then Some(r.tx) else s.refundTx)
              && t.merkleRoot == (if r.ReleaseRecord? then Some(r.root) else s.merkleRoot)
              && t.settledAt == (if r.ReleaseRecord? || r.RefundRecord? then Some(r.now) else s.settledAt)
  {
  }
}
