/**
 The on-chain escrow: CadenciaEscrow's five calls after creation, their assertions and
 their inner payments. A failed assertion rejects the whole transaction group.
 */
module EscrowContract {
  import opened Wrappers

  type Address = string

  // On-chain status codes.
  const DEPLOYED := 0
  const FUNDED := 1
  const RELEASED := 2
  const REFUNDED := 3

  type UInt64 = n: nat | n < 0x1_0000_0000_0000_0000

  datatype Payout = Payout(receiver: Address, amount: UInt64, note: string)

  /** The contract's global state, its account balance, and the ledger entries it caused. */
  datatype State = State(
    creator: Address,
    self: Address,
    buyer: Address,
    seller: Address,
    amount: UInt64,
    status: nat,
    frozen: nat,
    held: nat,
    paidIn: nat,
    payouts: seq<Payout>)

  datatype Call =
    | Fund(sender: Address, receiver: Address, payment: UInt64)
    | Release(sender: Address, merkleRoot: string)
    | Refund(sender: Address, reason: string)
    | Freeze(sender: Address)
    | Unfreeze(sender: Address)

  function Initial(creator: Address, self: Address, buyer: Address, seller: Address, amount: UInt64): State {
    State(creator, self, buyer, seller, amount, DEPLOYED, 0, 0, 0, [])
  }

  /** An inner payment of the whole amount; the ledger refuses it when the account cannot cover it. */
  function Pay(s: State, receiver: Address, note: string, status: nat): Option<State> {
    if s.held < s.amount then None
    else Some(s.(held := s.held - s.amount,
                 payouts := s.payouts + [Payout(receiver, s.amount, note)],
                 status := status))
  }

  /** The state after a call, or None when the transaction is rejected. */
  function Exec(s: State, c: Call): Option<State> {
    match c
    case Fund(sender, receiver, payment) =>
      if s.status == DEPLOYED && s.frozen == 0 && receiver == s.self && payment == s.amount
      then Some(s.(held := s.held + payment, paidIn := s.paidIn + payment, status := FUNDED))
      else None
    case Release(sender, root) =>
      if sender == s.creator && s.status == FUNDED && s.frozen == 0
      then Pay(s, s.seller, root, RELEASED) else None
    case Refund(sender, reason) =>
      if sender == s.creator && s.status == FUNDED && s.frozen == 0
      then Pay(s, s.buyer, reason, REFUNDED) else None
    case Freeze(sender) =>
      if sender == s.buyer || sender == s.seller || sender == s.creator
      then Some(s.(frozen := 1)) else None
    case Unfreeze(sender) =>
      if sender == s.creator && s.frozen == 1 then Some(s.(frozen := 0)) else None
  }

  /** A rejected call leaves the chain as it was. */
  function After(s: State, c: Call): State {
    match Exec(s, c)
    case Some(s') => s'
    case None => s
  }

  function AfterAll(s: State, calls: seq<Call>): State
    decreases |calls|
  {
    if calls == [] then s else AfterAll(After(s, calls[0]), calls[1..])
  }

  // ----- The contract object -------------------------------------------------------------------

  class CadenciaEscrow {
    const creator: Address
    const self: Address
    const buyer: Address
    const seller: Address
    const amount: UInt64
    var status: nat
    var frozen: nat
    var held: nat
    var paidIn: nat
    var payouts: seq<Payout>

    function Snapshot(): State
      reads this
    {
      State(creator, self, buyer, seller, amount, status, frozen, held, paidIn, payouts)
    }

    constructor Initialize(creator: Address, self: Address, buyer: Address, seller: Address, amount: UInt64)
      ensures Snapshot() == Initial(creator, self, buyer, seller, amount)
    {
      this.creator, this.self, this.buyer, this.seller := creator, self, buyer, seller;
      this.amount := amount;
      status, frozen, held, paidIn, payouts := DEPLOYED, 0, 0, 0, [];
    }

    method Fund(sender: Address, receiver: Address, payment: UInt64) returns (ok: bool)
      modifies this
      ensures ok <==> Exec(old(Snapshot()), Call.Fund(sender, receiver, payment)).Some?
      ensures Snapshot() == After(old(Snapshot()), Call.Fund(sender, receiver, payment))
    {
      if status != DEPLOYED { return false; }
      if frozen != 0 { return false; }
      if receiver != self { return false; }
      if payment != amount { return false; }
      held, paidIn := held + payment, paidIn + payment;
      status := FUNDED;
      return true;
    }

    /** The inner payment transaction of release and refund. */
    method SubmitPayment(receiver: Address, note: string) returns (ok: bool)
      modifies this`held, this`payouts
      ensures ok <==> old(held) >= amount
      ensures ok ==> held == old(held) - amount && payouts == old(payouts) + [Payout(receiver, amount, note)]
      ensures !ok ==> held == old(held) && payouts == old(payouts)
    {
      if held < amount { return false; }
      held := held - amount;
      payouts := payouts + [Payout(receiver, amount, note)];
      return true;
    }

    method Release(sender: Address, merkleRoot: string) returns (ok: bool)
      modifies this
      ensures ok <==> Exec(old(Snapshot()), Call.Release(sender, merkleRoot)).Some?
      ensures Snapshot() == After(old(Snapshot()), Call.Release(sender, merkleRoot))
    {
      if sender != creator { return false; }
      if status != FUNDED { return false; }
      if frozen != 0 { return false; }
      ok := SubmitPayment(seller, merkleRoot);
      if ok { status := RELEASED; }
    }

    method Refund(sender: Address, reason: string) returns (ok: bool)
      modifies this
      ensures ok <==> Exec(old(Snapshot()), Call.Refund(sender, reason)).Some?
      ensures Snapshot() == After(old(Snapshot()), Call.Refund(sender, reason))
    {
      if sender != creator { return false; }
      if status != FUNDED { return false; }
      if frozen != 0 { return false; }
      ok := SubmitPayment(buyer, reason);
      if ok { status := REFUNDED; }
    }

    method Freeze(sender: Address) returns (ok: bool)
      modifies this
      ensures ok <==> Exec(old(Snapshot()), Call.Freeze(sender)).Some?
      ensures Snapshot() == After(old(Snapshot()), Call.Freeze(sender))
    {
      if sender != buyer && sender != seller && sender != creator { return false; }
      frozen := 1;
      return true;
    }

    method Unfreeze(sender: Address) returns (ok: bool)
      modifies this
      ensures ok <==> Exec(old(Snapshot()), Call.Unfreeze(sender)).Some?
      ensures Snapshot() == After(old(Snapshot()), Call.Unfreeze(sender))
    {
      if sender != creator { return false; }
      if frozen != 1 { return false; }
      frozen := 0;
      return true;
    }
  }

  // ----- Money ---------------------------------------------------------------------------------

  function PaidOut(payouts: seq<Payout>): nat {
    if payouts == [] then 0 else payouts[0].amount + PaidOut(payouts[1..])
  }

  /**
   The balance sheet by status. In particular held money is the amount while FUNDED and nothing
   otherwise, and there is one payout, of everything, exactly in the two settled states.
   */
  predicate Balanced(s: State) {
    && (s.frozen == 0 || s.frozen == 1)
    && match s.status
       case 0 => s.paidIn == 0 && s.held == 0 && s.payouts == []
       case 1 => s.paidIn == s.amount && s.held == s.amount && s.payouts == []
       case 2 => s.paidIn == s.amount && s.held == 0 && |s.payouts| == 1 &&
                 s.payouts[0].receiver == s.seller && s.payouts[0].amount == s.amount
       case 3 => s.paidIn == s.amount && s.held == 0 && |s.payouts| == 1 &&
                 s.payouts[0].receiver == s.buyer && s.payouts[0].amount == s.amount
       case _ => false
  }

  predicate SameParties(s: State, t: State) {
    s.creator == t.creator && s.self == t.self && s.buyer == t.buyer && s.seller == t.seller && s.amount == t.amount
  }

  lemma {:induction false} RunStaysBalanced(s: State, calls: seq<Call>)
    requires Balanced(s)
    ensures Balanced(AfterAll(s, calls)) && SameParties(s, AfterAll(s, calls))
    decreases |calls|
  {
    if calls != [] {
      RunStaysBalanced(After(s, calls[0]), calls[1..]);
    }
  }

  /**
   Over every run of calls by arbitrary senders: what was paid in is held or was paid out, held
   money is exactly the amount while FUNDED and zero otherwise, and at most one payout happens.
   */
  lemma MoneyConserved(creator: Address, self: Address, buyer: Address, seller: Address, amount: UInt64, calls: seq<Call>)
    ensures var s := AfterAll(Initial(creator, self, buyer, seller, amount), calls);
            && s.paidIn == s.held + PaidOut(s.payouts)
            && s.held == (if s.status == FUNDED then amount else 0)
            && |s.payouts| <= 1
            && (s.payouts != [] <==> s.status == RELEASED || s.status == REFUNDED)
            && (s.payouts != [] ==> s.payouts[0].amount == amount &&
                                    s.payouts[0].receiver == if s.status == RELEASED then seller else buyer)
  {
    RunStaysBalanced(Initial(creator, self, buyer, seller, amount), calls);
    var s := AfterAll(Initial(creator, self, buyer, seller, amount), calls);
    if |s.payouts| == 1 {
      assert PaidOut(s.payouts) == s.payouts[0].amount + PaidOut(s.payouts[1..]);
    }
  }

  /** While frozen no call moves money or status, until an unfreeze. */
  lemma {:induction false} NothingMovesWhileFrozen(s: State, calls: seq<Call>)
    requires s.frozen == 1
    requires forall i :: 0 <= i < |calls| ==> calls[i].Unfreeze? ==> calls[i].sender != s.creator
    ensures AfterAll(s, calls) == s
    decreases |calls|
  {
    if calls != [] {
      NothingMovesWhileFrozen(After(s, calls[0]), calls[1..]);
    }
  }

  /** Once settled, only the freeze flag can still change. */
  lemma {:induction false} SettledIsFinal(s: State, calls: seq<Call>)
    requires s.status == RELEASED || s.status == REFUNDED
    ensures AfterAll(s, calls) == s.(frozen := AfterAll(s, calls).frozen)
    decreases |calls|
  {
    if calls != [] {
      SettledIsFinal(After(s, calls[0]), calls[1..]);
    }
  }

  /** Money leaves only on a call sent by the creator. */
  lemma {:induction false} OnlyCreatorPaysOut(s: State, calls: seq<Call>)
    requires forall i :: 0 <= i < |calls| ==> calls[i].sender != s.creator
    ensures AfterAll(s, calls).payouts == s.payouts
    decreases |calls|
  {
    if calls != [] {
      OnlyCreatorPaysOut(After(s, calls[0]), calls[1..]);
    }
  }

  function CallsToRelease(s: State, root: string): seq<Call> {
    if s.frozen == 1 then [Unfreeze(s.creator), Release(s.creator, root)] else [Release(s.creator, root)]
  }

  function CallsToRefund(s: State, reason: string): seq<Call> {
    if s.frozen == 1 then [Unfreeze(s.creator), Refund(s.creator, reason)] else [Refund(s.creator, reason)]
  }

  /** From every FUNDED state a run can reach, the creator alone can settle either way in at most two calls. */
  lemma CreatorCanSettle(start: State, calls: seq<Call>, text: string)
    requires Balanced(start) && AfterAll(start, calls).status == FUNDED
    ensures var s := AfterAll(start, calls);
            && |CallsToRelease(s, text)| <= 2 && |CallsToRefund(s, text)| <= 2
            && AfterAll(s, CallsToRelease(s, text)).payouts == [Payout(s.seller, s.amount, text)]
            && AfterAll(s, CallsToRelease(s, text)).status == RELEASED
            && AfterAll(s, CallsToRefund(s, text)).payouts == [Payout(s.buyer, s.amount, text)]
            && AfterAll(s, CallsToRefund(s, text)).status == REFUNDED
  {
    RunStaysBalanced(start, calls);
    var s := AfterAll(start, calls);
    SettleRuns(s, Release(s.creator, text), CallsToRelease(s, text));
    SettleRuns(s, Refund(s.creator, text), CallsToRefund(s, text));
  }

  lemma SettleRuns(s: State, last: Call, calls: seq<Call>)
    requires Balanced(s) && last.sender == s.creator
    requires calls == (if s.frozen == 1 then [Unfreeze(s.creator), last] else [last])
    ensures AfterAll(s, calls) == After(s.(frozen := 0), last)
  {
    if s.frozen == 1 {
      assert calls[1..] == [last] && [last][1..] == [];
      assert AfterAll(After(s, calls[0]), [last]) == After(After(s, calls[0]), last);
    } else {
      assert calls[1..] == [];
    }
  }

  // ----- Who may do what, and when -----------------------------------------------------------------

  /**
   In every state a run reaches: anyone may fund an unfrozen DEPLOYED contract, with exactly the
   amount and to itself; only the creator may release or refund an unfrozen FUNDED one, and thaw a
   frozen one; buyer, seller and creator may freeze at any time; nobody else may do anything.
   */
  lemma AcceptedExact(start: State, calls: seq<Call>, c: Call)
    requires Balanced(start)
    ensures var s := AfterAll(start, calls);
            Exec(s, c).Some? <==>
              match c
              case Fund(_, receiver, payment) => s.status == 0 && s.frozen == 0 && receiver == s.self && payment == s.amount
              case Release(sender, _) => sender == s.creator && s.status == 1 && s.frozen == 0
              case Refund(sender, _) => sender == s.creator && s.status == 1 && s.frozen == 0
              case Freeze(sender) => sender == s.buyer || sender == s.seller || sender == s.creator
              case Unfreeze(sender) => sender == s.creator && s.frozen == 1
  {
    RunStaysBalanced(start, calls);
  }

  /** Freezing and thawing change the flag and nothing else; whoever is no party changes neither flag nor payouts. */
  lemma FlagExact(s: State, sender: Address)
    ensures Exec(s, Freeze(sender)).Some? ==> Exec(s, Freeze(sender)).value == s.(frozen := 1)
    ensures Exec(s, Unfreeze(sender)).Some? ==> Exec(s, Unfreeze(sender)).value == s.(frozen := 0)
  {
  }

  lemma {:induction false} OutsidersChangeNoFlag(s: State, calls: seq<Call>)
    requires forall i :: 0 <= i < |calls| ==> calls[i].sender !in {s.buyer, s.seller, s.creator}
    ensures AfterAll(s, calls).frozen == s.frozen && AfterAll(s, calls).payouts == s.payouts
    decreases |calls|
  {
    if calls != [] {
      OutsidersChangeNoFlag(After(s, calls[0]), calls[1..]);
    }
  }
}
