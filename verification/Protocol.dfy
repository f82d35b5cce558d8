/**
The two-ledger protocol: any number of callers run execute, release, revert
and sync against one local database and one chain, and may be interleaved,
stopped or stranded between any two of their steps.  A step relation with a
program counter per caller, a pool of submitted transactions, and the rest of
the world acting on the chain at any time.
*/
module Protocol {
  import opened Wrappers
  import opened Ledger
  import Escrow
  import opened LocalDb

  type CallerId = nat

  /** A submitted create_intent: still able to land, landed as an escrow, or never going to. */
  datatype TxState = Pending | Landed(id: nat) | Dead

  datatype Tx = Tx(row: RowId, sme: Address, terms: Row, state: TxState)

  /** Where a caller is; `snap` is the row it read when it started. */
  datatype Pc =
    | Idle
    | ExecStart(r: RowId, dryRun: bool)
    | ExecRead(r: RowId, snap: Row)
    | ExecClaimed(r: RowId, snap: Row)
    | ExecWaiting(r: RowId, snap: Row, x: TxHash)
    | ExecRejected(r: RowId)
    | ExecUnconfirmed(r: RowId, x: TxHash)
    | ExecConfirmed(r: RowId, snap: Row, x: TxHash, id: nat)
    | ExecRecorded(r: RowId, snap: Row, x: TxHash, id: nat)
    | ExecLinked(r: RowId, snap: Row, id: nat)
    | ExecVerified(r: RowId, snap: Row, id: nat)
    | ReleaseStart(r: RowId)
    | ReleaseReady(r: RowId, id: nat)
    | ReleasePaid(r: RowId)
    | RevertStart(r: RowId)
    | RevertReady(r: RowId, id: nat)
    | RevertPaid(r: RowId)
    | SyncStart(r: RowId, pay: bool)
    | SyncRead(r: RowId, status: Status, id: nat, pay: bool)
    | SyncWrite(r: RowId, status: Status, pay: bool)
    | CashOut(r: RowId)
    | CashOutReady(r: RowId, amount: int, address: Address)

  datatype World = World(
    db: Db,
    chain: Escrow.State,
    txs: map<TxHash, Tx>,
    callers: map<CallerId, Pc>)

  datatype Job = Execute(r: RowId, dryRun: bool) | Release(r: RowId) | Revert(r: RowId) | Sync(r: RowId)

  /**
  How the world answers a caller's next action.  Send: the network takes the
  transaction.  Fail: the call raises, a guard refuses, a poll is given up, or
  a read returns nothing.  Go: everything else.
  */
  datatype Choice = Go | Fail | Send(x: TxHash, sme: Address)

  datatype Step =
    | Insert(r: RowId, row: Row, codes: seq<string>)
    | Begin(c: CallerId, job: Job)
    | Next(c: CallerId, choice: Choice)
    | Crash(c: CallerId)
    | Land(x: TxHash, auth: set<Address>)
    | Drop(x: TxHash)
    | OnChain(inv: Escrow.Invocation)

  function PcOf(w: World, c: CallerId): Pc {
    if c in w.callers then w.callers[c] else Idle
  }

  function At(w: World, c: CallerId, pc: Pc): World {
    w.(callers := w.callers[c := pc])
  }

  function Start(job: Job): Pc {
    match job
    case Execute(r, dryRun) => ExecStart(r, dryRun)
    case Release(r) => ReleaseStart(r)
    case Revert(r) => RevertStart(r)
    case Sync(r) => SyncStart(r, false)
  }

  // ---- execute ----

  function StepExecStart(w: World, c: CallerId, r: RowId, dryRun: bool): World {
    if r !in w.db.rows || dryRun then At(w, c, Idle) else At(w, c, ExecRead(r, w.db.rows[r]))
  }

  function StepExecRead(w: World, c: CallerId, r: RowId, snap: Row): World {
    At(w.(db := ClaimEscrow(w.db, r)), c, if Claimable(w.db, r) then ExecClaimed(r, snap) else Idle)
  }

  function StepExecClaimed(w: World, c: CallerId, r: RowId, snap: Row, choice: Choice): World {
    match choice
    case Go => w
    case Fail => At(w, c, ExecRejected(r))
    case Send(x, sme) =>
      if x in w.txs then w
      else At(w.(txs := w.txs[x := Tx(r, sme, snap, Pending)]), c, ExecWaiting(r, snap, x))
  }

  function StepExecWaiting(w: World, c: CallerId, r: RowId, snap: Row, x: TxHash, choice: Choice): World {
    if choice.Fail? then At(w, c, ExecUnconfirmed(r, x))
    else if x !in w.txs then w
    else
      match w.txs[x].state
      case Pending => w
      case Dead => At(w, c, ExecRejected(r))
      case Landed(id) => At(w, c, ExecConfirmed(r, snap, x, id))
  }

  /** The tx hash is recorded when the adapter knows it. */
  function StepExecUnconfirmed(w: World, c: CallerId, r: RowId, x: TxHash, choice: Choice): World {
    if choice.Fail? then At(w, c, Idle)
    else At(w.(db := AddChainTx(w.db, r, "create_intent", Some(x))), c, Idle)
  }

  /** The read back: any doubt raises, and leaves the claim and the chain id in place. */
  function StepExecLinked(w: World, c: CallerId, r: RowId, snap: Row, id: nat, choice: Choice): World {
    if choice.Fail? || id !in w.chain.intents then At(w, c, Idle)
    else if Lower(w.chain.intents[id].requestHash) != Lower(snap.requestHash) then At(w, c, Idle)
    else if w.chain.intents[id].status != Escrow.Funded then At(w, c, Idle)
    else At(w, c, ExecVerified(r, snap, id))
  }

  // ---- release, revert ----

  function StepSettleStart(w: World, c: CallerId, r: RowId, choice: Choice, release: bool): World {
    if choice.Fail? || r !in w.db.rows || w.db.rows[r].chainId == None then At(w, c, Idle)
    else
      var id := w.db.rows[r].chainId.value;
      At(w, c, if release then ReleaseReady(r, id) else RevertReady(r, id))
  }

  function StepSettleReady(w: World, c: CallerId, r: RowId, id: nat, choice: Choice, release: bool): World {
    if choice.Fail? then At(w, c, Idle)
    else
      match if release then Escrow.TryRelease(w.chain, id) else Escrow.TryRefund(w.chain, id)
      case Ok(s) => At(w.(chain := s), c, if release then ReleasePaid(r) else RevertPaid(r))
      case Err(_) => At(w, c, Idle)
  }

  // ---- sync_status, and what release does with its answer ----

  function Answer(w: World, c: CallerId, r: RowId, status: Status, pay: bool): World {
    At(w, c, if pay && status == LocalDb.Released then CashOut(r) else Idle)
  }

  function StepSyncStart(w: World, c: CallerId, r: RowId, pay: bool): World {
    if r !in w.db.rows then At(w, c, Idle)
    else
      var row := w.db.rows[r];
      match row.chainId
      case None => Answer(w, c, r, row.status, pay)
      case Some(id) => At(w, c, SyncRead(r, row.status, id, pay))
  }

  function StepSyncRead(w: World, c: CallerId, r: RowId, status: Status, id: nat, pay: bool, choice: Choice): World {
    if choice.Fail? || id !in w.chain.intents then Answer(w, c, r, status, pay)
    else
      var mapped := FromChain(w.chain.intents[id].status);
      if mapped == status then Answer(w, c, r, mapped, pay) else At(w, c, SyncWrite(r, mapped, pay))
  }

  /** The write follows the chain status that was read, whatever has happened since. */
  function SyncDb(db: Db, r: RowId, mapped: Status): Db {
    var hash := if r in db.rows then db.rows[r].requestHash else "";
    match mapped
    case Escrowed => RecordApproved(db, r, ["CHAIN_FUNDED"], hash)
    case Released => MarkReleased(db, r)
    case Reverted => RecordReverted(db, r, ["CHAIN_REFUNDED"], hash)
    case _ => db
  }

  function StepCashOut(w: World, c: CallerId, r: RowId): World {
    if r !in w.db.rows || w.db.rows[r].status != LocalDb.Released then At(w, c, Idle)
    else At(w, c, CashOutReady(r, w.db.rows[r].amount, w.db.rows[r].supplier))
  }

  function DoNext(w: World, c: CallerId, choice: Choice): World {
    match PcOf(w, c)
    case Idle => w
    case ExecStart(r, dryRun) => StepExecStart(w, c, r, dryRun)
    case ExecRead(r, snap) => StepExecRead(w, c, r, snap)
    case ExecClaimed(r, snap) => StepExecClaimed(w, c, r, snap, choice)
    case ExecWaiting(r, snap, x) => StepExecWaiting(w, c, r, snap, x, choice)
    case ExecRejected(r) => At(w.(db := ReleaseEscrowClaim(w.db, r)), c, Idle)
    case ExecUnconfirmed(r, x) => StepExecUnconfirmed(w, c, r, x, choice)
    case ExecConfirmed(r, snap, x, id) =>
      At(w.(db := AddChainTx(w.db, r, "create_intent", Some(x))), c, ExecRecorded(r, snap, x, id))
    case ExecRecorded(r, snap, x, id) => At(w.(db := SetChainIntent(w.db, r, id)), c, ExecLinked(r, snap, id))
    case ExecLinked(r, snap, id) => StepExecLinked(w, c, r, snap, id, choice)
    case ExecVerified(r, snap, id) =>
      At(w.(db := RecordApproved(w.db, r, ["ESCROWED_ONCHAIN"], snap.requestHash)), c, Idle)
    case ReleaseStart(r) => StepSettleStart(w, c, r, choice, true)
    case ReleaseReady(r, id) => StepSettleReady(w, c, r, id, choice, true)
    case ReleasePaid(r) => At(w.(db := AddChainTx(w.db, r, "release", None)), c, SyncStart(r, true))
    case RevertStart(r) => StepSettleStart(w, c, r, choice, false)
    case RevertReady(r, id) => StepSettleReady(w, c, r, id, choice, false)
    case RevertPaid(r) => At(w.(db := AddChainTx(w.db, r, "refund", None)), c, SyncStart(r, false))
    case SyncStart(r, pay) => StepSyncStart(w, c, r, pay)
    case SyncRead(r, status, id, pay) => StepSyncRead(w, c, r, status, id, pay, choice)
    case SyncWrite(r, mapped, pay) => Answer(w.(db := SyncDb(w.db, r, mapped)), c, r, mapped, pay)
    case CashOut(r) => StepCashOut(w, c, r)
    case CashOutReady(r, amount, address) => At(w.(db := AddPayout(w.db, r, amount, address)), c, Idle)
  }

  function CreateCall(tx: Tx): Escrow.Call {
    Escrow.CreateIntent(tx.sme, tx.terms.supplier, tx.terms.token, tx.terms.amount, tx.terms.requestHash, tx.terms.deadline)
  }

  /** A pending transaction is executed: it becomes an escrow or fails for good. */
  function DoLand(w: World, x: TxHash, auth: set<Address>): World {
    if x !in w.txs || w.txs[x].state != Pending then w
    else
      match Escrow.Try(w.chain, Escrow.Invocation(auth, CreateCall(w.txs[x])))
      case Ok(s) => w.(chain := s, txs := w.txs[x := w.txs[x].(state := Landed(s.counter))])
      case Err(_) => w.(txs := w.txs[x := w.txs[x].(state := Dead)])
  }

  function DoDrop(w: World, x: TxHash): World {
    if x !in w.txs || w.txs[x].state != Pending then w
    else w.(txs := w.txs[x := w.txs[x].(state := Dead)])
  }

  ghost function Do(w: World, step: Step): World {
    match step
    case Insert(r, row, codes) =>
      if CanInsert(w.db, r, row) && row.status in {Proposed, Held} && row.chainId == None
      then w.(db := RecordIntent(w.db, r, row, codes)) else w
    case Begin(c, job) => if PcOf(w, c) == Idle then At(w, c, Start(job)) else w
    case Next(c, choice) => DoNext(w, c, choice)
    case Crash(c) => At(w, c, Idle)
    case Land(x, auth) => DoLand(w, x, auth)
    case Drop(x) => DoDrop(w, x)
    case OnChain(inv) => w.(chain := Escrow.Apply(w.chain, inv))
  }

  ghost function Run(w: World, steps: seq<Step>): World {
    if steps == [] then w else Do(Run(w, steps[..|steps| - 1]), steps[|steps| - 1])
  }

  ghost function Init(vault: Address, admin: Address, balances: Balances, now: nat): World {
    World(EMPTY, Escrow.Init(vault, admin, balances, now), map[], map[])
  }

  /** The escrow contract signs nothing, whoever calls it. */
  ghost predicate Fair(vault: Address, step: Step) {
    && (step.Land? ==> vault !in step.auth)
    && (step.OnChain? ==> vault !in step.inv.auth)
  }

  ghost predicate FairRun(vault: Address, steps: seq<Step>) {
    forall i :: 0 <= i < |steps| ==> Fair(vault, steps[i])
  }
}
