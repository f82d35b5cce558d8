/**
One caller alone in the protocol: each of its steps, one lemma apiece, written
out as the world it leads to.
*/
module FlowSteps {
  import Escrow
  import opened Ledger
  import opened LocalDb
  import opened Protocol
  import opened Wrappers

  /** The world with a single caller at `pc`. */
  ghost function Alone(db: Db, chain: Escrow.State, txs: map<TxHash, Tx>, c: CallerId, pc: Pc): World {
    World(db, chain, txs, map[c := pc])
  }

  lemma MovesTo(db: Db, chain: Escrow.State, txs: map<TxHash, Tx>, c: CallerId, pc: Pc)
    ensures PcOf(Alone(db, chain, txs, c, pc), c) == pc
    ensures forall next, db', chain', txs' ::
      At(Alone(db, chain, txs, c, pc).(db := db', chain := chain', txs := txs'), c, next) == Alone(db', chain', txs', c, next)
  {
    assert forall next :: map[c := pc][c := next] == map[c := next];
  }

  /** A run and one more step. */
  lemma Extended(w0: World, steps: seq<Step>, step: Step)
    ensures Run(w0, steps + [step]) == Do(Run(w0, steps), step)
  {
    assert (steps + [step])[..|steps|] == steps;
  }

  lemma Begins(db: Db, chain: Escrow.State, txs: map<TxHash, Tx>, c: CallerId, job: Job)
    ensures Do(Alone(db, chain, txs, c, Idle), Begin(c, job)) == Alone(db, chain, txs, c, Start(job))
  {
    MovesTo(db, chain, txs, c, Idle);
  }

  // ---- execute ----

  lemma ExecReads(db: Db, chain: Escrow.State, txs: map<TxHash, Tx>, c: CallerId, r: RowId, dryRun: bool)
    ensures Do(Alone(db, chain, txs, c, ExecStart(r, dryRun)), Next(c, Go)) ==
      Alone(db, chain, txs, c, if r !in db.rows || dryRun then Idle else ExecRead(r, db.rows[r]))
  {
    MovesTo(db, chain, txs, c, ExecStart(r, dryRun));
  }

  lemma ExecClaims(db: Db, chain: Escrow.State, txs: map<TxHash, Tx>, c: CallerId, r: RowId, snap: Row)
    ensures Do(Alone(db, chain, txs, c, ExecRead(r, snap)), Next(c, Go)) ==
      Alone(ClaimEscrow(db, r), chain, txs, c, if Claimable(db, r) then ExecClaimed(r, snap) else Idle)
  {
    MovesTo(db, chain, txs, c, ExecRead(r, snap));
  }

  lemma ExecFails(db: Db, chain: Escrow.State, txs: map<TxHash, Tx>, c: CallerId, r: RowId, snap: Row)
    ensures Do(Alone(db, chain, txs, c, ExecClaimed(r, snap)), Next(c, Fail)) == Alone(db, chain, txs, c, ExecRejected(r))
  {
    MovesTo(db, chain, txs, c, ExecClaimed(r, snap));
  }

  lemma ExecSends(
    db: Db, chain: Escrow.State, txs: map<TxHash, Tx>, c: CallerId, r: RowId, snap: Row, x: TxHash, sme: Address)
    requires x !in txs
    ensures Do(Alone(db, chain, txs, c, ExecClaimed(r, snap)), Next(c, Send(x, sme))) ==
      Alone(db, chain, txs[x := Tx(r, sme, snap, Pending)], c, ExecWaiting(r, snap, x))
  {
    MovesTo(db, chain, txs, c, ExecClaimed(r, snap));
  }

  lemma PendingLands(
    db: Db, chain: Escrow.State, txs: map<TxHash, Tx>, c: CallerId, pc: Pc, x: TxHash, tx: Tx, auth: set<Address>)
    requires tx.state == Pending
    ensures Do(Alone(db, chain, txs[x := tx], c, pc), Land(x, auth)) ==
      match Escrow.Try(chain, Escrow.Invocation(auth, CreateCall(tx)))
      case Ok(s) => Alone(db, s, txs[x := tx.(state := Landed(s.counter))], c, pc)
      case Err(_) => Alone(db, chain, txs[x := tx.(state := Dead)], c, pc)
  {
    hide Escrow.Try, CreateCall;
    assert forall state :: txs[x := tx][x := tx.(state := state)] == txs[x := tx.(state := state)];
  }

  lemma ExecLearns(db: Db, chain: Escrow.State, txs: map<TxHash, Tx>, c: CallerId, r: RowId, snap: Row, x: TxHash)
    requires x in txs && txs[x].state != Pending
    ensures Do(Alone(db, chain, txs, c, ExecWaiting(r, snap, x)), Next(c, Go)) ==
      Alone(db, chain, txs, c, if txs[x].state.Dead? then ExecRejected(r) else ExecConfirmed(r, snap, x, txs[x].state.id))
  {
    MovesTo(db, chain, txs, c, ExecWaiting(r, snap, x));
  }

  lemma ExecGivesUp(db: Db, chain: Escrow.State, txs: map<TxHash, Tx>, c: CallerId, r: RowId, snap: Row, x: TxHash)
    ensures Do(Alone(db, chain, txs, c, ExecWaiting(r, snap, x)), Next(c, Fail)) ==
      Alone(db, chain, txs, c, ExecUnconfirmed(r, x))
  {
    MovesTo(db, chain, txs, c, ExecWaiting(r, snap, x));
  }

  lemma ExecNotes(db: Db, chain: Escrow.State, txs: map<TxHash, Tx>, c: CallerId, r: RowId, x: TxHash, known: bool)
    ensures Do(Alone(db, chain, txs, c, ExecUnconfirmed(r, x)), Next(c, if known then Go else Fail)) ==
      Alone(if known then AddChainTx(db, r, "create_intent", Some(x)) else db, chain, txs, c, Idle)
  {
    MovesTo(db, chain, txs, c, ExecUnconfirmed(r, x));
  }

  lemma ExecReopens(db: Db, chain: Escrow.State, txs: map<TxHash, Tx>, c: CallerId, r: RowId)
    ensures Do(Alone(db, chain, txs, c, ExecRejected(r)), Next(c, Go)) == Alone(ReleaseEscrowClaim(db, r), chain, txs, c, Idle)
  {
    MovesTo(db, chain, txs, c, ExecRejected(r));
  }

  lemma ExecRecords(db: Db, chain: Escrow.State, txs: map<TxHash, Tx>, c: CallerId, r: RowId, snap: Row, x: TxHash, id: nat)
    ensures Do(Alone(db, chain, txs, c, ExecConfirmed(r, snap, x, id)), Next(c, Go)) ==
      Alone(AddChainTx(db, r, "create_intent", Some(x)), chain, txs, c, ExecRecorded(r, snap, x, id))
  {
    MovesTo(db, chain, txs, c, ExecConfirmed(r, snap, x, id));
  }

  lemma ExecLinks(db: Db, chain: Escrow.State, txs: map<TxHash, Tx>, c: CallerId, r: RowId, snap: Row, x: TxHash, id: nat)
    ensures Do(Alone(db, chain, txs, c, ExecRecorded(r, snap, x, id)), Next(c, Go)) ==
      Alone(SetChainIntent(db, r, id), chain, txs, c, ExecLinked(r, snap, id))
  {
    MovesTo(db, chain, txs, c, ExecRecorded(r, snap, x, id));
  }

  predicate ReadsBack(chain: Escrow.State, snap: Row, id: nat, readable: bool) {
    && readable && id in chain.intents && Lower(chain.intents[id].requestHash) == Lower(snap.requestHash)
    && chain.intents[id].status == Escrow.Funded
  }

  lemma ExecVerifies(
    db: Db, chain: Escrow.State, txs: map<TxHash, Tx>, c: CallerId, r: RowId, snap: Row, id: nat, readable: bool)
    ensures Do(Alone(db, chain, txs, c, ExecLinked(r, snap, id)), Next(c, if readable then Go else Fail)) ==
      Alone(db, chain, txs, c, if ReadsBack(chain, snap, id, readable) then ExecVerified(r, snap, id) else Idle)
  {
    MovesTo(db, chain, txs, c, ExecLinked(r, snap, id));
  }

  lemma ExecApproves(db: Db, chain: Escrow.State, txs: map<TxHash, Tx>, c: CallerId, r: RowId, snap: Row, id: nat)
    ensures Do(Alone(db, chain, txs, c, ExecVerified(r, snap, id)), Next(c, Go)) ==
      Alone(RecordApproved(db, r, ["ESCROWED_ONCHAIN"], snap.requestHash), chain, txs, c, Idle)
  {
    MovesTo(db, chain, txs, c, ExecVerified(r, snap, id));
  }

  // ---- release and revert ----

  lemma SettleStarts(db: Db, chain: Escrow.State, txs: map<TxHash, Tx>, c: CallerId, r: RowId, allowed: bool, release: bool)
    ensures Do(Alone(db, chain, txs, c, if release then ReleaseStart(r) else RevertStart(r)), Next(c, if allowed then Go else Fail)) ==
      Alone(db, chain, txs, c,
        if !allowed || r !in db.rows || db.rows[r].chainId == None then Idle
        else if release then ReleaseReady(r, db.rows[r].chainId.value) else RevertReady(r, db.rows[r].chainId.value))
  {
    MovesTo(db, chain, txs, c, if release then ReleaseStart(r) else RevertStart(r));
  }

  function TrySettle(chain: Escrow.State, id: nat, release: bool): Result<Escrow.State, Escrow.Error> {
    if release then Escrow.TryRelease(chain, id) else Escrow.TryRefund(chain, id)
  }

  lemma SettleCalls(db: Db, chain: Escrow.State, txs: map<TxHash, Tx>, c: CallerId, r: RowId, id: nat, reached: bool, release: bool)
    ensures Do(Alone(db, chain, txs, c, if release then ReleaseReady(r, id) else RevertReady(r, id)), Next(c, if reached then Go else Fail)) ==
      if !reached || TrySettle(chain, id, release).Err? then Alone(db, chain, txs, c, Idle)
      else Alone(db, TrySettle(chain, id, release).value, txs, c, if release then ReleasePaid(r) else RevertPaid(r))
  {
    hide Escrow.TryRelease, Escrow.TryRefund;
    MovesTo(db, chain, txs, c, if release then ReleaseReady(r, id) else RevertReady(r, id));
  }

  lemma SettleRecords(db: Db, chain: Escrow.State, txs: map<TxHash, Tx>, c: CallerId, r: RowId, release: bool)
    ensures Do(Alone(db, chain, txs, c, if release then ReleasePaid(r) else RevertPaid(r)), Next(c, Go)) ==
      Alone(AddChainTx(db, r, if release then "release" else "refund", None), chain, txs, c, SyncStart(r, release))
  {
    MovesTo(db, chain, txs, c, if release then ReleasePaid(r) else RevertPaid(r));
  }

  // ---- sync_status and cash_out ----

  function After(r: RowId, status: Status, pay: bool): Pc {
    if pay && status == LocalDb.Released then CashOut(r) else Idle
  }

  lemma SyncStarts(db: Db, chain: Escrow.State, txs: map<TxHash, Tx>, c: CallerId, r: RowId, pay: bool)
    ensures Do(Alone(db, chain, txs, c, SyncStart(r, pay)), Next(c, Go)) ==
      Alone(db, chain, txs, c,
        if r !in db.rows then Idle
        else if db.rows[r].chainId == None then After(r, db.rows[r].status, pay)
        else SyncRead(r, db.rows[r].status, db.rows[r].chainId.value, pay))
  {
    MovesTo(db, chain, txs, c, SyncStart(r, pay));
  }

  lemma SyncReads(
    db: Db, chain: Escrow.State, txs: map<TxHash, Tx>, c: CallerId, r: RowId, status: Status, id: nat, pay: bool, readable: bool)
    ensures Do(Alone(db, chain, txs, c, SyncRead(r, status, id, pay)), Next(c, if readable then Go else Fail)) ==
      Alone(db, chain, txs, c,
        if !readable || id !in chain.intents || FromChain(chain.intents[id].status) == status then After(r, status, pay)
        else SyncWrite(r, FromChain(chain.intents[id].status), pay))
  {
    MovesTo(db, chain, txs, c, SyncRead(r, status, id, pay));
  }

  lemma SyncWrites(db: Db, chain: Escrow.State, txs: map<TxHash, Tx>, c: CallerId, r: RowId, mapped: Status, pay: bool)
    ensures Do(Alone(db, chain, txs, c, SyncWrite(r, mapped, pay)), Next(c, Go)) ==
      Alone(SyncDb(db, r, mapped), chain, txs, c, After(r, mapped, pay))
  {
    hide SyncDb;
    MovesTo(db, chain, txs, c, SyncWrite(r, mapped, pay));
  }

  lemma CashOutReads(db: Db, chain: Escrow.State, txs: map<TxHash, Tx>, c: CallerId, r: RowId)
    ensures Do(Alone(db, chain, txs, c, CashOut(r)), Next(c, Go)) ==
      Alone(db, chain, txs, c,
        if r !in db.rows || db.rows[r].status != LocalDb.Released then Idle
        else CashOutReady(r, db.rows[r].amount, db.rows[r].supplier))
  {
    MovesTo(db, chain, txs, c, CashOut(r));
  }

  lemma CashOutPays(db: Db, chain: Escrow.State, txs: map<TxHash, Tx>, c: CallerId, r: RowId, amount: int, address: Address)
    ensures Do(Alone(db, chain, txs, c, CashOutReady(r, amount, address)), Next(c, Go)) ==
      Alone(AddPayout(db, r, amount, address), chain, txs, c, Idle)
  {
    MovesTo(db, chain, txs, c, CashOutReady(r, amount, address));
  }
}
