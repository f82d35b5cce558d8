/**
Every step of every caller, and of the world around them, keeps the invariant.
*/
module ProtocolSteps {
  import opened Wrappers
  import opened Ledger
  import Escrow
  import EscrowRuns
  import EscrowTheorems
  import opened LocalDb
  import opened Protocol
  import opened ProtocolInv

  /** Setting a caller down and picking it up again is the same as moving it. */
  lemma AtTwice(w: World, c: CallerId, pc: Pc)
    ensures At(At(w, c, Idle), c, pc) == At(w, c, pc)
  {
    assert w.callers[c := Idle][c := pc] == w.callers[c := pc];
  }

  lemma {:induction false} NobodyHoldsAfterLettingGo(w: World, c: CallerId, r: RowId)
    requires Inv(w) && c in w.callers && Holding(w.callers[c]) == Some(r)
    ensures Inv(At(w, c, Idle))
    ensures forall d :: d in At(w, c, Idle).callers ==> Holding(At(w, c, Idle).callers[d]) != Some(r)
  {
    CallerStays(w, c, Idle);
  }

  /** A linked row takes on a status the chain backs. */
  lemma StatusWrite(w: World, w': World, r: RowId, status: Status)
    requires Inv(w) && r in w.db.rows && w.db.rows[r].chainId.Some?
    requires status in {Escrowed, Released, Reverted} && Backed(w, r, status)
    requires RowChanges(w, w', r, w.db.rows[r].(status := status))
    ensures Inv(w')
  {
    RowChangeRemembers(w, w', r, w.db.rows[r].(status := status));
    NobodyHoldsUnlessClaimed(w, r);
    assert RowOk(w, r);
    var x :| LinkedBy(w, r, w.db.rows[r].chainId.value, x);
    assert LinkedBy(w', r, w.db.rows[r].chainId.value, x);
    RowWrite(w, w', r, w.db.rows[r].(status := status));
  }

  // ---- execute ----

  lemma {:induction false} ClaimKeeps(w: World, c: CallerId, r: RowId, snap: Row)
    requires Inv(w) && PcOf(w, c) == ExecRead(r, snap)
    ensures Inv(StepExecRead(w, c, r, snap))
  {
    assert PcOk(w, PcOf(w, c));
    if Claimable(w.db, r) {
      ProposedIsClean(w, r);
      var m := w.(db := ClaimEscrow(w.db, r));
      RowChangeRemembers(w, m, r, m.db.rows[r]);
      RowWrite(w, m, r, m.db.rows[r]);
      CallerMoves(m, c, ExecClaimed(r, snap));
    } else {
      CallerStays(w, c, Idle);
    }
  }

  lemma {:induction false} SubmitKeeps(w: World, c: CallerId, r: RowId, snap: Row, choice: Choice)
    requires Inv(w) && PcOf(w, c) == ExecClaimed(r, snap)
    ensures Inv(StepExecClaimed(w, c, r, snap, choice))
  {
    assert PcOk(w, PcOf(w, c));
    match choice
    case Go =>
    case Fail => CallerStays(w, c, ExecRejected(r));
    case Send(x, sme) =>
      if x !in w.txs {
        NobodyHoldsAfterLettingGo(w, c, r);
        var m := At(w, c, Idle);
        var n := m.(txs := m.txs[x := Tx(r, sme, snap, Pending)]);
        TxSent(m, n, x, Tx(r, sme, snap, Pending));
        CallerMoves(n, c, ExecWaiting(r, snap, x));
        AtTwice(w, c, ExecWaiting(r, snap, x));
      }
  }

  lemma WaitKeeps(w: World, c: CallerId, r: RowId, snap: Row, x: TxHash, choice: Choice)
    requires Inv(w) && PcOf(w, c) == ExecWaiting(r, snap, x)
    ensures Inv(StepExecWaiting(w, c, r, snap, x, choice))
  {
    assert PcOk(w, PcOf(w, c));
    if choice.Fail? {
      CallerStays(w, c, ExecUnconfirmed(r, x));
    } else if w.txs[x].state.Dead? {
      CallerStays(w, c, ExecRejected(r));
    } else if w.txs[x].state.Landed? {
      CallerStays(w, c, ExecConfirmed(r, snap, x, w.txs[x].state.id));
    }
  }

  /** The claim is given back only by its holder, and only when nothing of the row can ever land. */
  lemma {:induction false} ReopenKeeps(w: World, c: CallerId, r: RowId)
    requires Inv(w) && PcOf(w, c) == ExecRejected(r)
    ensures Inv(At(w.(db := ReleaseEscrowClaim(w.db, r)), c, Idle))
  {
    assert PcOk(w, PcOf(w, c));
    NobodyHoldsAfterLettingGo(w, c, r);
    var m := At(w, c, Idle);
    RowWrite(m, m.(db := ReleaseEscrowClaim(m.db, r)), r, m.db.rows[r].(status := Proposed));
  }

  lemma UnconfirmedKeeps(w: World, c: CallerId, r: RowId, x: TxHash, choice: Choice)
    requires Inv(w) && PcOf(w, c) == ExecUnconfirmed(r, x)
    ensures Inv(StepExecUnconfirmed(w, c, r, x, choice))
  {
    if choice.Fail? {
      CallerStays(w, c, Idle);
    } else {
      var m := w.(db := AddChainTx(w.db, r, "create_intent", Some(x)));
      LogGrows(w, m.db);
      CallerStays(m, c, Idle);
    }
  }

  lemma RecordKeeps(w: World, c: CallerId, r: RowId, snap: Row, x: TxHash, id: nat)
    requires Inv(w) && PcOf(w, c) == ExecConfirmed(r, snap, x, id)
    ensures Inv(At(w.(db := AddChainTx(w.db, r, "create_intent", Some(x))), c, ExecRecorded(r, snap, x, id)))
  {
    assert PcOk(w, PcOf(w, c));
    var m := w.(db := AddChainTx(w.db, r, "create_intent", Some(x)));
    LogGrows(w, m.db);
    assert m.db.chainTxs[|m.db.chainTxs| - 1] == ChainTx(r, "create_intent", Some(x));
    CallerStays(m, c, ExecRecorded(r, snap, x, id));
  }

  lemma LinkKeeps(w: World, c: CallerId, r: RowId, snap: Row, x: TxHash, id: nat)
    requires Inv(w) && PcOf(w, c) == ExecRecorded(r, snap, x, id)
    ensures Inv(At(w.(db := SetChainIntent(w.db, r, id)), c, ExecLinked(r, snap, id)))
  {
    assert PcOk(w, PcOf(w, c));
    NobodyHoldsAfterLettingGo(w, c, r);
    var m := At(w, c, Idle);
    var n := m.(db := SetChainIntent(m.db, r, id));
    assert LinkedBy(n, r, id, x);
    RowWrite(m, n, r, m.db.rows[r].(chainId := Some(id)));
    CallerMoves(n, c, ExecLinked(r, snap, id));
    AtTwice(w, c, ExecLinked(r, snap, id));
  }

  lemma ConfirmKeeps(w: World, c: CallerId, r: RowId, snap: Row, id: nat, choice: Choice)
    requires Inv(w) && PcOf(w, c) == ExecLinked(r, snap, id)
    ensures Inv(StepExecLinked(w, c, r, snap, id, choice))
  {
    assert PcOk(w, PcOf(w, c));
    CallerStays(w, c, Idle);
    CallerStays(w, c, ExecVerified(r, snap, id));
  }

  lemma ApproveKeeps(w: World, c: CallerId, r: RowId, snap: Row, id: nat)
    requires Inv(w) && PcOf(w, c) == ExecVerified(r, snap, id)
    ensures Inv(At(w.(db := RecordApproved(w.db, r, ["ESCROWED_ONCHAIN"], snap.requestHash)), c, Idle))
  {
    assert PcOk(w, PcOf(w, c));
    var m := w.(db := RecordApproved(w.db, r, ["ESCROWED_ONCHAIN"], snap.requestHash));
    StatusWrite(w, m, r, Escrowed);
    CallerStays(m, c, Idle);
  }

  // ---- release, revert ----

  lemma {:induction false} SettleStartKeeps(w: World, c: CallerId, r: RowId, choice: Choice, release: bool)
    requires Inv(w) && PcOf(w, c) == if release then ReleaseStart(r) else RevertStart(r)
    ensures Inv(StepSettleStart(w, c, r, choice, release))
  {
    var w' := StepSettleStart(w, c, r, choice, release);
    assert w' == At(w, c, PcOf(w', c)) && PcOk(w, PcOf(w', c));
    CallerStays(w, c, PcOf(w', c));
  }

  /** Whoever's release call succeeds is the first: nobody has won the row or been paid for it before. */
  lemma UnsettledRowIsUnpaid(w: World, r: RowId, id: nat)
    requires Inv(w) && HasChainId(w, r, id) && id in w.chain.intents && w.chain.intents[id].status == Escrow.Funded
    ensures NotPaid(w.db, r) && (forall c :: c in w.callers ==> Winning(w.callers[c]) != Some(r))
  {
    forall i | 0 <= i < |w.db.payouts| ensures w.db.payouts[i].row != r {
      assert PayoutOk(w, w.db.payouts[i]);
    }
    forall c | c in w.callers ensures Winning(w.callers[c]) != Some(r) {
      assert PcOk(w, w.callers[c]);
    }
  }

  lemma ChainCallKeeps(w: World, inv: Escrow.Invocation, s: Escrow.State)
    requires Inv(w) && w.chain.vault !in inv.auth && Escrow.Try(w.chain, inv) == Ok(s)
    ensures Inv(w.(chain := s))
  {
    EscrowTheorems.TryEvolves(w.chain, inv, s);
    EscrowTheorems.TryKeepsTable(w.chain, inv, s);
    ChainGrows(w, s);
  }

  lemma ReleaseReadyKeeps(w: World, c: CallerId, r: RowId, id: nat, s: Escrow.State)
    requires Inv(w) && HasChainId(w, r, id) && Escrow.TryRelease(w.chain, id) == Ok(s)
    ensures Inv(At(w.(chain := s), c, ReleasePaid(r)))
  {
    ChainCallKeeps(w, Escrow.Invocation({}, Escrow.Release(id)), s);
    UnsettledRowIsUnpaid(w, r, id);
    CallerMoves(w.(chain := s), c, ReleasePaid(r));
  }

  lemma RevertReadyKeeps(w: World, c: CallerId, r: RowId, id: nat, s: Escrow.State)
    requires Inv(w) && Escrow.TryRefund(w.chain, id) == Ok(s)
    ensures Inv(At(w.(chain := s), c, RevertPaid(r)))
  {
    ChainCallKeeps(w, Escrow.Invocation({}, Escrow.Refund(id)), s);
    CallerStays(w.(chain := s), c, RevertPaid(r));
  }

  lemma SettleReadyKeeps(w: World, c: CallerId, r: RowId, id: nat, choice: Choice, release: bool)
    requires Inv(w)
    requires PcOf(w, c) == if release then ReleaseReady(r, id) else RevertReady(r, id)
    ensures Inv(StepSettleReady(w, c, r, id, choice, release))
  {
    hide Escrow.TryRelease, Escrow.TryRefund, RowsOk, TxsOk, Exclusive, PayoutsOk, EscrowRuns.TableInv;
    assert PcOk(w, PcOf(w, c));
    CallerStays(w, c, Idle);
    if release {
      if Escrow.TryRelease(w.chain, id).Ok? { ReleaseReadyKeeps(w, c, r, id, Escrow.TryRelease(w.chain, id).value); }
    } else {
      if Escrow.TryRefund(w.chain, id).Ok? { RevertReadyKeeps(w, c, r, id, Escrow.TryRefund(w.chain, id).value); }
    }
  }

  lemma {:induction false} SettlePaidKeeps(w: World, c: CallerId, r: RowId, release: bool)
    requires Inv(w) && PcOf(w, c) == if release then ReleasePaid(r) else RevertPaid(r)
    ensures Inv(At(w.(db := AddChainTx(w.db, r, if release then "release" else "refund", None)), c, SyncStart(r, release)))
  {
    assert release ==> PcOk(w, PcOf(w, c));
    var m := w.(db := AddChainTx(w.db, r, if release then "release" else "refund", None));
    LogGrows(w, m.db);
    CallerStays(m, c, SyncStart(r, release));
  }

  // ---- sync_status and cash-out ----

  lemma {:induction false} AnswerKeeps(w: World, c: CallerId, r: RowId, status: Status, pay: bool)
    requires Inv(w) && (pay ==> Winning(PcOf(w, c)) == Some(r) && SettledAs(w, r, Escrow.Released))
    ensures Inv(Answer(w, c, r, status, pay))
  {
    CallerStays(w, c, if pay && status == LocalDb.Released then CashOut(r) else Idle);
  }

  lemma {:induction false} SyncStartKeeps(w: World, c: CallerId, r: RowId, pay: bool)
    requires Inv(w) && PcOf(w, c) == SyncStart(r, pay)
    ensures Inv(StepSyncStart(w, c, r, pay))
  {
    assert pay ==> PcOk(w, PcOf(w, c));
    if r in w.db.rows {
      assert RowOk(w, r);
      match w.db.rows[r].chainId
      case None => AnswerKeeps(w, c, r, w.db.rows[r].status, pay);
      case Some(id) => CallerStays(w, c, SyncRead(r, w.db.rows[r].status, id, pay));
    } else {
      CallerStays(w, c, Idle);
    }
  }

  /** A status read from the chain that differs from the row's is a settlement: sync never has to re-approve. */
  lemma SyncReadKeeps(w: World, c: CallerId, r: RowId, status: Status, id: nat, pay: bool, choice: Choice)
    requires Inv(w) && PcOf(w, c) == SyncRead(r, status, id, pay)
    ensures Inv(StepSyncRead(w, c, r, status, id, pay, choice))
  {
    assert PcOk(w, PcOf(w, c));
    if choice.Fail? || id !in w.chain.intents {
      AnswerKeeps(w, c, r, status, pay);
    } else {
      var mapped := FromChain(w.chain.intents[id].status);
      if mapped == status {
        AnswerKeeps(w, c, r, mapped, pay);
      } else {
        CallerStays(w, c, SyncWrite(r, mapped, pay));
      }
    }
  }

  lemma SyncWriteKeeps(w: World, c: CallerId, r: RowId, status: Status, pay: bool)
    requires Inv(w) && PcOf(w, c) == SyncWrite(r, status, pay)
    ensures Inv(Answer(w.(db := SyncDb(w.db, r, status)), c, r, status, pay))
  {
    assert PcOk(w, PcOf(w, c));
    var m := w.(db := SyncDb(w.db, r, status));
    StatusWrite(w, m, r, status);
    RowChangeRemembers(w, m, r, m.db.rows[r]);
    AnswerKeeps(m, c, r, status, pay);
  }

  lemma {:induction false} CashOutKeeps(w: World, c: CallerId, r: RowId)
    requires Inv(w) && PcOf(w, c) == CashOut(r)
    ensures Inv(StepCashOut(w, c, r))
  {
    assert PcOk(w, PcOf(w, c));
    CallerStays(w, c, Idle);
    CallerStays(w, c, CashOutReady(r, w.db.rows[r].amount, w.db.rows[r].supplier));
  }

  lemma PayKeeps(w: World, c: CallerId, r: RowId, amount: int, address: Address)
    requires Inv(w) && PcOf(w, c) == CashOutReady(r, amount, address)
    ensures Inv(At(w.(db := AddPayout(w.db, r, amount, address)), c, Idle))
  {
    assert PcOk(w, PcOf(w, c));
    var m := At(w, c, Idle);
    CallerStays(w, c, Idle);
    PayoutAdded(m, m.(db := AddPayout(m.db, r, amount, address)), Payout(r, amount, address));
  }

  // ---- All together ----

  lemma ExecuteKeeps(w: World, c: CallerId, choice: Choice)
    requires Inv(w)
    requires var pc := PcOf(w, c);
             || pc.ExecStart? || pc.ExecRead? || pc.ExecClaimed? || pc.ExecWaiting? || pc.ExecRejected?
             || pc.ExecUnconfirmed? || pc.ExecConfirmed? || pc.ExecRecorded? || pc.ExecLinked? || pc.ExecVerified?
    ensures Inv(DoNext(w, c, choice))
  {
    hide Inv;
    assert PcOk(w, Idle);
    match PcOf(w, c)
    case ExecStart(r, dryRun) =>
      CallerStays(w, c, Idle);
      if r in w.db.rows {
        assert PcOk(w, ExecRead(r, w.db.rows[r]));
        CallerStays(w, c, ExecRead(r, w.db.rows[r]));
      }
    case ExecRead(r, snap) => ClaimKeeps(w, c, r, snap);
    case ExecClaimed(r, snap) => SubmitKeeps(w, c, r, snap, choice);
    case ExecWaiting(r, snap, x) => WaitKeeps(w, c, r, snap, x, choice);
    case ExecRejected(r) => ReopenKeeps(w, c, r);
    case ExecUnconfirmed(r, x) => UnconfirmedKeeps(w, c, r, x, choice);
    case ExecConfirmed(r, snap, x, id) => RecordKeeps(w, c, r, snap, x, id);
    case ExecRecorded(r, snap, x, id) => LinkKeeps(w, c, r, snap, x, id);
    case ExecLinked(r, snap, id) => ConfirmKeeps(w, c, r, snap, id, choice);
    case ExecVerified(r, snap, id) => ApproveKeeps(w, c, r, snap, id);
  }

  lemma ReleaseKeeps(w: World, c: CallerId, choice: Choice)
    requires Inv(w) && (PcOf(w, c).ReleaseStart? || PcOf(w, c).ReleaseReady? || PcOf(w, c).ReleasePaid?)
    ensures Inv(DoNext(w, c, choice))
  {
    hide Inv;
    match PcOf(w, c)
    case ReleaseStart(r) => SettleStartKeeps(w, c, r, choice, true);
    case ReleaseReady(r, id) => SettleReadyKeeps(w, c, r, id, choice, true);
    case ReleasePaid(r) => SettlePaidKeeps(w, c, r, true);
  }

  lemma {:induction false} RevertKeeps(w: World, c: CallerId, choice: Choice)
    requires Inv(w) && (PcOf(w, c).RevertStart? || PcOf(w, c).RevertReady? || PcOf(w, c).RevertPaid?)
    ensures Inv(DoNext(w, c, choice))
  {
    hide Inv;
    match PcOf(w, c)
    case RevertStart(r) => SettleStartKeeps(w, c, r, choice, false);
    case RevertReady(r, id) => SettleReadyKeeps(w, c, r, id, choice, false);
    case RevertPaid(r) => SettlePaidKeeps(w, c, r, false);
  }

  lemma SyncKeeps(w: World, c: CallerId, choice: Choice)
    requires Inv(w) && (PcOf(w, c).SyncStart? || PcOf(w, c).SyncRead? || PcOf(w, c).SyncWrite?)
    ensures Inv(DoNext(w, c, choice))
  {
    hide Inv;
    match PcOf(w, c)
    case SyncStart(r, pay) => SyncStartKeeps(w, c, r, pay);
    case SyncRead(r, status, id, pay) => SyncReadKeeps(w, c, r, status, id, pay, choice);
    case SyncWrite(r, status, pay) => SyncWriteKeeps(w, c, r, status, pay);
  }

  lemma CashKeeps(w: World, c: CallerId, choice: Choice)
    requires Inv(w) && (PcOf(w, c).CashOut? || PcOf(w, c).CashOutReady?)
    ensures Inv(DoNext(w, c, choice))
  {
    hide Inv;
    match PcOf(w, c)
    case CashOut(r) => CashOutKeeps(w, c, r);
    case CashOutReady(r, amount, address) => PayKeeps(w, c, r, amount, address);
  }

  lemma {:induction false} NextKeeps(w: World, c: CallerId, choice: Choice)
    requires Inv(w)
    ensures Inv(DoNext(w, c, choice))
  {
    hide Inv;
    var pc := PcOf(w, c);
    if pc.Idle? {
    } else if pc.SyncStart? || pc.SyncRead? || pc.SyncWrite? {
      SyncKeeps(w, c, choice);
    } else if pc.CashOut? || pc.CashOutReady? {
      CashKeeps(w, c, choice);
    } else if pc.ReleaseStart? || pc.ReleaseReady? || pc.ReleasePaid? {
      ReleaseKeeps(w, c, choice);
    } else if pc.RevertStart? || pc.RevertReady? || pc.RevertPaid? {
      RevertKeeps(w, c, choice);
    } else {
      ExecuteKeeps(w, c, choice);
    }
  }

  lemma {:induction false} LandKeeps(w: World, x: TxHash, auth: set<Address>)
    requires Inv(w) && w.chain.vault !in auth
    ensures Inv(DoLand(w, x, auth))
  {
    if x in w.txs && w.txs[x].state == Pending {
      var inv := Escrow.Invocation(auth, CreateCall(w.txs[x]));
      match Escrow.Try(w.chain, inv)
      case Ok(s) =>
        ChainCallKeeps(w, inv, s);
        assert s.counter !in w.chain.intents;
        forall y | y in w.txs ensures w.txs[y].state != Landed(s.counter) {
          assert TxOk(w, y);
        }
        TxSettles(w.(chain := s), DoLand(w, x, auth), x, Landed(s.counter));
      case Err(_) =>
        TxSettles(w, DoLand(w, x, auth), x, Dead);
    }
  }

  lemma {:induction false} OnChainKeeps(w: World, inv: Escrow.Invocation)
    requires Inv(w) && w.chain.vault !in inv.auth
    ensures Inv(w.(chain := Escrow.Apply(w.chain, inv)))
  {
    match Escrow.Try(w.chain, inv)
    case Ok(s) =>
      ChainCallKeeps(w, inv, s);
    case Err(_) =>
  }

  lemma {:induction false} InsertKeeps(w: World, r: RowId, row: Row, codes: seq<string>)
    requires Inv(w)
    ensures Inv(Do(w, Insert(r, row, codes)))
  {
    if CanInsert(w.db, r, row) && row.status in {Proposed, Held} && row.chainId == None {
      RowInserted(w, w.(db := RecordIntent(w.db, r, row, codes)), r, row, codes);
    }
  }

  lemma DropKeeps(w: World, x: TxHash)
    requires Inv(w)
    ensures Inv(DoDrop(w, x))
  {
    if x in w.txs && w.txs[x].state == Pending {
      TxSettles(w, DoDrop(w, x), x, Dead);
    }
  }

  lemma {:induction false} DoKeeps(w: World, step: Step)
    requires Inv(w) && Fair(w.chain.vault, step)
    ensures Inv(Do(w, step))
  {
    hide Inv;
    match step
    case Insert(r, row, codes) => InsertKeeps(w, r, row, codes);
    case Begin(c, job) => CallerStays(w, c, Start(job));
    case Next(c, choice) => NextKeeps(w, c, choice);
    case Crash(c) => CallerStays(w, c, Idle);
    case Land(x, auth) => LandKeeps(w, x, auth);
    case Drop(x) => DropKeeps(w, x);
    case OnChain(inv) => OnChainKeeps(w, inv);
  }
}
