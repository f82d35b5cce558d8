/**
How the local status of a row moves: what each step makes of it, exactly when it
falls, that in serialised sessions a closed row stays closed, and what becomes
of a claim that nobody holds any more.
*/
module StatusLaws {
  import Escrow
  import opened Ledger
  import opened LocalDb
  import opened Protocol
  import opened ProtocolInv
  import opened ProtocolSteps
  import opened ProtocolTheorems
  import opened Serial
  import opened Wrappers

  predicate Closed(status: Status) {
    status in {LocalDb.Released, Reverted}
  }

  /** Open, then escrowed, then closed. */
  function Rank(status: Status): nat {
    match status
    case Proposed => 0
    case Held => 0
    case Escrowed => 1
    case Released => 2
    case Reverted => 2
  }

  // ---- One caller's step ----

  /** What the caller's next step makes of the status of its own row. */
  function Rewritten(row: Row, pc: Pc): Status {
    match pc
    case ExecRead(_, _) => if row.status == Proposed then Escrowed else row.status
    case ExecRejected(_) => if row.status == Escrowed && row.chainId == None then Proposed else row.status
    case ExecVerified(_, _, _) => Escrowed
    case SyncWrite(_, status, _) => if status in {Escrowed, LocalDb.Released, Reverted} then status else row.status
    case _ => row.status
  }

  ghost predicate Moves(w: World, w': World, pc: Pc, r: RowId)
    requires r in w.db.rows
  {
    && r in w'.db.rows
    && w'.db.rows[r].status == if WritesRow(pc) && pc.r == r then Rewritten(w.db.rows[r], pc) else w.db.rows[r].status
  }

  lemma WriterMovesStatus(w: World, c: CallerId, choice: Choice, r: RowId)
    requires r in w.db.rows && WritesRow(PcOf(w, c)) && !PcOf(w, c).SyncWrite?
    ensures Moves(w, DoNext(w, c, choice), PcOf(w, c), r)
  {
  }

  lemma SyncMovesStatus(w: World, c: CallerId, choice: Choice, r: RowId)
    requires r in w.db.rows && PcOf(w, c).SyncWrite?
    ensures Moves(w, DoNext(w, c, choice), PcOf(w, c), r)
  {
  }

  lemma NextMovesStatus(w: World, c: CallerId, choice: Choice, r: RowId)
    requires r in w.db.rows
    ensures Moves(w, DoNext(w, c, choice), PcOf(w, c), r)
  {
    hide DoNext, Rewritten;
    if !WritesRow(PcOf(w, c)) {
      OthersLeaveRows(w, c, choice);
    } else if PcOf(w, c).SyncWrite? {
      SyncMovesStatus(w, c, choice, r);
    } else {
      WriterMovesStatus(w, c, choice, r);
    }
  }

  lemma OthersLeaveRows(w: World, c: CallerId, choice: Choice)
    requires !WritesRow(PcOf(w, c))
    ensures DoNext(w, c, choice).db.rows == w.db.rows
  {
    hide Escrow.TryRelease, Escrow.TryRefund, FromChain;
  }

  // ---- Any step ----

  /** Execute's last write meets a row that a sync has closed. */
  ghost predicate Reopens(w: World, step: Step, r: RowId) {
    && step.Next? && PcOf(w, step.c).ExecVerified? && PcOf(w, step.c).r == r
    && r in w.db.rows && Closed(w.db.rows[r].status)
  }

  /** The holder of a claim whose submission failed gives it back. */
  ghost predicate GivesBack(w: World, step: Step, r: RowId) {
    step.Next? && PcOf(w, step.c).ExecRejected? && PcOf(w, step.c).r == r
  }

  lemma AsideLeavesRow(w: World, step: Step, r: RowId)
    requires r in w.db.rows && !step.Next?
    ensures r in Do(w, step).db.rows && Do(w, step).db.rows[r] == w.db.rows[r]
  {
    hide Escrow.Try, Escrow.Apply, DoNext;
  }

  /** A row a caller is about to close is not closed the other way already. */
  lemma SyncAgrees(w: World, c: CallerId)
    requires Inv(w) && PcOf(w, c).SyncWrite? && PcOf(w, c).r in w.db.rows
    ensures Closed(PcOf(w, c).status)
    ensures Closed(w.db.rows[PcOf(w, c).r].status) ==> w.db.rows[PcOf(w, c).r].status == PcOf(w, c).status
  {
    assert PcOk(w, PcOf(w, c));
    assert RowOk(w, PcOf(w, c).r);
  }

  lemma RejectedIsClaimed(w: World, c: CallerId)
    requires Inv(w) && PcOf(w, c).ExecRejected?
    ensures Claimed(w, PcOf(w, c).r)
  {
    assert PcOk(w, PcOf(w, c));
  }

  lemma WriterRowExists(w: World, c: CallerId, r: RowId)
    requires Inv(w) && r in w.db.rows && Closed(w.db.rows[r].status)
    requires WritesRow(PcOf(w, c)) && PcOf(w, c).r == r && !PcOf(w, c).ExecVerified?
    ensures Rewritten(w.db.rows[r], PcOf(w, c)) == w.db.rows[r].status
  {
    hide Inv;
    if PcOf(w, c).SyncWrite? { SyncAgrees(w, c); }
  }

  /**
  Under full interleaving a released or reverted row changes its status exactly
  when a caller makes execute's last write on it, and then it reads escrowed
  again.  No other step of anybody touches it.
  */
  lemma ClosedReopensExactly(w: World, step: Step, r: RowId)
    requires Inv(w) && r in w.db.rows && Closed(w.db.rows[r].status)
    ensures r in Do(w, step).db.rows
    ensures Do(w, step).db.rows[r].status != w.db.rows[r].status <==>
      step.Next? && PcOf(w, step.c).ExecVerified? && PcOf(w, step.c).r == r
    ensures Do(w, step).db.rows[r].status in {w.db.rows[r].status, Escrowed}
  {
    hide Inv, DoNext;
    if !step.Next? {
      AsideLeavesRow(w, step, r);
    } else {
      NextMovesStatus(w, step.c, step.choice, r);
      if WritesRow(PcOf(w, step.c)) && PcOf(w, step.c).r == r && !PcOf(w, step.c).ExecVerified? {
        WriterRowExists(w, step.c, r);
      }
    }
  }

  /** The status of a row falls exactly there, and where a claim is given back after a submission that came to nothing. */
  lemma StatusFallsExactly(w: World, step: Step, r: RowId)
    requires Inv(w) && r in w.db.rows
    ensures r in Do(w, step).db.rows
    ensures Rank(Do(w, step).db.rows[r].status) < Rank(w.db.rows[r].status) <==> Reopens(w, step, r) || GivesBack(w, step, r)
  {
    hide Inv, DoNext;
    if Closed(w.db.rows[r].status) {
      ClosedReopensExactly(w, step, r);
      if GivesBack(w, step, r) { RejectedIsClaimed(w, step.c); }
    } else if !step.Next? {
      AsideLeavesRow(w, step, r);
    } else {
      NextMovesStatus(w, step.c, step.choice, r);
      if GivesBack(w, step, r) { RejectedIsClaimed(w, step.c); }
      if PcOf(w, step.c).SyncWrite? && PcOf(w, step.c).r == r { SyncAgrees(w, step.c); }
    }
  }

  // ---- Serialised sessions ----

  lemma SerialStepKeepsClosed(w: World, caps: Caps, step: Step, r: RowId)
    requires Inv(w) && SerialInv(w, caps) && r in w.db.rows && Closed(w.db.rows[r].status)
    ensures r in SerialDo(w, caps, step).db.rows && SerialDo(w, caps, step).db.rows[r].status == w.db.rows[r].status
  {
    hide Inv, Do, WithinCaps, Audit;
    ClosedReopensExactly(w, step, r);
    if step.Next? { CallerUndisturbed(w, caps, step.c); }
  }

  /** One call at a time, a released or reverted row keeps its status for good, whatever fails, crashes or lands late. */
  lemma {:induction false} SerialKeepsClosed(w: World, caps: Caps, steps: seq<Step>, r: RowId)
    requires Inv(w) && SerialInv(w, caps) && FairRun(w.chain.vault, steps)
    requires r in w.db.rows && Closed(w.db.rows[r].status)
    ensures r in SerialRun(w, caps, steps).db.rows && SerialRun(w, caps, steps).db.rows[r].status == w.db.rows[r].status
  {
    hide Inv, SerialInv, SerialDo;
    if steps != [] {
      var front := steps[..|steps| - 1];
      SerialKeepsClosed(w, caps, front, r);
      SerialRunKeeps(w, caps, front);
      SerialStepKeepsClosed(SerialRun(w, caps, front), caps, steps[|steps| - 1], r);
    }
  }

  // ---- Stranded claims ----

  ghost predicate Unheld(w: World, r: RowId) {
    forall c :: c in w.callers ==> Holding(w.callers[c]) != Some(r)
  }

  /** Claimed, not linked, and nobody is on the way to link or reopen it. */
  ghost predicate Stranded(w: World, r: RowId) {
    Claimed(w, r) && Unheld(w, r)
  }

  /** A step that takes the only holder of `r` out of play: it crashes, or gives up waiting. */
  ghost predicate Strands(w: World, step: Step, r: RowId) {
    match step
    case Crash(c) => Holding(PcOf(w, c)) == Some(r)
    case Next(c, choice) => choice == Fail && PcOf(w, c).ExecWaiting? && PcOf(w, c).r == r
    case _ => false
  }

  /** Nobody who can still write the row has any business with an unlinked claim. */
  lemma NoWriterLeft(w: World, c: CallerId, r: RowId)
    requires Inv(w) && Stranded(w, r) && WritesRow(PcOf(w, c)) && PcOf(w, c).r == r
    ensures PcOf(w, c).ExecRead?
  {
    assert PcOk(w, PcOf(w, c));
  }

  predicate InExecute(pc: Pc) {
    pc.ExecRead? || pc.ExecRejected? || pc.ExecRecorded? || pc.ExecVerified? || Executing(pc)
  }

  lemma ExecuteHolds(w: World, c: CallerId, choice: Choice, r: RowId)
    requires InExecute(PcOf(w, c)) && Holding(PcOf(DoNext(w, c, choice), c)) == Some(r)
    ensures Holding(PcOf(w, c)) == Some(r) || (PcOf(w, c).ExecRead? && PcOf(w, c).r == r && Claimable(w.db, r))
  {
    hide ClaimEscrow, ReleaseEscrowClaim, SetChainIntent, RecordApproved, AddChainTx;
  }

  lemma OthersHoldNothing(w: World, c: CallerId, choice: Choice)
    requires !InExecute(PcOf(w, c))
    ensures Holding(PcOf(DoNext(w, c, choice), c)) == None
  {
    hide Escrow.TryRelease, Escrow.TryRefund, FromChain, AddChainTx, AddPayout, SyncDb;
  }

  lemma NextHolds(w: World, c: CallerId, choice: Choice, r: RowId)
    requires Holding(PcOf(DoNext(w, c, choice), c)) == Some(r)
    ensures Holding(PcOf(w, c)) == Some(r) || (PcOf(w, c).ExecRead? && PcOf(w, c).r == r && Claimable(w.db, r))
  {
    hide DoNext;
    if InExecute(PcOf(w, c)) {
      ExecuteHolds(w, c, choice, r);
    } else {
      OthersHoldNothing(w, c, choice);
    }
  }

  lemma StrandedByNext(w: World, c: CallerId, choice: Choice, r: RowId)
    requires Inv(w) && Stranded(w, r)
    ensures var w' := DoNext(w, c, choice); Stranded(w', r) && w'.db.rows[r] == w.db.rows[r]
  {
    hide Inv, DoNext;
    var w' := DoNext(w, c, choice);
    RowStays(w, c, choice, r);
    if PcOf(w, c) == Idle {
      IdleDoesNothing(w, c, choice);
    } else {
      OthersWait(w, c, choice);
      if c in w'.callers && Holding(w'.callers[c]) == Some(r) { NextHolds(w, c, choice, r); }
    }
  }

  lemma IdleDoesNothing(w: World, c: CallerId, choice: Choice)
    requires PcOf(w, c) == Idle
    ensures DoNext(w, c, choice) == w
  {
  }

  lemma RowStays(w: World, c: CallerId, choice: Choice, r: RowId)
    requires Inv(w) && Stranded(w, r)
    ensures r in DoNext(w, c, choice).db.rows && DoNext(w, c, choice).db.rows[r] == w.db.rows[r]
  {
    hide Inv, DoNext;
    if !WritesRow(PcOf(w, c)) {
      OthersLeaveRows(w, c, choice);
    } else {
      if PcOf(w, c).r == r { NoWriterLeft(w, c, r); }
      WriterLeavesRow(w, c, choice, r);
    }
  }

  lemma WriterLeavesRow(w: World, c: CallerId, choice: Choice, r: RowId)
    requires WritesRow(PcOf(w, c)) && Claimed(w, r) && (PcOf(w, c).r == r ==> PcOf(w, c).ExecRead?)
    ensures r in DoNext(w, c, choice).db.rows && DoNext(w, c, choice).db.rows[r] == w.db.rows[r]
  {
  }

  lemma StrandedAside(w: World, step: Step, r: RowId)
    requires Stranded(w, r) && !step.Next?
    ensures Stranded(Do(w, step), r)
  {
    hide Escrow.Try, Escrow.Apply, DoNext;
    AsideLeavesRow(w, step, r);
  }

  lemma StrandedStep(w: World, step: Step, r: RowId)
    requires Inv(w) && Stranded(w, r)
    ensures Stranded(Do(w, step), r) && Do(w, step).db.rows[r] == w.db.rows[r]
  {
    hide Inv, DoNext, Stranded;
    if step.Next? {
      StrandedByNext(w, step.c, step.choice, r);
    } else {
      StrandedAside(w, step, r);
      assert r in w.db.rows by { StrandedExists(w, r); }
      AsideLeavesRow(w, step, r);
    }
  }

  lemma StrandedExists(w: World, r: RowId)
    requires Stranded(w, r)
    ensures r in w.db.rows && w.db.rows[r].status == Escrowed && w.db.rows[r].chainId == None
  {
  }

  /**
  A stranded claim is stranded for good: over every run the row stays escrowed
  and unlinked, so it is never claimed, linked, synced or paid again, and its
  amount counts to its day's total for ever, even if its transaction lands.
  */
  lemma {:induction false} StrandedForGood(w: World, steps: seq<Step>, r: RowId)
    requires Inv(w) && FairRun(w.chain.vault, steps) && Stranded(w, r)
    ensures Stranded(Run(w, steps), r) && Run(w, steps).db.rows[r] == w.db.rows[r]
  {
    hide Inv, Do, Stranded;
    if steps != [] {
      var front := steps[..|steps| - 1];
      StrandedForGood(w, front, r);
      RunKeeps(w, front);
      StrandedStep(Run(w, front), steps[|steps| - 1], r);
    }
  }

  // ---- How a claim comes to be stranded ----

  /** Caller `d` is still there, and where it was unless it is the one that moved. */
  ghost predicate Stays(w: World, w': World, c: CallerId, d: CallerId)
    requires d in w.callers
  {
    d in w'.callers && (d != c ==> w'.callers[d] == w.callers[d])
  }

  lemma ExecuteStays(w: World, c: CallerId, choice: Choice, d: CallerId)
    requires InExecute(PcOf(w, c)) && d in w.callers
    ensures Stays(w, DoNext(w, c, choice), c, d)
  {
    hide ClaimEscrow, ReleaseEscrowClaim, SetChainIntent, RecordApproved, AddChainTx;
  }

  lemma OthersStay(w: World, c: CallerId, choice: Choice, d: CallerId)
    requires !InExecute(PcOf(w, c)) && d in w.callers
    ensures Stays(w, DoNext(w, c, choice), c, d)
  {
    hide Escrow.TryRelease, Escrow.TryRefund, FromChain, AddChainTx, AddPayout, SyncDb;
  }

  lemma CallerStaysPut(w: World, c: CallerId, choice: Choice, d: CallerId)
    requires d in w.callers
    ensures Stays(w, DoNext(w, c, choice), c, d)
  {
    hide DoNext;
    if InExecute(PcOf(w, c)) {
      ExecuteStays(w, c, choice, d);
    } else {
      OthersStay(w, c, choice, d);
    }
  }

  lemma HolderNext(w: World, c: CallerId, choice: Choice, r: RowId)
    requires PcOk(w, PcOf(w, c)) && Holding(PcOf(w, c)) == Some(r)
    ensures var w' := DoNext(w, c, choice);
            if Strands(w, Next(c, choice), r) then Claimed(w', r) && Holding(PcOf(w', c)) != Some(r)
            else Holding(PcOf(w', c)) == Some(r) || !Claimed(w', r)
  {
  }

  lemma BystanderNext(w: World, c: CallerId, choice: Choice, r: RowId)
    requires Inv(w) && Holding(PcOf(w, c)) != Some(r) && Claimed(DoNext(w, c, choice), r)
    ensures Claimed(w, r) || Holding(PcOf(DoNext(w, c, choice), c)) == Some(r)
  {
    hide DoNext;
    if !WritesRow(PcOf(w, c)) {
      OthersLeaveRows(w, c, choice);
    } else {
      assert PcOk(w, PcOf(w, c));
      BystanderWrites(w, c, choice, r);
    }
  }

  lemma BystanderWrites(w: World, c: CallerId, choice: Choice, r: RowId)
    requires PcOk(w, PcOf(w, c)) && WritesRow(PcOf(w, c)) && Holding(PcOf(w, c)) != Some(r)
    requires Claimed(DoNext(w, c, choice), r)
    ensures Claimed(w, r) || Holding(PcOf(DoNext(w, c, choice), c)) == Some(r)
  {
  }

  lemma NextStrandsExactly(w: World, c: CallerId, choice: Choice, r: RowId)
    requires Inv(w) && !Stranded(w, r)
    ensures Stranded(DoNext(w, c, choice), r) <==> Strands(w, Next(c, choice), r)
  {
    hide DoNext, PcOk, RowsOk, TxsOk, PayoutsOk;
    var w' := DoNext(w, c, choice);
    if PcOf(w, c) == Idle {
      IdleDoesNothing(w, c, choice);
    } else if Holding(PcOf(w, c)) == Some(r) {
      HolderNext(w, c, choice, r);
      OthersWait(w, c, choice);
      CallerStaysPut(w, c, choice, c);
    } else {
      if Claimed(w', r) { BystanderNext(w, c, choice, r); }
      CallerStaysPut(w, c, choice, c);
      if d :| d in w.callers && Holding(w.callers[d]) == Some(r) { CallerStaysPut(w, c, choice, d); }
    }
  }

  lemma AsideStrandsExactly(w: World, step: Step, r: RowId)
    requires Inv(w) && !Stranded(w, r) && !step.Next?
    ensures Stranded(Do(w, step), r) <==> Strands(w, step, r)
  {
    hide Escrow.Try, Escrow.Apply, DoNext, RowsOk, TxsOk, PayoutsOk;
    if step.Crash? && Holding(PcOf(w, step.c)) == Some(r) {
      assert PcOk(w, w.callers[step.c]);
    } else if d :| d in w.callers && Holding(w.callers[d]) == Some(r) {
      assert d in Do(w, step).callers && Do(w, step).callers[d] == w.callers[d];
    }
  }

  /** A claim becomes stranded exactly when its holder crashes, or gives up on a submission it has not seen the end of. */
  lemma StrandedExactly(w: World, step: Step, r: RowId)
    requires Inv(w) && !Stranded(w, r)
    ensures Stranded(Do(w, step), r) <==> Strands(w, step, r)
  {
    hide Inv, DoNext, Stranded, Strands;
    if step.Next? {
      NextStrandsExactly(w, step.c, step.choice, r);
    } else {
      AsideStrandsExactly(w, step, r);
    }
  }
}
