/**
What the protocol's results come to for the agent's own calls, made one at a
time: every call keeps the protocol invariant, the daily cap and the audit log,
and a call that failed before submitting leaves no trace.
*/
module FlowTheorems {
  import Engine
  import Escrow
  import opened Flow
  import opened FlowSteps
  import Guards
  import opened Ledger
  import opened LocalDb
  import Pipeline
  import opened PipelineTheorems
  import opened Protocol
  import opened ProtocolInv
  import opened ProtocolTheorems
  import opened Repository
  import opened Serial
  import opened Sums
  import opened Wrappers

  // ---- A flow call is a serial run ----

  lemma OwnKeepsAlone(w0: World, w: World, caps: Caps, c: CallerId, step: Step)
    requires Own(w0, step) && w0.callers.Keys == {c} && w.callers.Keys == {c}
    ensures SerialDo(w, caps, step) == Do(w, step) && Do(w, step).callers.Keys == {c}
  {
    match step {
      case Begin(b, job) => assert b == c && (Quiet(w) <==> PcOf(w, c) == Idle);
      case Next(b, choice) => NextKeepsAlone(w, c, choice);
      case Land(x, auth) => LandKeepsCallers(w, x, auth);
    }
  }

  lemma NextKeepsAlone(w: World, c: CallerId, choice: Choice)
    requires w.callers.Keys == {c}
    ensures DoNext(w, c, choice).callers.Keys == {c}
  {
    hide Escrow.TryRelease, Escrow.TryRefund, ClaimEscrow, ReleaseEscrowClaim, AddChainTx, SetChainIntent, RecordApproved,
         SyncDb, AddPayout, FromChain, Claimable;
  }

  lemma LandKeepsCallers(w: World, x: TxHash, auth: set<Address>)
    ensures DoLand(w, x, auth).callers == w.callers
  {
    hide Escrow.Try;
  }

  lemma {:induction false} OwnRunIsSerial(w0: World, caps: Caps, c: CallerId, steps: seq<Step>)
    requires w0.callers.Keys == {c} && (forall i :: 0 <= i < |steps| ==> Own(w0, steps[i]))
    ensures SerialRun(w0, caps, steps) == Run(w0, steps) && Run(w0, steps).callers.Keys == {c}
  {
    hide SerialDo, Do, Own;
    if steps != [] {
      var front := steps[..|steps| - 1];
      OwnRunIsSerial(w0, caps, c, front);
      OwnKeepsAlone(w0, Run(w0, front), caps, c, steps[|steps| - 1]);
    }
  }

  /** Whatever a flow call of one caller came to, it kept the invariant, the caps and the log, and took nothing back. */
  lemma FlowKeeps(w0: World, caps: Caps, c: CallerId, steps: seq<Step>, w: World)
    requires Led(true, w0, steps, w) && w0.callers.Keys == {c}
    requires Inv(w0) && SerialInv(w0, caps)
    ensures Inv(w) && SerialInv(w, caps) && DbEvolves(w0.db, w.db)
  {
    hide Inv, SerialInv, Own, DbEvolves;
    OwnRunIsSerial(w0, caps, c, steps);
    SerialRunKeeps(w0, caps, steps);
    RunEvolves(w0, steps);
  }

  // ---- Failed, lost and repeated calls ----

  /** A proposed row that could not be submitted is exactly as it was, ready for a clean retry. */
  lemma RejectedLeavesNoTrace(w: World, r: RowId)
    requires Inv(w) && Claimable(w.db, r)
    ensures ReleaseEscrowClaim(ClaimEscrow(w.db, r), r) == w.db
  {
    ProposedIsClean(w, r);
    assert w.db.rows[r := w.db.rows[r]] == w.db.rows;
  }

  /** After every fair run, what execute answers about a row it claims is true of the pool, the chain and the row. */
  lemma {:induction false} AnswersAreTrue(
    w: World, steps: seq<Step>, r: RowId, sme: Address, net: Network, hashKnown: bool, readable: bool)
    requires Inv(w) && FairRun(w.chain.vault, steps) && Claimable(Run(w, steps).db, r)
    ensures var v := Run(w, steps);
            var (chain', txs', out) := Submitted(v.chain, v.txs, r, sme, v.db.rows[r], net);
            var db' := AfterSubmission(ClaimEscrow(v.db, r), chain', r, v.db.rows[r], out, hashKnown, readable);
            && r in db'.rows
            && Truthful(v.db, v.chain, v.txs, db', chain', txs', r, hashKnown, AnswerOf(chain', v.db.rows[r], out, readable))
  {
    hide Inv, FairRun, Truthful, Submitted, AfterSubmission, AnswerOf, Run;
    var v := Run(w, steps);
    RunKeeps(w, steps);
    ProposedIsClean(v, r);
    ReachedIsNumbered(v);
    AnswerIsTrue(v.db, v.chain, v.txs, r, sme, net, hashKnown, readable);
  }

  lemma ReachedIsNumbered(w: World)
    requires Inv(w)
    ensures Numbered(w.chain)
  {
  }

  /** Anything but a rejection ends the chance of a second submission: the row can no longer be claimed. */
  lemma SubmittedIsNotRetried(
    db: Db, chain: Escrow.State, r: RowId, snap: Row, out: Submission, hashKnown: bool, readable: bool)
    requires Claimable(db, r) && out != NoEscrow
    ensures !Claimable(AfterSubmission(ClaimEscrow(db, r), chain, r, snap, out, hashKnown, readable), r)
  {
  }

  /** The chain pays once: after either settlement, neither is possible. */
  lemma SettledOnce(chain: Escrow.State, id: nat, release: bool, again: bool)
    requires TrySettle(chain, id, release).Ok?
    ensures TrySettle(TrySettle(chain, id, release).value, id, again).Err?
  {
  }

  // ---- Proposals enter the session as admitted inserts ----

  /** A run of the pipeline with the engine on is one admitted insert of the serial session. */
  lemma {:induction false} EngineAdmits(a: Attempt, w: World, codes: seq<string>)
    requires Stored(a) && a.config.policyEngine && w.db == a.before && codes == a.result.value.codes
    ensures a.newId in a.after.rows
    ensures SerialDo(w, Caps(a.rules.capPerTx, a.rules.capDaily), Insert(a.newId, NewRow(a), codes)) == w.(db := a.after)
  {
    hide Engine.Broken, DayTotal, Pipeline.Presents;
    StoredRow(a);
    EngineBounds(a);
    StoredCodes(a);
  }

  lemma {:induction false} StoredCodes(a: Attempt)
    requires Stored(a)
    ensures a.newId in a.after.rows && CanInsert(a.before, a.newId, NewRow(a))
    ensures a.after == RecordIntent(a.before, a.newId, NewRow(a), a.result.value.codes)
  {
    hide Guards.Verdict, Guards.Said, Guards.Distinct, Pipeline.Chain, Pipeline.Presents;
  }

  // ---- The one way past the cap ----

  ghost predicate Recommits(w: World, c: CallerId, day: nat) {
    && PcOf(w, c).ExecVerified? && PcOf(w, c).r in w.db.rows
    && w.db.rows[PcOf(w, c).r].status == Reverted && w.db.rows[PcOf(w, c).r].day == day
  }

  lemma RewriteMoves(db: Db, d': Db, r: RowId, row: Row, day: nat)
    requires r in db.rows && d'.rows == db.rows[r := row] && SameTerms(row, db.rows[r])
    ensures DayTotal(d', day) == DayTotal(db, day)
      + (if row.day != day then 0
         else (if Engine.Counted(row.status) then row.amount else 0) - (if Engine.Counted(db.rows[r].status) then row.amount else 0))
  {
    SumUpdate(db.rows, DayWeight(day), r, row);
  }

  /** A write of row `r` that commits it anew exactly when `recommits`. */
  ghost predicate Rewrites(db: Db, d': Db, r: RowId, recommits: bool) {
    && r in db.rows && r in d'.rows && d'.rows == db.rows[r := d'.rows[r]] && SameTerms(d'.rows[r], db.rows[r])
    && (Engine.Counted(d'.rows[r].status) && !Engine.Counted(db.rows[r].status) <==> recommits)
  }

  lemma ExecWriterRow(w: World, c: CallerId, choice: Choice)
    requires PcOk(w, PcOf(w, c)) && (PcOf(w, c).ExecRead? || PcOf(w, c).ExecRejected? || PcOf(w, c).ExecRecorded?)
    requires DoNext(w, c, choice).db.rows != w.db.rows
    ensures Rewrites(w.db, DoNext(w, c, choice).db, PcOf(w, c).r, false)
  {
  }

  lemma ApproveWriterRow(w: World, c: CallerId, choice: Choice)
    requires PcOk(w, PcOf(w, c)) && RowsOk(w) && PcOf(w, c).ExecVerified?
    ensures Rewrites(w.db, DoNext(w, c, choice).db, PcOf(w, c).r, w.db.rows[PcOf(w, c).r].status == Reverted)
  {
    assert RowOk(w, PcOf(w, c).r);
  }

  lemma SyncWriterRow(w: World, c: CallerId, choice: Choice)
    requires PcOk(w, PcOf(w, c)) && RowsOk(w) && PcOf(w, c).SyncWrite?
    ensures Rewrites(w.db, DoNext(w, c, choice).db, PcOf(w, c).r, false)
  {
    assert RowOk(w, PcOf(w, c).r);
  }

  /** What the five writes of a row do to it. */
  lemma WriterRow(w: World, c: CallerId, choice: Choice)
    requires Inv(w) && WritesRow(PcOf(w, c)) && DoNext(w, c, choice).db.rows != w.db.rows
    ensures PcOf(w, c).r in w.db.rows
    ensures Rewrites(w.db, DoNext(w, c, choice).db, PcOf(w, c).r,
                     PcOf(w, c).ExecVerified? && w.db.rows[PcOf(w, c).r].status == Reverted)
  {
    hide DoNext, RowsOk, Rewrites, PcOk;
    assert PcOk(w, PcOf(w, c)) by { IdleIsOk(w); }
    RowsWritten(w, c, choice);
    if PcOf(w, c).ExecVerified? {
      ApproveWriterRow(w, c, choice);
    } else if PcOf(w, c).SyncWrite? {
      SyncWriterRow(w, c, choice);
    } else {
      ExecWriterRow(w, c, choice);
    }
  }

  lemma IdleIsOk(w: World)
    ensures PcOk(w, Idle)
  {
  }

  lemma WriterMoves(w: World, c: CallerId, choice: Choice, day: nat)
    requires Inv(w) && WritesRow(PcOf(w, c)) && DoNext(w, c, choice).db.rows != w.db.rows
    requires PcOf(w, c).r in w.db.rows && w.db.rows[PcOf(w, c).r].amount > 0
    ensures DayTotal(DoNext(w, c, choice).db, day) > DayTotal(w.db, day) <==> Recommits(w, c, day)
  {
    hide DayTotal, Inv, DoNext;
    var r, d' := PcOf(w, c).r, DoNext(w, c, choice).db;
    WriterRow(w, c, choice);
    RewriteMoves(w.db, d', r, d'.rows[r], day);
  }

  /**
  Under full interleaving a caller's step adds to a day's committed total exactly
  when it is execute's last write on an intent that was refunded meanwhile: that
  write commits the reverted amount again.  No other step ever does.
  */
  lemma OnlyApprovalRecommits(w: World, c: CallerId, choice: Choice, day: nat)
    requires Inv(w) && (forall r :: r in w.db.rows ==> w.db.rows[r].amount > 0)
    ensures DayTotal(DoNext(w, c, choice).db, day) > DayTotal(w.db, day) <==> Recommits(w, c, day)
  {
    hide DayTotal, Inv;
    if DoNext(w, c, choice).db.rows == w.db.rows {
      SameDay(w.db, DoNext(w, c, choice).db, day);
      if Recommits(w, c, day) { ApprovalWrites(w, c, choice, day); }
    } else {
      RowsWritten(w, c, choice);
      WriterMoves(w, c, choice, day);
    }
  }

  lemma ApprovalWrites(w: World, c: CallerId, choice: Choice, day: nat)
    requires Recommits(w, c, day)
    ensures DoNext(w, c, choice).db.rows != w.db.rows
  {
    var r := PcOf(w, c).r;
    assert DoNext(w, c, choice).db.rows[r].status == Escrowed;
  }

  lemma RowsWritten(w: World, c: CallerId, choice: Choice)
    requires DoNext(w, c, choice).db.rows != w.db.rows
    ensures WritesRow(PcOf(w, c)) && PcOf(w, c).r in w.db.rows
  {
    hide Escrow.TryRelease, Escrow.TryRefund, FromChain;
  }
}
