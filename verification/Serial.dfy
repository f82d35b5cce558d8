/**
Serialised sessions: at most one flow call at a time, proposals admitted by the
policy engine.  Then the daily cap holds over whole runs and the audit log says
each thing once.
*/
module Serial {
  import opened Engine
  import Escrow
  import opened Ledger
  import opened LocalDb
  import opened Protocol
  import opened ProtocolInv
  import opened ProtocolSteps
  import opened ProtocolTheorems
  import opened Repository
  import opened Sums
  import opened Wrappers

  datatype Caps = Caps(perTx: int, daily: int)

  /** What the engine lets in: payable, within the cap, and with room left on its day. */
  ghost predicate Admits(db: Db, row: Row, caps: Caps) {
    0 < row.amount <= caps.perTx && DayTotal(db, row.day) + row.amount <= caps.daily
  }

  ghost predicate Quiet(w: World) {
    forall c :: c in w.callers ==> w.callers[c] == Idle
  }

  /** A call begins only when nobody else is running, and only admitted proposals are stored. */
  ghost function SerialDo(w: World, caps: Caps, step: Step): World {
    if step.Begin? && !Quiet(w) then w
    else if step.Insert? && !Admits(w.db, step.row, caps) then w
    else Do(w, step)
  }

  ghost function SerialRun(w: World, caps: Caps, steps: seq<Step>): World {
    if steps == [] then w else SerialDo(SerialRun(w, caps, steps[..|steps| - 1]), caps, steps[|steps| - 1])
  }

  // ---- The invariant ----

  function Count(decisions: seq<Decision>, r: RowId, kind: DecisionKind): nat {
    if decisions == [] then 0
    else
      var last := decisions[|decisions| - 1];
      Count(decisions[..|decisions| - 1], r, kind) + if last.row == Some(r) && last.kind == kind then 1 else 0
  }

  ghost predicate WithinCaps(db: Db, caps: Caps) {
    && (forall day :: DayTotal(db, day) <= caps.daily)
    && (forall r :: r in db.rows ==> 0 < db.rows[r].amount <= caps.perTx)
  }

  /** One creating decision per row, at most one approval and none before the link, one reversal exactly when reverted. */
  ghost predicate AuditOf(db: Db, r: RowId)
    requires r in db.rows
  {
    && Count(db.decisions, r, WasProposed) + Count(db.decisions, r, WasHeld) == 1
    && Count(db.decisions, r, Approved) <= (if db.rows[r].chainId == None then 0 else 1)
    && Count(db.decisions, r, WasReverted) == (if db.rows[r].status == Reverted then 1 else 0)
  }

  ghost predicate Audit(db: Db) {
    && (forall r :: r in db.rows ==> AuditOf(db, r))
    && (forall i :: 0 <= i < |db.decisions| && db.decisions[i].row.Some? ==> db.decisions[i].row.value in db.rows)
  }

  ghost predicate OneAtATime(w: World) {
    forall c, d :: c in w.callers && d in w.callers && w.callers[c] != Idle && w.callers[d] != Idle ==> c == d
  }

  /** What the one running caller can rely on because nobody else is. */
  ghost predicate Undisturbed(db: Db, pc: Pc) {
    match pc
    case ExecLinked(r, _, _) => r in db.rows && db.rows[r].status == Escrowed && Count(db.decisions, r, Approved) == 0
    case ExecVerified(r, _, _) => r in db.rows && db.rows[r].status == Escrowed && Count(db.decisions, r, Approved) == 0
    case SyncRead(r, status, _, _) => r in db.rows && db.rows[r].status == status
    case SyncWrite(r, _, _) => r in db.rows && db.rows[r].status == Escrowed
    case _ => true
  }

  ghost predicate SerialInv(w: World, caps: Caps) {
    && WithinCaps(w.db, caps) && Audit(w.db) && OneAtATime(w)
    && (forall c :: c in w.callers ==> Undisturbed(w.db, w.callers[c]))
  }

  // ---- Sums over the day ----

  lemma InsertAddsUp(db: Db, r: RowId, row: Row, caps: Caps)
    requires WithinCaps(db, caps) && r !in db.rows && Admits(db, row, caps)
    ensures WithinCaps(db.(rows := db.rows[r := row]), caps)
  {
    var d' := db.(rows := db.rows[r := row]);
    forall day ensures DayTotal(d', day) <= caps.daily {
      SumUpdate(db.rows, DayWeight(day), r, row);
      assert DayTotal(db, day) <= caps.daily;
    }
  }

  /** A write that commits no row anew never adds to a day. */
  lemma WriteAddsNothing(db: Db, d': Db, r: RowId, row: Row, caps: Caps)
    requires WithinCaps(db, caps) && r in db.rows && d'.rows == db.rows[r := row]
    requires SameTerms(row, db.rows[r]) && (Counted(row.status) ==> Counted(db.rows[r].status))
    ensures WithinCaps(d', caps)
  {
    forall day ensures DayTotal(d', day) <= caps.daily {
      SumUpdate(db.rows, DayWeight(day), r, row);
      assert DayTotal(db, day) <= caps.daily;
    }
  }

  // ---- Counting decisions ----

  lemma CountAppend(decisions: seq<Decision>, d: Decision, r: RowId, kind: DecisionKind)
    ensures Count(decisions + [d], r, kind) == Count(decisions, r, kind) + if d.row == Some(r) && d.kind == kind then 1 else 0
  {
    assert (decisions + [d])[..|decisions|] == decisions;
  }

  lemma {:induction false} CountNone(decisions: seq<Decision>, r: RowId, kind: DecisionKind)
    requires forall i :: 0 <= i < |decisions| ==> decisions[i].row != Some(r)
    ensures Count(decisions, r, kind) == 0
  {
    if decisions != [] { CountNone(decisions[..|decisions| - 1], r, kind); }
  }

  /** Rows that keep their status and link, under a log that gains nothing about them. */
  lemma AuditKept(db: Db, d': Db, r: RowId)
    requires r in db.rows && r in d'.rows && AuditOf(db, r)
    requires d'.rows[r].status == db.rows[r].status && (db.rows[r].chainId.Some? ==> d'.rows[r].chainId.Some?)
    requires d'.decisions == db.decisions ||
      (|d'.decisions| == |db.decisions| + 1 && d'.decisions[..|db.decisions|] == db.decisions
       && d'.decisions[|db.decisions|].row != Some(r))
    ensures AuditOf(d', r)
    ensures Count(d'.decisions, r, Approved) == Count(db.decisions, r, Approved)
  {
    if d'.decisions != db.decisions {
      var d := d'.decisions[|db.decisions|];
      assert d'.decisions == db.decisions + [d];
      CountAppend(db.decisions, d, r, WasProposed);
      CountAppend(db.decisions, d, r, WasHeld);
      CountAppend(db.decisions, d, r, Approved);
      CountAppend(db.decisions, d, r, WasReverted);
    }
  }

  lemma InsertKeepsAudit(db: Db, r: RowId, row: Row, codes: seq<string>)
    requires Audit(db) && r !in db.rows && row.status in {Proposed, Held} && row.chainId == None
    ensures Audit(RecordIntent(db, r, row, codes))
  {
    var d' := RecordIntent(db, r, row, codes);
    var d := d'.decisions[|db.decisions|];
    assert d'.decisions == db.decisions + [d];
    forall q | q in d'.rows ensures AuditOf(d', q) {
      if q == r {
        CountNone(db.decisions, r, WasProposed);
        CountNone(db.decisions, r, WasHeld);
        CountNone(db.decisions, r, Approved);
        CountNone(db.decisions, r, WasReverted);
        CountAppend(db.decisions, d, r, WasProposed);
        CountAppend(db.decisions, d, r, WasHeld);
        CountAppend(db.decisions, d, r, Approved);
        CountAppend(db.decisions, d, r, WasReverted);
      } else {
        AuditKept(db, d', q);
      }
    }
  }

  /** A status or link is written and nothing is logged. */
  lemma SilentWriteKeepsAudit(db: Db, r: RowId, row: Row)
    requires Audit(db) && r in db.rows && (db.rows[r].chainId.Some? ==> row.chainId.Some?)
    requires row.status == Reverted <==> db.rows[r].status == Reverted
    ensures Audit(db.(rows := db.rows[r := row]))
  {
    var d' := db.(rows := db.rows[r := row]);
    forall q | q in d'.rows ensures AuditOf(d', q) {
      assert AuditOf(db, q);
    }
  }

  /** The approval or the reversal of `r` is written and logged. */
  lemma LoggedWriteKeepsAudit(db: Db, d': Db, r: RowId, d: Decision)
    requires Audit(db) && r in db.rows && d.row == Some(r) && d'.decisions == db.decisions + [d]
    requires d'.rows == db.rows[r := db.rows[r].(status := if d.kind == Approved then Escrowed else Reverted)]
    requires d.kind in {Approved, WasReverted} && db.rows[r].status != Reverted
    requires d.kind == Approved ==> db.rows[r].chainId.Some? && Count(db.decisions, r, Approved) == 0
    ensures Audit(d')
  {
    forall q | q in d'.rows ensures AuditOf(d', q) {
      if q == r {
        assert AuditOf(db, r);
        CountAppend(db.decisions, d, r, WasProposed);
        CountAppend(db.decisions, d, r, WasHeld);
        CountAppend(db.decisions, d, r, Approved);
        CountAppend(db.decisions, d, r, WasReverted);
      } else {
        AuditKept(db, d', q);
      }
    }
  }

  // ---- The steps ----

  ghost predicate DbOk(db: Db, caps: Caps) {
    WithinCaps(db, caps) && Audit(db)
  }

  /** A caller's step keeps the caps and the log, and leaves it undisturbed. */
  ghost predicate StepOk(w: World, caps: Caps, c: CallerId, choice: Choice) {
    DbOk(DoNext(w, c, choice).db, caps) && Undisturbed(DoNext(w, c, choice).db, PcOf(DoNext(w, c, choice), c))
  }

  lemma {:induction false} ClaimOk(w: World, caps: Caps, c: CallerId, choice: Choice)
    requires Inv(w) && DbOk(w.db, caps) && PcOf(w, c).ExecRead?
    ensures StepOk(w, caps, c, choice)
  {
    hide WithinCaps, Audit, DayTotal;
    var r := PcOf(w, c).r;
    if Claimable(w.db, r) {
      var row := w.db.rows[r].(status := Escrowed);
      SilentWriteKeepsAudit(w.db, r, row);
      WriteAddsNothing(w.db, DoNext(w, c, choice).db, r, row, caps);
    }
  }

  lemma ReopenOk(w: World, caps: Caps, c: CallerId, choice: Choice)
    requires Inv(w) && DbOk(w.db, caps) && PcOf(w, c).ExecRejected?
    ensures StepOk(w, caps, c, choice)
  {
    hide WithinCaps, Audit, DayTotal;
    var r := PcOf(w, c).r;
    if DoNext(w, c, choice).db != w.db {
      var row := w.db.rows[r].(status := Proposed);
      SilentWriteKeepsAudit(w.db, r, row);
      WriteAddsNothing(w.db, DoNext(w, c, choice).db, r, row, caps);
    }
  }

  lemma LinkOk(w: World, caps: Caps, c: CallerId, choice: Choice)
    requires Inv(w) && DbOk(w.db, caps) && PcOf(w, c).ExecRecorded?
    ensures StepOk(w, caps, c, choice)
  {
    hide WithinCaps, DayTotal;
    var pc := PcOf(w, c);
    assert PcOk(w, pc);
    assert AuditOf(w.db, pc.r);
    var row := w.db.rows[pc.r].(chainId := Some(pc.id));
    SilentWriteKeepsAudit(w.db, pc.r, row);
    WriteAddsNothing(w.db, DoNext(w, c, choice).db, pc.r, row, caps);
  }

  lemma {:induction false} ApproveOk(w: World, caps: Caps, c: CallerId, choice: Choice)
    requires Inv(w) && DbOk(w.db, caps) && PcOf(w, c).ExecVerified? && Undisturbed(w.db, PcOf(w, c))
    ensures StepOk(w, caps, c, choice)
  {
    hide WithinCaps, Audit, DayTotal;
    var pc := PcOf(w, c);
    assert PcOk(w, pc);
    var d' := DoNext(w, c, choice).db;
    LoggedWriteKeepsAudit(w.db, d', pc.r, Decision(Approved, ["ESCROWED_ONCHAIN"], pc.snap.requestHash, Some(pc.r)));
    WriteAddsNothing(w.db, d', pc.r, w.db.rows[pc.r].(status := Escrowed), caps);
  }

  lemma {:induction false} SyncWriteOk(w: World, caps: Caps, c: CallerId, choice: Choice)
    requires Inv(w) && DbOk(w.db, caps) && PcOf(w, c).SyncWrite? && Undisturbed(w.db, PcOf(w, c))
    ensures StepOk(w, caps, c, choice)
  {
    hide WithinCaps, Audit, DayTotal;
    var pc := PcOf(w, c);
    assert PcOk(w, pc);
    var d', row := DoNext(w, c, choice).db, w.db.rows[pc.r].(status := pc.status);
    if pc.status == Reverted {
      LoggedWriteKeepsAudit(w.db, d', pc.r, Decision(WasReverted, ["CHAIN_REFUNDED"], w.db.rows[pc.r].requestHash, Some(pc.r)));
    } else {
      SilentWriteKeepsAudit(w.db, pc.r, row);
    }
    WriteAddsNothing(w.db, d', pc.r, row, caps);
  }

  /** A sync that finds the chain elsewhere read a row that was still escrowed. */
  lemma {:induction false} SyncReadOk(w: World, caps: Caps, c: CallerId, choice: Choice)
    requires Inv(w) && DbOk(w.db, caps) && PcOf(w, c).SyncRead? && Undisturbed(w.db, PcOf(w, c))
    ensures StepOk(w, caps, c, choice)
  {
    hide WithinCaps, Audit, DayTotal;
    assert PcOk(w, PcOf(w, c));
  }

  lemma SameRowsOk(db: Db, d': Db, caps: Caps)
    requires DbOk(db, caps) && d'.rows == db.rows && d'.decisions == db.decisions
    ensures DbOk(d', caps)
  {
    hide AuditOf, DayTotal;
    forall r | r in d'.rows ensures AuditOf(d', r) { AuditKept(db, d', r); }
    forall day ensures DayTotal(d', day) <= caps.daily { SameDay(db, d', day); }
  }

  lemma SameDay(a: Db, b: Db, day: nat)
    requires a.rows == b.rows
    ensures DayTotal(a, day) == DayTotal(b, day)
  {
  }

  predicate Executing(pc: Pc) {
    pc.ExecStart? || pc.ExecClaimed? || pc.ExecWaiting? || pc.ExecUnconfirmed? || pc.ExecConfirmed? || pc.ExecLinked?
  }

  ghost predicate Leaves(w: World, c: CallerId, w': World) {
    && w'.db.rows == w.db.rows && w'.db.decisions == w.db.decisions
    && (Undisturbed(w.db, PcOf(w, c)) ==> Undisturbed(w'.db, PcOf(w', c)))
  }

  lemma ExecutingLeaves(w: World, c: CallerId, choice: Choice)
    requires Executing(PcOf(w, c))
    ensures Leaves(w, c, DoNext(w, c, choice))
  {
    hide Count;
  }

  lemma OtherLeaves(w: World, c: CallerId, choice: Choice)
    requires !WritesRow(PcOf(w, c)) && !PcOf(w, c).SyncRead? && !Executing(PcOf(w, c))
    ensures Leaves(w, c, DoNext(w, c, choice))
  {
    hide Escrow.TryRelease, Escrow.TryRefund, Count, FromChain;
  }

  lemma {:induction false} OtherOk(w: World, caps: Caps, c: CallerId, choice: Choice)
    requires Inv(w) && DbOk(w.db, caps) && !WritesRow(PcOf(w, c)) && !PcOf(w, c).SyncRead? && Undisturbed(w.db, PcOf(w, c))
    ensures StepOk(w, caps, c, choice)
  {
    hide DbOk, Undisturbed, DoNext, Inv;
    if Executing(PcOf(w, c)) {
      ExecutingLeaves(w, c, choice);
    } else {
      OtherLeaves(w, c, choice);
    }
    SameRowsOk(w.db, DoNext(w, c, choice).db, caps);
  }

  lemma {:induction false} NextOk(w: World, caps: Caps, c: CallerId, choice: Choice)
    requires Inv(w) && DbOk(w.db, caps) && Undisturbed(w.db, PcOf(w, c))
    ensures StepOk(w, caps, c, choice)
  {
    hide Inv, DbOk, Undisturbed, StepOk;
    match PcOf(w, c)
    case ExecRead(_, _) => ClaimOk(w, caps, c, choice);
    case ExecRejected(_) => ReopenOk(w, caps, c, choice);
    case ExecRecorded(_, _, _, _) => LinkOk(w, caps, c, choice);
    case ExecVerified(_, _, _) => ApproveOk(w, caps, c, choice);
    case SyncWrite(_, _, _) => SyncWriteOk(w, caps, c, choice);
    case SyncRead(_, _, _, _) => SyncReadOk(w, caps, c, choice);
    case _ => OtherOk(w, caps, c, choice);
  }

  lemma OthersWait(w: World, c: CallerId, choice: Choice)
    requires PcOf(w, c) != Idle
    ensures var w' := DoNext(w, c, choice); forall d :: d != c && d in w'.callers ==> d in w.callers && w'.callers[d] == w.callers[d]
  {
    hide Escrow.TryRelease, Escrow.TryRefund;
  }

  lemma {:induction false} NextKeepsSerial(w: World, caps: Caps, c: CallerId, choice: Choice)
    requires Inv(w) && SerialInv(w, caps)
    ensures SerialInv(DoNext(w, c, choice), caps)
  {
    hide Inv, DbOk, Undisturbed;
    assert Undisturbed(w.db, PcOf(w, c)) && DbOk(w.db, caps) by { CallerUndisturbed(w, caps, c); }
    var w' := DoNext(w, c, choice);
    if PcOf(w, c) == Idle {
      assert w' == w;
    } else {
      hide DoNext;
      NextOk(w, caps, c, choice);
      OthersWait(w, c, choice);
      forall d | d in w'.callers ensures Undisturbed(w'.db, w'.callers[d]) {
        if d != c { IdleUndisturbed(w'.db); }
      }
      assert WithinCaps(w'.db, caps) && Audit(w'.db) by { FromDbOk(w'.db, caps); }
    }
  }

  lemma FromDbOk(db: Db, caps: Caps)
    requires DbOk(db, caps)
    ensures WithinCaps(db, caps) && Audit(db)
  {
  }

  lemma IdleUndisturbed(db: Db)
    ensures Undisturbed(db, Idle)
  {
  }

  lemma CallerUndisturbed(w: World, caps: Caps, c: CallerId)
    requires SerialInv(w, caps)
    ensures Undisturbed(w.db, PcOf(w, c)) && DbOk(w.db, caps)
  {
  }

  lemma InsertKeepsSerial(w: World, caps: Caps, r: RowId, row: Row, codes: seq<string>)
    requires Inv(w) && SerialInv(w, caps) && Admits(w.db, row, caps) && CanInsert(w.db, r, row)
    requires row.status in {Proposed, Held} && row.chainId == None
    ensures SerialInv(w.(db := RecordIntent(w.db, r, row, codes)), caps)
  {
    hide DayTotal, AuditOf;
    var d' := RecordIntent(w.db, r, row, codes);
    InsertKeepsAudit(w.db, r, row, codes);
    InsertAddsUp(w.db, r, row, caps);
    assert WithinCaps(d', caps) by {
      forall day ensures DayTotal(d', day) <= caps.daily { SameDay(w.db.(rows := w.db.rows[r := row]), d', day); }
    }
    forall c | c in w.callers ensures Undisturbed(d', w.callers[c]) {
      InsertUndisturbs(w, r, row, codes, w.callers[c]);
    }
  }

  lemma InsertUndisturbs(w: World, r: RowId, row: Row, codes: seq<string>, pc: Pc)
    requires r !in w.db.rows && Undisturbed(w.db, pc)
    ensures Undisturbed(RecordIntent(w.db, r, row, codes), pc)
  {
    var d := RecordIntent(w.db, r, row, codes).decisions[|w.db.decisions|];
    if pc.ExecLinked? || pc.ExecVerified? { CountAppend(w.db.decisions, d, pc.r, Approved); }
  }

  lemma SerialKeeps(w: World, caps: Caps, step: Step)
    requires Inv(w) && SerialInv(w, caps) && Fair(w.chain.vault, step)
    ensures Inv(SerialDo(w, caps, step)) && SerialInv(SerialDo(w, caps, step), caps)
  {
    hide Inv;
    DoKeeps(w, step);
    match step
    case Next(c, choice) => NextKeepsSerial(w, caps, c, choice);
    case Insert(r, row, codes) => InsertStep(w, caps, step);
    case Begin(c, job) => BeginStep(w, caps, step);
    case _ => AsideStep(w, caps, step);
  }

  lemma InsertStep(w: World, caps: Caps, step: Step)
    requires Inv(w) && SerialInv(w, caps) && step.Insert?
    ensures SerialInv(SerialDo(w, caps, step), caps)
  {
    hide Inv, SerialInv;
    if SerialDo(w, caps, step) != w { InsertKeepsSerial(w, caps, step.r, step.row, step.codes); }
  }

  lemma BeginStep(w: World, caps: Caps, step: Step)
    requires SerialInv(w, caps) && step.Begin?
    ensures SerialInv(SerialDo(w, caps, step), caps)
  {
    hide DayTotal, AuditOf;
  }

  /** A crash makes a caller idle; what happens on chain or in the pool touches neither the database nor the callers. */
  lemma AsideStep(w: World, caps: Caps, step: Step)
    requires SerialInv(w, caps) && (step.Crash? || step.Land? || step.Drop? || step.OnChain?)
    ensures SerialInv(SerialDo(w, caps, step), caps)
  {
    hide DayTotal, AuditOf, Escrow.Apply, Escrow.Try;
    assert SerialDo(w, caps, step).db == w.db;
  }

  lemma {:induction false} SerialRunKeeps(w: World, caps: Caps, steps: seq<Step>)
    requires Inv(w) && SerialInv(w, caps) && FairRun(w.chain.vault, steps)
    ensures Inv(SerialRun(w, caps, steps)) && SerialInv(SerialRun(w, caps, steps), caps)
    ensures SerialRun(w, caps, steps).chain.vault == w.chain.vault
  {
    hide Inv, SerialInv, SerialDo;
    if steps != [] {
      var front, last := steps[..|steps| - 1], steps[|steps| - 1];
      SerialRunKeeps(w, caps, front);
      SerialKeeps(SerialRun(w, caps, front), caps, last);
      SerialVault(SerialRun(w, caps, front), caps, last);
    }
  }

  lemma SerialVault(w: World, caps: Caps, step: Step)
    ensures SerialDo(w, caps, step).chain.vault == w.chain.vault
  {
    hide Do;
    VaultFixed(w, step);
  }

  lemma SerialStart(vault: Address, admin: Address, b0: Balances, now: nat, caps: Caps)
    requires caps.daily >= 0
    ensures Inv(Init(vault, admin, b0, now)) && SerialInv(Init(vault, admin, b0, now), caps)
  {
    InitInv(vault, admin, b0, now);
  }

  /**
  With the engine admitting every proposal and flow calls made one at a time,
  whatever fails, crashes or lands late: on every day the proposed, escrowed and
  released amounts of that day stay within the daily cap, and each intent within
  the cap per transaction.
  */
  lemma {:induction false} DailyCapHolds(
    vault: Address, admin: Address, b0: Balances, now: nat, caps: Caps, steps: seq<Step>, day: nat)
    requires caps.daily >= 0 && FairRun(vault, steps)
    ensures var w := SerialRun(Init(vault, admin, b0, now), caps, steps);
            && DayTotal(w.db, day) <= caps.daily
            && (forall r :: r in w.db.rows ==> 0 < w.db.rows[r].amount <= caps.perTx)
  {
    hide Inv, Audit, OneAtATime, Undisturbed, DayTotal;
    SerialStart(vault, admin, b0, now, caps);
    SerialRunKeeps(Init(vault, admin, b0, now), caps, steps);
  }

  /** Such a session's log: every row is created once, approved at most once and only if linked, reverted once if it is. */
  lemma {:induction false} AuditSaysOnce(
    vault: Address, admin: Address, b0: Balances, now: nat, caps: Caps, steps: seq<Step>, r: RowId)
    requires caps.daily >= 0 && FairRun(vault, steps)
    requires r in SerialRun(Init(vault, admin, b0, now), caps, steps).db.rows
    ensures var db := SerialRun(Init(vault, admin, b0, now), caps, steps).db;
            && Count(db.decisions, r, WasProposed) + Count(db.decisions, r, WasHeld) == 1
            && Count(db.decisions, r, Approved) <= (if db.rows[r].chainId == None then 0 else 1)
            && Count(db.decisions, r, WasReverted) == (if db.rows[r].status == Reverted then 1 else 0)
  {
    hide Inv, WithinCaps, OneAtATime, Undisturbed, Count;
    SerialStart(vault, admin, b0, now, caps);
    SerialRunKeeps(Init(vault, admin, b0, now), caps, steps);
    assert AuditOf(SerialRun(Init(vault, admin, b0, now), caps, steps).db, r);
  }
}
