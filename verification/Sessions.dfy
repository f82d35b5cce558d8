/**
Whole sessions of the agent: proposals run through the pipeline with the engine
on, flow calls made one at a time that may stop midway and start again, and
anything at all happening on chain and in the transaction pool in between.
*/
module Sessions {
  import Escrow
  import opened Flow
  import opened FlowTheorems
  import Guards
  import opened Ledger
  import opened LocalDb
  import opened Pipeline
  import opened PipelineTheorems
  import opened Protocol
  import opened ProtocolInv
  import opened Repository
  import opened RequestHash
  import opened Serial
  import StatusLaws
  import opened Wrappers

  /** One run of the pipeline over the session's database, whatever it ends in. */
  ghost predicate Proposes(a: Attempt, w: World, w': World, caps: Caps, sha: string -> string) {
    && Faithful(a) && a.config.policyEngine && a.sha == sha
    && a.rules.capPerTx == caps.perTx && a.rules.capDaily == caps.daily
    && a.before == w.db && w' == w.(db := a.after)
  }

  /** Something happens on chain or in the pool, or the agent stops wherever it is and comes back with nothing in hand. */
  ghost predicate Elsewhere(step: Step, w: World, w': World) {
    && (step.Land? || step.Drop? || step.OnChain? || (step.Crash? && step.c in w.callers))
    && Fair(w.chain.vault, step) && w' == Do(w, step)
  }

  datatype Cause = PipelineRun(a: Attempt) | FlowCall(steps: seq<Step>) | Outside(step: Step)

  ghost predicate Follows(cause: Cause, w: World, w': World, caps: Caps, sha: string -> string) {
    match cause
    case PipelineRun(a) => Proposes(a, w, w', caps, sha)
    case FlowCall(steps) => Led(true, w, steps, w')
    case Outside(step) => Elsewhere(step, w, w')
  }

  /** A session: its worlds, each caused from the one before. */
  ghost predicate Session(worlds: seq<World>, causes: seq<Cause>, caps: Caps, sha: string -> string) {
    && |worlds| == |causes| + 1
    && forall i :: 0 <= i < |causes| ==> Follows(causes[i], worlds[i], worlds[i + 1], caps, sha)
  }

  ghost predicate Sound(w: World, c: CallerId, caps: Caps, sha: string -> string) {
    Inv(w) && SerialInv(w, caps) && Keyed(w.db, sha) && w.callers.Keys == {c}
  }

  // ---- Each cause keeps the session sound ----

  lemma {:induction false} SameRowsKeyed(d: Db, d': Db, sha: string -> string)
    requires Keyed(d, sha) && d'.rows.Keys == d.rows.Keys
    requires forall r :: r in d.rows ==> SameTerms(d.rows[r], d'.rows[r])
    ensures Keyed(d', sha)
  {
    hide HashOf;
    forall r | r in d'.rows ensures exists sme :: KeyedAs(sha, d'.rows[r], sme) {
      var sme :| KeyedAs(sha, d.rows[r], sme);
      assert PaymentIn(sme, d'.rows[r]) == PaymentIn(sme, d.rows[r]);
      assert KeyedAs(sha, d'.rows[r], sme);
    }
  }

  lemma {:induction false} NextAddsNoRow(w: World, c: CallerId, choice: Choice)
    ensures DoNext(w, c, choice).db.rows.Keys == w.db.rows.Keys
  {
    if DoNext(w, c, choice).db.rows != w.db.rows { RowsWritten(w, c, choice); }
  }

  lemma {:induction false} OwnAddsNoRow(w0: World, w: World, step: Step)
    requires Own(w0, step)
    ensures Do(w, step).db.rows.Keys == w.db.rows.Keys
  {
    hide DoNext, Escrow.Try;
    if step.Next? { NextAddsNoRow(w, step.c, step.choice); }
  }

  lemma {:induction false} FlowAddsNoRow(w0: World, steps: seq<Step>)
    requires forall i :: 0 <= i < |steps| ==> Own(w0, steps[i])
    ensures Protocol.Run(w0, steps).db.rows.Keys == w0.db.rows.Keys
  {
    hide Do, Own;
    if steps != [] {
      var front := steps[..|steps| - 1];
      FlowAddsNoRow(w0, front);
      OwnAddsNoRow(w0, Protocol.Run(w0, front), steps[|steps| - 1]);
    }
  }

  lemma FlowCallSound(w: World, w': World, c: CallerId, caps: Caps, sha: string -> string, steps: seq<Step>)
    requires Sound(w, c, caps, sha) && Led(true, w, steps, w')
    ensures Sound(w', c, caps, sha)
  {
    hide Inv, SerialInv, Keyed, Own;
    FlowKeeps(w, caps, c, steps, w');
    OwnRunIsSerial(w, caps, c, steps);
    FlowAddsNoRow(w, steps);
    SameRowsKeyed(w.db, w'.db, sha);
  }

  lemma {:induction false} OutsideSound(w: World, w': World, c: CallerId, caps: Caps, sha: string -> string, step: Step)
    requires Sound(w, c, caps, sha) && Elsewhere(step, w, w')
    ensures Sound(w', c, caps, sha)
  {
    hide Inv, SerialInv, Keyed, Do;
    assert SerialDo(w, caps, step) == w';
    SerialKeeps(w, caps, step);
    OutsideIsAside(w, step);
  }

  lemma OutsideIsAside(w: World, step: Step)
    requires step.Land? || step.Drop? || step.OnChain? || (step.Crash? && step.c in w.callers)
    ensures Do(w, step).db == w.db && Do(w, step).callers.Keys == w.callers.Keys
  {
    hide Escrow.Try, Escrow.Apply;
  }

  /** A refusal only adds a line that names no row to the decision log. */
  lemma {:induction false} RefusalSound(w: World, c: CallerId, caps: Caps, sha: string -> string, codes: seq<string>, requestHash: string)
    requires Sound(w, c, caps, sha)
    ensures Sound(w.(db := RecordRefused(w.db, codes, requestHash)), c, caps, sha)
  {
    hide Inv, DayTotal, AuditOf, Keyed, Count;
    var d' := RecordRefused(w.db, codes, requestHash);
    LogGrows(w, d');
    SameRowsKeyed(w.db, d', sha);
    forall r | r in d'.rows ensures AuditOf(d', r) { AuditKept(w.db, d', r); }
    forall day ensures DayTotal(d', day) <= caps.daily { SameDay(w.db, d', day); }
    forall b | b in w.callers ensures Undisturbed(d', w.callers[b]) { RefusalUndisturbs(w, codes, requestHash, w.callers[b]); }
  }

  lemma RefusalUndisturbs(w: World, codes: seq<string>, requestHash: string, pc: Pc)
    requires Undisturbed(w.db, pc)
    ensures Undisturbed(RecordRefused(w.db, codes, requestHash), pc)
  {
    if pc.ExecLinked? || pc.ExecVerified? {
      CountAppend(w.db.decisions, Decision(Refused, codes, requestHash, None), pc.r, Approved);
    }
  }

  lemma {:induction false} StoredSound(w: World, w': World, c: CallerId, caps: Caps, sha: string -> string, a: Attempt)
    requires Sound(w, c, caps, sha) && Proposes(a, w, w', caps, sha) && Stored(a)
    ensures Sound(w', c, caps, sha)
  {
    hide Inv, SerialInv, Keyed, Faithful, SerialDo;
    EngineAdmits(a, w, a.result.value.codes);
    SerialKeeps(w, caps, Insert(a.newId, NewRow(a), a.result.value.codes));
    StoringKeepsKeyed(a);
  }

  /** A run that stores nothing either refuses or leaves the database alone. */
  lemma {:induction false} NotStored(a: Attempt)
    requires Faithful(a) && !Stored(a)
    ensures a.after == a.before || exists codes, requestHash :: a.after == RecordRefused(a.before, codes, requestHash)
  {
    hide Guards.Verdict, Guards.Said, Guards.Distinct, Pipeline.Chain, Pipeline.Presents, CanInsert;
  }

  lemma {:induction false} ProposalSound(w: World, w': World, c: CallerId, caps: Caps, sha: string -> string, a: Attempt)
    requires Sound(w, c, caps, sha) && Proposes(a, w, w', caps, sha)
    ensures Sound(w', c, caps, sha)
  {
    hide Sound, Faithful, Stored;
    if Stored(a) {
      StoredSound(w, w', c, caps, sha, a);
    } else {
      NotStored(a);
      if a.after != a.before {
        var codes, requestHash :| a.after == RecordRefused(a.before, codes, requestHash);
        RefusalSound(w, c, caps, sha, codes, requestHash);
      } else {
        assert w' == w;
      }
    }
  }

  lemma {:induction false} SessionSound(worlds: seq<World>, causes: seq<Cause>, c: CallerId, caps: Caps, sha: string -> string)
    requires Session(worlds, causes, caps, sha) && Sound(worlds[0], c, caps, sha)
    ensures Sound(worlds[|causes|], c, caps, sha)
    decreases |causes|
  {
    hide Sound;
    if causes != [] {
      var n := |causes| - 1;
      SessionSound(worlds[..n + 1], causes[..n], c, caps, sha);
      var w, w' := worlds[n], worlds[n + 1];
      assert Follows(causes[n], w, w', caps, sha);
      match causes[n] {
        case PipelineRun(a) => ProposalSound(w, w', c, caps, sha, a);
        case FlowCall(steps) => FlowCallSound(w, w', c, caps, sha, steps);
        case Outside(step) => OutsideSound(w, w', c, caps, sha, step);
      }
    }
  }

  ghost predicate Fresh(w: World, c: CallerId, vault: Address, admin: Address, b0: Balances, now: nat) {
    w == Init(vault, admin, b0, now).(callers := map[c := Idle])
  }

  lemma FreshIsSound(
    w: World, c: CallerId, vault: Address, admin: Address, b0: Balances, now: nat, caps: Caps, sha: string -> string)
    requires Fresh(w, c, vault, admin, b0, now) && caps.daily >= 0
    ensures Sound(w, c, caps, sha)
  {
    SerialStart(vault, admin, b0, now, caps);
  }

  /**
  Over any session started from an empty database: no day's committed amounts
  pass the daily cap, no intent the cap per transaction; and no two stored intents
  are the same payment, whatever became of them.
  */
  lemma SessionsAreSafe(
    worlds: seq<World>, causes: seq<Cause>, c: CallerId, vault: Address, admin: Address, b0: Balances, now: nat,
    caps: Caps, sha: string -> string)
    requires Session(worlds, causes, caps, sha) && Fresh(worlds[0], c, vault, admin, b0, now)
    requires caps.daily >= 0
    ensures var db := worlds[|causes|].db;
            && (forall day :: DayTotal(db, day) <= caps.daily)
            && (forall r :: r in db.rows ==> 0 < db.rows[r].amount <= caps.perTx)
            && (forall r, q, sme ::
                  r in db.rows && q in db.rows && KeyedAs(sha, db.rows[r], sme) && KeyedAs(sha, db.rows[q], sme) ==>
                    PaymentIn(sme, db.rows[r]) == PaymentIn(sme, db.rows[q]) ==> r == q)
  {
    hide Inv, HashOf, DayTotal, Audit, Undisturbed;
    FreshIsSound(worlds[0], c, vault, admin, b0, now, caps, sha);
    SessionSound(worlds, causes, c, caps, sha);
  }

  // ---- Closed rows ----

  /** Row `r` is there in both, with one and the same status. */
  ghost predicate KeepsStatus(w: World, w': World, r: RowId) {
    r in w.db.rows && r in w'.db.rows && w'.db.rows[r].status == w.db.rows[r].status
  }

  lemma ProposalKeepsStatus(w: World, w': World, caps: Caps, sha: string -> string, a: Attempt, r: RowId)
    requires Proposes(a, w, w', caps, sha) && r in w.db.rows
    ensures KeepsStatus(w, w', r)
  {
    hide Faithful;
    if a.result.Ok? && a.result.value.intent.Some? {
      StoredRow(a);
    } else {
      NotStored(a);
    }
  }

  lemma FlowKeepsClosed(w: World, w': World, c: CallerId, caps: Caps, steps: seq<Step>, r: RowId)
    requires Inv(w) && SerialInv(w, caps) && w.callers.Keys == {c} && Led(true, w, steps, w')
    requires r in w.db.rows && StatusLaws.Closed(w.db.rows[r].status)
    ensures KeepsStatus(w, w', r)
  {
    hide Inv, SerialInv, Own;
    OwnRunIsSerial(w, caps, c, steps);
    StatusLaws.SerialKeepsClosed(w, caps, steps, r);
  }

  lemma OutsideKeepsStatus(w: World, w': World, step: Step, r: RowId)
    requires Elsewhere(step, w, w') && r in w.db.rows
    ensures KeepsStatus(w, w', r)
  {
    hide Do;
    StatusLaws.AsideLeavesRow(w, step, r);
  }

  /** Over any session a released or reverted intent keeps its status for good. */
  lemma {:induction false} SessionKeepsClosed(
    worlds: seq<World>, causes: seq<Cause>, c: CallerId, caps: Caps, sha: string -> string, r: RowId)
    requires Session(worlds, causes, caps, sha) && Sound(worlds[0], c, caps, sha)
    requires r in worlds[0].db.rows && StatusLaws.Closed(worlds[0].db.rows[r].status)
    ensures KeepsStatus(worlds[0], worlds[|causes|], r)
    decreases |causes|
  {
    hide Inv, SerialInv, Keyed;
    if causes != [] {
      var n := |causes| - 1;
      SessionKeepsClosed(worlds[..n + 1], causes[..n], c, caps, sha, r);
      SessionSound(worlds[..n + 1], causes[..n], c, caps, sha);
      var w, w' := worlds[n], worlds[n + 1];
      assert Follows(causes[n], w, w', caps, sha);
      match causes[n] {
        case PipelineRun(a) => ProposalKeepsStatus(w, w', caps, sha, a, r);
        case FlowCall(steps) => FlowKeepsClosed(w, w', c, caps, steps, r);
        case Outside(step) => OutsideKeepsStatus(w, w', step, r);
      }
    }
  }
}
