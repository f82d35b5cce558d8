/**
What the two-ledger protocol guarantees over every interleaving, crash and
late-landing transaction.
*/
module ProtocolTheorems {
  import opened Wrappers
  import opened Ledger
  import Escrow
  import opened LocalDb
  import opened Protocol
  import opened ProtocolInv
  import opened ProtocolSteps

  lemma InitInv(vault: Address, admin: Address, b0: Balances, now: nat)
    ensures Inv(Init(vault, admin, b0, now))
  {
  }

  lemma TryKeepsVault(s: Escrow.State, inv: Escrow.Invocation)
    ensures Escrow.Apply(s, inv).vault == s.vault
  {
  }

  /** Only the two settlement calls touch the chain. */
  lemma NextKeepsVault(w: World, c: CallerId, choice: Choice)
    ensures DoNext(w, c, choice).chain.vault == w.chain.vault
  {
    match PcOf(w, c)
    case ReleaseReady(_, id) => TryKeepsVault(w.chain, Escrow.Invocation({}, Escrow.Release(id)));
    case RevertReady(_, id) => TryKeepsVault(w.chain, Escrow.Invocation({}, Escrow.Refund(id)));
    case _ => assert DoNext(w, c, choice).chain == w.chain;
  }

  lemma VaultFixed(w: World, step: Step)
    ensures Do(w, step).chain.vault == w.chain.vault
  {
    match step
    case OnChain(inv) => TryKeepsVault(w.chain, inv);
    case Land(x, auth) =>
      if x in w.txs { TryKeepsVault(w.chain, Escrow.Invocation(auth, CreateCall(w.txs[x]))); }
    case Next(c, choice) => NextKeepsVault(w, c, choice);
    case _ =>
  }

  lemma {:induction false} RunKeeps(w: World, steps: seq<Step>)
    requires Inv(w) && FairRun(w.chain.vault, steps)
    ensures Inv(Run(w, steps)) && Run(w, steps).chain.vault == w.chain.vault
  {
    if steps != [] {
      var front, last := steps[..|steps| - 1], steps[|steps| - 1];
      RunKeeps(w, front);
      VaultFixed(Run(w, front), last);
      DoKeeps(Run(w, front), last);
    }
  }

  // ---- At most one escrow per proposal ----

  /** The submissions of row `r` that are an escrow or may still become one. */
  ghost function LiveTxs(w: World, r: RowId): set<TxHash> {
    set x | x in w.txs && w.txs[x].row == r && Live(w.txs[x])
  }

  /** The escrows on chain that this row's submissions created. */
  ghost function EscrowsOf(w: World, r: RowId): set<nat> {
    set x | x in w.txs && w.txs[x].row == r && w.txs[x].state.Landed? :: w.txs[x].state.id
  }

  lemma AtMostOne<T>(s: set<T>)
    requires forall x, y :: x in s && y in s ==> x == y
    ensures |s| <= 1
  {
    if x :| x in s {
      assert s == {x};
    }
  }

  /**
  However callers are interleaved, retried and stopped, and whenever submitted
  transactions land: a row has at most one escrow, on chain and pending taken
  together; a row open for execution or held has none, and no caller on its way
  to making one.
  */
  lemma AtMostOneEscrow(
    vault: Address, admin: Address, b0: Balances, now: nat, steps: seq<Step>, r: RowId)
    requires FairRun(vault, steps)
    ensures var w := Run(Init(vault, admin, b0, now), steps);
            && |LiveTxs(w, r)| <= 1
            && |EscrowsOf(w, r)| <= 1
            && (r in w.db.rows && w.db.rows[r].status in {Proposed, Held} ==>
                  && LiveTxs(w, r) == {} && w.db.rows[r].chainId == None
                  && (forall c :: c in w.callers ==> Holding(w.callers[c]) != Some(r)))
            && (forall c, d :: c in w.callers && d in w.callers ==>
                  Holding(w.callers[c]) == Some(r) == Holding(w.callers[d]) ==> c == d)
  {
    InitInv(vault, admin, b0, now);
    RunKeeps(Init(vault, admin, b0, now), steps);
    var w := Run(Init(vault, admin, b0, now), steps);
    AtMostOne(LiveTxs(w, r));
    AtMostOne(EscrowsOf(w, r));
    if r in w.db.rows && w.db.rows[r].status in {Proposed, Held} {
      ProposedIsClean(w, r);
    }
  }

  // ---- The local ledger never runs ahead of the chain ----

  /**
  A row that says released or reverted is released or refunded on chain.  A
  chain id is never shared by two rows, and the intent it names carries the
  row's hash, supplier, token, amount and deadline; the hash of the transaction
  that made it is on record.
  */
  lemma LocalNeverAhead(vault: Address, admin: Address, b0: Balances, now: nat, steps: seq<Step>, r: RowId)
    requires FairRun(vault, steps) && r in Run(Init(vault, admin, b0, now), steps).db.rows
    ensures var w := Run(Init(vault, admin, b0, now), steps);
            var row := w.db.rows[r];
            && (row.status == LocalDb.Released ==> SettledAs(w, r, Escrow.Released))
            && (row.status == Reverted ==> SettledAs(w, r, Escrow.Refunded))
            && (row.chainId.Some? ==>
                  && row.status in {Escrowed, Released, Reverted}
                  && row.chainId.value in w.chain.intents
                  && Carries(w.chain.intents[row.chainId.value], row)
                  && (exists x :: LinkedBy(w, r, row.chainId.value, x))
                  && (forall q :: q in w.db.rows && w.db.rows[q].chainId == row.chainId ==> q == r))
  {
    InitInv(vault, admin, b0, now);
    RunKeeps(Init(vault, admin, b0, now), steps);
    var w := Run(Init(vault, admin, b0, now), steps);
    var row := w.db.rows[r];
    assert RowOk(w, r);
    if row.chainId.Some? {
      LinkedIsOnChain(w, r);
      var x :| LinkedBy(w, r, row.chainId.value, x);
      forall q | q in w.db.rows && w.db.rows[q].chainId == row.chainId ensures q == r {
        assert RowOk(w, q);
        var y :| LinkedBy(w, q, row.chainId.value, y);
      }
    }
  }

  // ---- What no step takes back ----

  /** Terms are fixed, links are written once, held rows stay held, logs only grow. */
  ghost predicate DbEvolves(d: Db, d': Db) {
    && (forall r :: r in d.rows ==>
          && r in d'.rows && SameTerms(d.rows[r], d'.rows[r])
          && (d.rows[r].chainId.Some? ==> d'.rows[r].chainId == d.rows[r].chainId)
          && (d.rows[r].status == Held <==> d'.rows[r].status == Held))
    && d.decisions <= d'.decisions && d.chainTxs <= d'.chainTxs && d.payouts <= d'.payouts && d.votes <= d'.votes
  }

  lemma RowWriteEvolves(d: Db, d': Db, r: RowId, row: Row)
    requires r in d.rows && d'.rows == d.rows[r := row] && SameTerms(d.rows[r], row)
    requires d.rows[r].chainId.Some? ==> row.chainId == d.rows[r].chainId
    requires d.rows[r].status != Held && row.status != Held
    requires d.decisions <= d'.decisions && d.chainTxs <= d'.chainTxs && d.payouts <= d'.payouts && d.votes <= d'.votes
    ensures DbEvolves(d, d')
  {
  }

  predicate WritesRow(pc: Pc) {
    pc.ExecRead? || pc.ExecRejected? || pc.ExecRecorded? || pc.ExecVerified? || pc.SyncWrite?
  }

  lemma LogWriteEvolves(d: Db, d': Db)
    requires d'.rows == d.rows
    requires d.decisions <= d'.decisions && d.chainTxs <= d'.chainTxs && d.payouts <= d'.payouts && d.votes <= d'.votes
    ensures DbEvolves(d, d')
  {
  }

  predicate WritesLog(pc: Pc) {
    pc.ExecUnconfirmed? || pc.ExecConfirmed? || pc.ReleasePaid? || pc.RevertPaid? || pc.CashOutReady?
  }

  lemma SilentStep(w: World, c: CallerId, choice: Choice)
    requires !WritesRow(PcOf(w, c)) && !WritesLog(PcOf(w, c))
    ensures DoNext(w, c, choice).db == w.db
  {
  }

  lemma LogStepEvolves(w: World, c: CallerId, choice: Choice)
    requires WritesLog(PcOf(w, c))
    ensures DbEvolves(w.db, DoNext(w, c, choice).db)
  {
    LogWriteEvolves(w.db, DoNext(w, c, choice).db);
  }

  lemma {:induction false} WriteStepEvolves(w: World, c: CallerId, choice: Choice)
    requires WritesRow(PcOf(w, c)) && PcOk(w, PcOf(w, c)) && RowsOk(w)
    ensures DbEvolves(w.db, DoNext(w, c, choice).db)
  {
    var r, d' := PcOf(w, c).r, DoNext(w, c, choice).db;
    if d'.rows != w.db.rows {
      assert RowOk(w, r);
      RowWriteEvolves(w.db, d', r, d'.rows[r]);
    }
  }

  lemma {:induction false} StepEvolves(w: World, c: CallerId, choice: Choice)
    requires Inv(w)
    ensures DbEvolves(w.db, DoNext(w, c, choice).db)
  {
    assert PcOk(w, PcOf(w, c));
    if WritesRow(PcOf(w, c)) {
      WriteStepEvolves(w, c, choice);
    } else if WritesLog(PcOf(w, c)) {
      LogStepEvolves(w, c, choice);
    } else {
      SilentStep(w, c, choice);
    }
  }

  lemma DbEvolvesTransitive(a: Db, b: Db, c: Db)
    requires DbEvolves(a, b) && DbEvolves(b, c)
    ensures DbEvolves(a, c)
  {
  }

  lemma {:induction false} DoEvolves(w: World, step: Step)
    requires Inv(w)
    ensures DbEvolves(w.db, Do(w, step).db)
  {
    match step
    case Next(c, choice) => StepEvolves(w, c, choice);
    case Insert(_, _, _) =>
    case _ => assert Do(w, step).db == w.db;
  }

  lemma {:induction false} RunEvolves(w: World, steps: seq<Step>)
    requires Inv(w) && FairRun(w.chain.vault, steps)
    ensures DbEvolves(w.db, Run(w, steps).db)
  {
    if steps != [] {
      var front, last := steps[..|steps| - 1], steps[|steps| - 1];
      RunEvolves(w, front);
      RunKeeps(w, front);
      DoEvolves(Run(w, front), last);
      DbEvolvesTransitive(w.db, Run(w, front).db, Do(Run(w, front), last).db);
    }
  }

  // ---- Payouts ----

  /** No row is paid out twice, and every payout is for an intent released on chain, of its amount, to its supplier. */
  lemma {:induction false} AtMostOnePayout(vault: Address, admin: Address, b0: Balances, now: nat, steps: seq<Step>)
    requires FairRun(vault, steps)
    ensures var w := Run(Init(vault, admin, b0, now), steps);
            && (forall i, j :: 0 <= i < j < |w.db.payouts| ==> w.db.payouts[i].row != w.db.payouts[j].row)
            && (forall i :: 0 <= i < |w.db.payouts| ==>
                  var p := w.db.payouts[i];
                  && p.row in w.db.rows && w.db.rows[p.row].chainId.Some?
                  && w.db.rows[p.row].chainId.value in w.chain.intents
                  && var x := w.chain.intents[w.db.rows[p.row].chainId.value];
                     x.status == Escrow.Released && p.amount == x.amount && p.address == x.supplier)
  {
    InitInv(vault, admin, b0, now);
    RunKeeps(Init(vault, admin, b0, now), steps);
    var w := Run(Init(vault, admin, b0, now), steps);
    forall i | 0 <= i < |w.db.payouts|
      ensures PayoutOk(w, w.db.payouts[i])
      ensures Carries(w.chain.intents[w.db.rows[w.db.payouts[i].row].chainId.value], w.db.rows[w.db.payouts[i].row])
    {
      var p := w.db.payouts[i];
      assert PayoutOk(w, p);
      LocalNeverAhead(vault, admin, b0, now, steps, p.row);
    }
  }

  // ---- Reconciliation ----

  /** One call of sync_status, with nobody else running and a readable chain. */
  function SyncSteps(c: CallerId, r: RowId): seq<Step> {
    [Begin(c, Sync(r)), Next(c, Go), Next(c, Go), Next(c, Go)]
  }

  ghost function SyncOnce(w: World, c: CallerId, r: RowId): World {
    Run(w, SyncSteps(c, r))
  }

  lemma RunSnoc(w: World, steps: seq<Step>, n: nat)
    requires n < |steps|
    ensures Run(w, steps[..n + 1]) == Do(Run(w, steps[..n]), steps[n])
  {
    assert steps[..n + 1][..n] == steps[..n];
  }

  lemma SyncStepsOpen(w: World, c: CallerId, r: RowId, id: nat)
    requires HasChainId(w, r, id) && PcOf(w, c) == Idle
    ensures Do(w, SyncSteps(c, r)[0]) == At(w, c, SyncStart(r, false))
    ensures Do(At(w, c, SyncStart(r, false)), SyncSteps(c, r)[1]) == At(w, c, SyncRead(r, w.db.rows[r].status, id, false))
  {
  }

  lemma {:induction false} SyncReads(w: World, c: CallerId, r: RowId, id: nat)
    requires HasChainId(w, r, id) && PcOf(w, c) == Idle
    ensures Run(w, SyncSteps(c, r)[..2]) == At(w, c, SyncRead(r, w.db.rows[r].status, id, false))
  {
    RunNothing(w, SyncSteps(c, r));
    hide Do, Run, At;
    SyncStepsOpen(w, c, r, id);
    RunSnoc(w, SyncSteps(c, r), 0);
    RunSnoc(w, SyncSteps(c, r), 1);
  }

  lemma RunNothing(w: World, steps: seq<Step>)
    ensures Run(w, steps[..0]) == w
  {
  }

  lemma SyncStepTwo(w: World, c: CallerId, r: RowId, id: nat)
    requires HasChainId(w, r, id) && id in w.chain.intents
    ensures var status := FromChain(w.chain.intents[id].status);
            Do(At(w, c, SyncRead(r, w.db.rows[r].status, id, false)), SyncSteps(c, r)[2]) ==
              At(w, c, if w.db.rows[r].status == status then Idle else SyncWrite(r, status, false))
  {
  }

  lemma {:induction false} SyncCompares(w: World, c: CallerId, r: RowId, id: nat)
    requires HasChainId(w, r, id) && PcOf(w, c) == Idle && id in w.chain.intents
    ensures var status := FromChain(w.chain.intents[id].status);
            Run(w, SyncSteps(c, r)[..3]) ==
              At(w, c, if w.db.rows[r].status == status then Idle else SyncWrite(r, status, false))
  {
    hide Do, Run;
    SyncReads(w, c, r, id);
    SyncStepTwo(w, c, r, id);
    RunSnoc(w, SyncSteps(c, r), 2);
  }

  lemma SyncOnceShape(w: World, c: CallerId, r: RowId, id: nat)
    requires HasChainId(w, r, id) && PcOf(w, c) == Idle && id in w.chain.intents
    ensures var status := FromChain(w.chain.intents[id].status);
            SyncOnce(w, c, r) ==
              At(w.(db := if w.db.rows[r].status == status then w.db else SyncDb(w.db, r, status)), c, Idle)
  {
    SyncCompares(w, c, r, id);
    RunSnoc(w, SyncSteps(c, r), 3);
    assert SyncSteps(c, r)[..4] == SyncSteps(c, r);
  }

  lemma LinkedIsOnChain(w: World, r: RowId)
    requires Inv(w) && r in w.db.rows && w.db.rows[r].chainId.Some?
    ensures w.db.rows[r].chainId.value in w.chain.intents
    ensures Carries(w.chain.intents[w.db.rows[r].chainId.value], w.db.rows[r])
  {
    assert RowOk(w, r);
    var x :| LinkedBy(w, r, w.db.rows[r].chainId.value, x);
    assert TxOk(w, x);
  }

  /** One sync makes a linked row say what the chain says; a second finds nothing to do. */
  lemma {:induction false} SyncReconciles(w: World, c: CallerId, r: RowId)
    requires Inv(w) && PcOf(w, c) == Idle && r in w.db.rows && w.db.rows[r].chainId.Some?
    ensures w.db.rows[r].chainId.value in w.chain.intents
    ensures var status := FromChain(w.chain.intents[w.db.rows[r].chainId.value].status);
            var w' := SyncOnce(w, c, r);
            && PcOf(w', c) == Idle && w'.chain == w.chain && w'.txs == w.txs
            && w'.db.rows == w.db.rows[r := w.db.rows[r].(status := status)]
            && (w.db.rows[r].status == status ==> w'.db == w.db)
            && SyncOnce(w', c, r).db == w'.db
  {
    LinkedIsOnChain(w, r);
    var id := w.db.rows[r].chainId.value;
    var status := FromChain(w.chain.intents[id].status);
    SyncOnceShape(w, c, r, id);
    SyncOnceShape(SyncOnce(w, c, r), c, r, id);
    if w.db.rows[r].status == status {
      assert w.db.rows[r := w.db.rows[r].(status := status)] == w.db.rows;
    }
  }

  /**
  A sync never records an approval, in any interleaving: a linked row has left
  proposed for good, so the only statuses a sync has to write are the final ones.
  */
  lemma SyncOnlyCloses(vault: Address, admin: Address, b0: Balances, now: nat, steps: seq<Step>, c: CallerId)
    requires FairRun(vault, steps)
    ensures var w := Run(Init(vault, admin, b0, now), steps);
            PcOf(w, c).SyncWrite? ==>
              && PcOf(w, c).status in {LocalDb.Released, Reverted}
              && (forall r :: r in w.db.rows && r == PcOf(w, c).r ==> w.db.rows[r].status !in {Proposed, Held})
  {
    InitInv(vault, admin, b0, now);
    RunKeeps(Init(vault, admin, b0, now), steps);
    var w := Run(Init(vault, admin, b0, now), steps);
    assert PcOk(w, PcOf(w, c));
    if PcOf(w, c).SyncWrite? && PcOf(w, c).r in w.db.rows { assert RowOk(w, PcOf(w, c).r); }
  }

  /** The read back: execute goes on to approve exactly when it reads its own hash and a Funded escrow. */
  lemma VerifiesExactly(w: World, c: CallerId, choice: Choice, r: RowId, snap: Row, id: nat)
    requires PcOf(w, c) == ExecLinked(r, snap, id)
    ensures DoNext(w, c, choice).db == w.db
    ensures PcOf(DoNext(w, c, choice), c) ==
      if choice != Fail && id in w.chain.intents && Lower(w.chain.intents[id].requestHash) == Lower(snap.requestHash)
           && w.chain.intents[id].status == Escrow.Funded
      then ExecVerified(r, snap, id) else Idle
  {
  }

  // ---- The one write that can step back ----

  /**
  execute's last write sets the row to escrowed whatever it says by then.  It
  leaves the row in agreement with the chain exactly when the escrow is still
  Funded at that moment; otherwise the row says escrowed over a closed escrow
  until a later sync.
  */
  lemma ApprovalAgreesExactly(w: World, c: CallerId, r: RowId, snap: Row, id: nat)
    requires Inv(w) && PcOf(w, c) == ExecVerified(r, snap, id)
    ensures var w' := DoNext(w, c, Go);
            && r in w'.db.rows && id in w'.chain.intents && w'.chain == w.chain
            && (w'.db.rows[r].status == FromChain(w.chain.intents[id].status) <==> w.chain.intents[id].status == Escrow.Funded)
  {
    assert PcOk(w, PcOf(w, c));
    LinkedIsOnChain(w, r);
  }
}
