/**
The inductive invariant of the two-ledger protocol: who holds the claim on a
row, what may still land for it, and what the local row may say about the chain.
*/
module ProtocolInv {
  import opened Wrappers
  import opened Ledger
  import Escrow
  import EscrowRuns
  import EscrowTheorems
  import opened LocalDb
  import opened Protocol

  /** Everything a row says except where it stands. */
  predicate SameTerms(a: Row, b: Row) {
    a == b.(status := a.status, chainId := a.chainId)
  }

  /** The on-chain intent is bound to the row it was created for. */
  predicate Carries(x: Escrow.Intent, row: Row) {
    && x.requestHash == row.requestHash && x.supplier == row.supplier && x.token == row.token
    && x.amount == row.amount && x.deadline == row.deadline
  }

  predicate Live(tx: Tx) {
    !tx.state.Dead?
  }

  ghost predicate NoLive(w: World, r: RowId) {
    forall x :: x in w.txs && w.txs[x].row == r ==> !Live(w.txs[x])
  }

  ghost predicate OnlyLive(w: World, r: RowId, x: TxHash) {
    forall y :: y in w.txs && w.txs[y].row == r && Live(w.txs[y]) ==> y == x
  }

  // ---- Rows ----

  ghost predicate LinkedBy(w: World, r: RowId, id: nat, x: TxHash) {
    && LandedAs(w, x, r, id)
    && ChainTx(r, "create_intent", Some(x)) in w.db.chainTxs
  }

  ghost predicate Linked(w: World, r: RowId, id: nat) {
    exists x :: LinkedBy(w, r, id, x)
  }

  ghost predicate SettledAs(w: World, r: RowId, status: Escrow.Status) {
    && r in w.db.rows && w.db.rows[r].chainId.Some?
    && w.db.rows[r].chainId.value in w.chain.intents
    && w.chain.intents[w.db.rows[r].chainId.value].status == status
  }

  ghost predicate RowOk(w: World, r: RowId)
    requires r in w.db.rows
  {
    var row := w.db.rows[r];
    && (row.chainId.Some? ==> row.status in {Escrowed, Released, Reverted} && Linked(w, r, row.chainId.value))
    && (row.status == LocalDb.Released ==> SettledAs(w, r, Escrow.Released))
    && (row.status == Reverted ==> SettledAs(w, r, Escrow.Refunded))
  }

  ghost predicate RowsOk(w: World) {
    forall r :: r in w.db.rows ==> RowOk(w, r)
  }

  // ---- Transactions ----

  ghost predicate TxOk(w: World, x: TxHash)
    requires x in w.txs
  {
    var tx := w.txs[x];
    && tx.row in w.db.rows && SameTerms(tx.terms, w.db.rows[tx.row])
    && (Live(tx) ==> w.db.rows[tx.row].status !in {Proposed, Held})
    && (tx.state.Landed? ==> tx.state.id in w.chain.intents && Carries(w.chain.intents[tx.state.id], tx.terms))
  }

  /** At most one transaction of a row is pending or landed, and no two landed as the same escrow. */
  ghost predicate TxsApart(w: World) {
    && (forall x, y :: x in w.txs && y in w.txs && w.txs[x].row == w.txs[y].row && Live(w.txs[x]) && Live(w.txs[y]) ==> x == y)
    && (forall x, y :: x in w.txs && y in w.txs && w.txs[x].state.Landed? && w.txs[x].state == w.txs[y].state ==> x == y)
  }

  ghost predicate TxsOk(w: World) {
    (forall x :: x in w.txs ==> TxOk(w, x)) && TxsApart(w)
  }

  // ---- Callers ----

  ghost predicate Claimed(w: World, r: RowId) {
    r in w.db.rows && w.db.rows[r].status == Escrowed && w.db.rows[r].chainId == None
  }

  ghost predicate ReadAs(w: World, r: RowId, snap: Row) {
    r in w.db.rows && SameTerms(snap, w.db.rows[r])
  }

  ghost predicate BelongsTo(w: World, x: TxHash, r: RowId) {
    x in w.txs && w.txs[x].row == r
  }

  ghost predicate LandedAs(w: World, x: TxHash, r: RowId, id: nat) {
    x in w.txs && w.txs[x].row == r && w.txs[x].state == Landed(id)
  }

  ghost predicate Owes(w: World, r: RowId, amount: int, address: Address) {
    r in w.db.rows && amount == w.db.rows[r].amount && address == w.db.rows[r].supplier
  }

  ghost predicate HasChainId(w: World, r: RowId, id: nat) {
    r in w.db.rows && w.db.rows[r].chainId == Some(id)
  }

  /** A status that was read or is about to be written is backed by the chain, for good. */
  ghost predicate Backed(w: World, r: RowId, status: Status) {
    && (status == LocalDb.Released ==> SettledAs(w, r, Escrow.Released))
    && (status == Reverted ==> SettledAs(w, r, Escrow.Refunded))
  }

  /** What a caller has learned.  None of it can become untrue. */
  ghost predicate PcKnows(w: World, pc: Pc) {
    match pc
    case Idle => true
    case ExecStart(_, _) => true
    case ExecRead(r, snap) => ReadAs(w, r, snap)
    case ExecClaimed(r, snap) => ReadAs(w, r, snap)
    case ExecWaiting(r, snap, x) => ReadAs(w, r, snap) && BelongsTo(w, x, r)
    case ExecRejected(_) => true
    case ExecUnconfirmed(r, x) => BelongsTo(w, x, r)
    case ExecConfirmed(r, snap, x, id) => ReadAs(w, r, snap) && LandedAs(w, x, r, id)
    case ExecRecorded(r, snap, x, id) => ReadAs(w, r, snap) && LinkedBy(w, r, id, x)
    case ExecLinked(r, snap, id) => ReadAs(w, r, snap) && HasChainId(w, r, id)
    case ExecVerified(r, snap, id) => ReadAs(w, r, snap) && HasChainId(w, r, id)
    case ReleaseStart(_) => true
    case ReleaseReady(r, id) => HasChainId(w, r, id)
    case ReleasePaid(r) => SettledAs(w, r, Escrow.Released)
    case RevertStart(_) => true
    case RevertReady(r, id) => HasChainId(w, r, id)
    case RevertPaid(_) => true
    case SyncStart(r, pay) => pay ==> SettledAs(w, r, Escrow.Released)
    case SyncRead(r, status, id, pay) =>
      && HasChainId(w, r, id) && status in {Escrowed, Released, Reverted} && Backed(w, r, status)
      && (pay ==> SettledAs(w, r, Escrow.Released))
    case SyncWrite(r, status, pay) =>
      status in {Released, Reverted} && Backed(w, r, status) && (pay ==> SettledAs(w, r, Escrow.Released))
    case CashOut(r) => SettledAs(w, r, Escrow.Released)
    case CashOutReady(r, amount, address) => SettledAs(w, r, Escrow.Released) && Owes(w, r, amount, address)
  }

  /** What a claim holder relies on while it holds: the row is claimed and unlinked, and nothing else of it can land. */
  ghost predicate PcHolds(w: World, pc: Pc) {
    match pc
    case ExecClaimed(r, _) => Claimed(w, r) && NoLive(w, r)
    case ExecWaiting(r, _, x) => Claimed(w, r) && OnlyLive(w, r, x)
    case ExecRejected(r) => Claimed(w, r) && NoLive(w, r)
    case ExecConfirmed(r, _, _, _) => Claimed(w, r)
    case ExecRecorded(r, _, _, _) => Claimed(w, r)
    case _ => true
  }

  ghost predicate PcOk(w: World, pc: Pc) {
    PcKnows(w, pc) && PcHolds(w, pc)
  }

  /** The row whose claim this caller holds: it alone may submit for it, reopen it, or link it. */
  function Holding(pc: Pc): Option<RowId> {
    match pc
    case ExecClaimed(r, _) => Some(r)
    case ExecWaiting(r, _, _) => Some(r)
    case ExecRejected(r) => Some(r)
    case ExecConfirmed(r, _, _, _) => Some(r)
    case ExecRecorded(r, _, _, _) => Some(r)
    case _ => None
  }

  /** The row this caller released on chain and may still pay out for. */
  function Winning(pc: Pc): Option<RowId> {
    match pc
    case ReleasePaid(r) => Some(r)
    case SyncStart(r, true) => Some(r)
    case SyncRead(r, _, _, true) => Some(r)
    case SyncWrite(r, _, true) => Some(r)
    case CashOut(r) => Some(r)
    case CashOutReady(r, _, _) => Some(r)
    case _ => None
  }

  ghost predicate NotPaid(db: Db, r: RowId) {
    forall i :: 0 <= i < |db.payouts| ==> db.payouts[i].row != r
  }

  ghost predicate CallersOk(w: World) {
    forall c :: c in w.callers ==> PcOk(w, w.callers[c])
  }

  ghost predicate Exclusive(w: World) {
    && (forall c, d :: c in w.callers && d in w.callers && c != d && Holding(w.callers[c]).Some?
          ==> Holding(w.callers[c]) != Holding(w.callers[d]))
    && (forall c, d :: c in w.callers && d in w.callers && c != d && Winning(w.callers[c]).Some?
          ==> Winning(w.callers[c]) != Winning(w.callers[d]))
    && (forall c :: c in w.callers && Winning(w.callers[c]).Some? ==> NotPaid(w.db, Winning(w.callers[c]).value))
  }

  // ---- Payouts ----

  ghost predicate PayoutOk(w: World, p: Payout) {
    SettledAs(w, p.row, Escrow.Released) && Owes(w, p.row, p.amount, p.address)
  }

  ghost predicate PayoutsOk(w: World) {
    && (forall i :: 0 <= i < |w.db.payouts| ==> PayoutOk(w, w.db.payouts[i]))
    && (forall i, j :: 0 <= i < j < |w.db.payouts| ==> w.db.payouts[i].row != w.db.payouts[j].row)
  }

  ghost predicate Inv(w: World) {
    EscrowRuns.TableInv(w.chain) && RowsOk(w) && TxsOk(w) && CallersOk(w) && Exclusive(w) && PayoutsOk(w)
  }

  // ---- What no step can undo ----

  /** Everything a caller may have learned in `w` is still so in `w'`. */
  ghost predicate Remembers(w: World, w': World) {
    && (forall r, snap :: ReadAs(w, r, snap) ==> ReadAs(w', r, snap))
    && (forall r, id :: HasChainId(w, r, id) ==> HasChainId(w', r, id))
    && (forall r, status :: SettledAs(w, r, status) && status != Escrow.Funded ==> SettledAs(w', r, status))
    && (forall r, amount, address :: Owes(w, r, amount, address) ==> Owes(w', r, amount, address))
    && (forall x, r :: BelongsTo(w, x, r) ==> BelongsTo(w', x, r))
    && (forall x, r, id :: LandedAs(w, x, r, id) ==> LandedAs(w', x, r, id))
    && (forall t :: t in w.db.chainTxs ==> t in w'.db.chainTxs)
  }

  lemma KnowsKept(w: World, w': World, pc: Pc)
    requires Remembers(w, w') && PcKnows(w, pc)
    ensures PcKnows(w', pc)
  {
    if pc.ExecRecorded? {
      assert LinkedBy(w, pc.r, pc.id, pc.x);
    }
  }

  /** What the holder of `r` relies on, seen from outside. */
  ghost predicate HoldKept(w: World, w': World, r: RowId) {
    && (Claimed(w, r) ==> Claimed(w', r))
    && (NoLive(w, r) ==> NoLive(w', r))
    && (forall x :: OnlyLive(w, r, x) ==> OnlyLive(w', r, x))
  }

  lemma CallersKept(w: World, w': World)
    requires CallersOk(w) && w'.callers == w.callers && Remembers(w, w')
    requires forall c :: c in w.callers && Holding(w.callers[c]).Some? ==> HoldKept(w, w', Holding(w.callers[c]).value)
    ensures CallersOk(w')
  {
    forall c | c in w'.callers ensures PcOk(w', w'.callers[c]) {
      KnowsKept(w, w', w.callers[c]);
    }
  }

  lemma RowKept(w: World, w': World, r: RowId)
    requires r in w.db.rows && r in w'.db.rows && w'.db.rows[r] == w.db.rows[r]
    requires RowOk(w, r) && Remembers(w, w')
    ensures RowOk(w', r)
  {
    var row := w.db.rows[r];
    if row.chainId.Some? {
      var x :| LinkedBy(w, r, row.chainId.value, x);
      assert LinkedBy(w', r, row.chainId.value, x);
    }
  }

  lemma PayoutsKept(w: World, w': World)
    requires PayoutsOk(w) && w'.db.payouts == w.db.payouts && Remembers(w, w')
    ensures PayoutsOk(w')
  {
  }

  /** A step that leaves the rows, the payouts and the callers alone. */
  lemma {:induction false} Assemble(w: World, w': World)
    requires Inv(w) && Remembers(w, w')
    requires w'.callers == w.callers && w'.db.rows == w.db.rows && w'.db.payouts == w.db.payouts
    requires forall c :: c in w.callers && Holding(w.callers[c]).Some? ==> HoldKept(w, w', Holding(w.callers[c]).value)
    requires EscrowRuns.TableInv(w'.chain) && TxsOk(w')
    ensures Inv(w')
  {
    CallersKept(w, w');
    forall r | r in w'.db.rows ensures RowOk(w', r) {
      RowKept(w, w', r);
    }
    PayoutsKept(w, w');
  }

  // ---- Moving one caller and nothing else ----

  ghost predicate NobodyElseHolds(w: World, c: CallerId, r: RowId) {
    forall d :: d in w.callers && d != c ==> Holding(w.callers[d]) != Some(r)
  }

  ghost predicate NobodyElseWins(w: World, c: CallerId, r: RowId) {
    forall d :: d in w.callers && d != c ==> Winning(w.callers[d]) != Some(r)
  }

  /** The invariant looks at the database, the pool and the chain through the same eyes whoever is running. */
  lemma SameViews(w: World, w': World)
    requires w'.db == w.db && w'.txs == w.txs && w'.chain == w.chain
    ensures forall pc :: PcOk(w, pc) ==> PcOk(w', pc)
    ensures RowsOk(w) ==> RowsOk(w')
    ensures TxsOk(w) ==> TxsOk(w')
    ensures PayoutsOk(w) ==> PayoutsOk(w')
  {
    assert forall r, id, x :: LinkedBy(w, r, id, x) ==> LinkedBy(w', r, id, x);
  }

  lemma CallerMoves(w: World, c: CallerId, pc: Pc)
    requires Inv(w) && PcOk(w, pc)
    requires Holding(pc).Some? ==> NobodyElseHolds(w, c, Holding(pc).value)
    requires Winning(pc).Some? ==> NobodyElseWins(w, c, Winning(pc).value) && NotPaid(w.db, Winning(pc).value)
    ensures Inv(At(w, c, pc))
  {
    hide PcOk, RowsOk, TxsOk, PayoutsOk, EscrowRuns.TableInv;
    var w' := At(w, c, pc);
    SameViews(w, w');
    assert CallersOk(w');
    assert Exclusive(w');
  }

  /** A caller that keeps what it holds, or lets go of it. */
  lemma CallerStays(w: World, c: CallerId, pc: Pc)
    requires Inv(w) && PcOk(w, pc)
    requires Holding(pc).Some? ==> Holding(pc) == Holding(PcOf(w, c))
    requires Winning(pc).Some? ==> Winning(pc) == Winning(PcOf(w, c))
    ensures Inv(At(w, c, pc))
  {
    CallerMoves(w, c, pc);
  }

  // ---- Changes to the database while nobody moves ----

  /** Appending to the logs. */
  lemma LogGrows(w: World, db: Db)
    requires Inv(w) && db.rows == w.db.rows && db.payouts == w.db.payouts
    requires forall t :: t in w.db.chainTxs ==> t in db.chainTxs
    ensures Inv(w.(db := db))
  {
    var w' := w.(db := db);
    assert Remembers(w, w');
    CallersKept(w, w');
    forall r | r in w'.db.rows ensures RowOk(w', r) {
      RowKept(w, w', r);
    }
    PayoutsKept(w, w');
  }

  /** One row changes its status or gains its link. */
  ghost predicate RowChanges(w: World, w': World, r: RowId, row: Row) {
    && r in w.db.rows && SameTerms(row, w.db.rows[r])
    && (w.db.rows[r].chainId.Some? ==> row.chainId == w.db.rows[r].chainId)
    && w' == w.(db := w.db.(rows := w.db.rows[r := row], decisions := w'.db.decisions))
  }

  lemma RowChangeRemembers(w: World, w': World, r: RowId, row: Row)
    requires RowChanges(w, w', r, row)
    ensures Remembers(w, w')
  {
  }

  lemma RowChangeTxs(w: World, w': World, r: RowId, row: Row)
    requires RowChanges(w, w', r, row) && TxsOk(w)
    requires NoLive(w, r) || row.status !in {Proposed, Held}
    ensures TxsOk(w')
  {
    forall x | x in w'.txs ensures TxOk(w', x) {
      assert TxOk(w, x);
    }
  }

  /** Such a write is safe while nobody holds the row's claim. */
  lemma RowWrite(w: World, w': World, r: RowId, row: Row)
    requires Inv(w) && RowChanges(w, w', r, row)
    requires forall c :: c in w.callers ==> Holding(w.callers[c]) != Some(r)
    requires NoLive(w, r) || row.status !in {Proposed, Held}
    requires RowOk(w', r)
    ensures Inv(w')
  {
    RowChangeRemembers(w, w', r, row);
    RowChangeTxs(w, w', r, row);
    CallersKept(w, w');
    forall q | q in w'.db.rows ensures RowOk(w', q) {
      if q != r { RowKept(w, w', q); }
    }
    PayoutsKept(w, w');
  }

  lemma NobodyHoldsUnlessClaimed(w: World, r: RowId)
    requires Inv(w) && !Claimed(w, r)
    ensures forall c :: c in w.callers ==> Holding(w.callers[c]) != Some(r)
  {
    forall c | c in w.callers ensures Holding(w.callers[c]) != Some(r) {
      assert PcOk(w, w.callers[c]);
    }
  }

  /** A proposed or held row has no link, so nothing of it is live and nobody holds it. */
  lemma ProposedIsClean(w: World, r: RowId)
    requires Inv(w) && r in w.db.rows && w.db.rows[r].status in {Proposed, Held}
    ensures w.db.rows[r].chainId == None && NoLive(w, r)
    ensures forall c :: c in w.callers ==> Holding(w.callers[c]) != Some(r)
  {
    assert RowOk(w, r);
    forall x | x in w.txs && w.txs[x].row == r ensures !Live(w.txs[x]) {
      assert TxOk(w, x);
    }
    NobodyHoldsUnlessClaimed(w, r);
  }

  // ---- Changes to the chain and the pool ----

  /** The chain moves on by itself. */
  lemma {:induction false} ChainGrows(w: World, s: Escrow.State)
    requires Inv(w) && EscrowTheorems.Evolves(w.chain, s) && EscrowRuns.TableInv(s)
    ensures Inv(w.(chain := s))
  {
    var w' := w.(chain := s);
    ChainGrowthRemembers(w, s);
    CallersKept(w, w');
    forall r | r in w'.db.rows ensures RowOk(w', r) {
      RowKept(w, w', r);
    }
    forall x | x in w'.txs ensures TxOk(w', x) {
      assert TxOk(w, x);
    }
    PayoutsKept(w, w');
  }

  lemma ChainGrowthRemembers(w: World, s: Escrow.State)
    requires EscrowTheorems.Evolves(w.chain, s)
    ensures Remembers(w, w.(chain := s))
  {
  }

  /** A transaction changes state: what had landed or died stays so. */
  predicate TxMoves(w: World, w': World, x: TxHash, state: TxState) {
    x in w.txs && w.txs[x].state == Pending && w' == w.(txs := w.txs[x := w.txs[x].(state := state)])
  }

  lemma TxMoveRemembers(w: World, w': World, x: TxHash, state: TxState)
    requires TxMoves(w, w', x, state)
    ensures Remembers(w, w')
  {
  }

  lemma TxMoveHolds(w: World, w': World, x: TxHash, state: TxState, r: RowId)
    requires TxMoves(w, w', x, state)
    ensures HoldKept(w, w', r)
  {
  }

  /** A pending transaction becomes an escrow of its own, or fails for good. */
  lemma TxSettles(w: World, w': World, x: TxHash, state: TxState)
    requires Inv(w) && TxMoves(w, w', x, state) && !state.Pending?
    requires state.Landed? ==>
               && state.id in w.chain.intents && Carries(w.chain.intents[state.id], w.txs[x].terms)
               && (forall y :: y in w.txs ==> w.txs[y].state != state)
    ensures Inv(w')
  {
    hide RowsOk, CallersOk, PayoutsOk, EscrowRuns.TableInv;
    TxMoveRemembers(w, w', x, state);
    forall r ensures HoldKept(w, w', r) {
      TxMoveHolds(w, w', x, state, r);
    }
    forall y | y in w'.txs ensures TxOk(w', y) {
      assert TxOk(w, y);
    }
    Assemble(w, w');
  }

  /** The claim holder submits; it is set down before and picked up after. */
  lemma {:induction false} TxSent(w: World, w': World, x: TxHash, tx: Tx)
    requires Inv(w) && x !in w.txs && tx.state == Pending && w' == w.(txs := w.txs[x := tx])
    requires ReadAs(w, tx.row, tx.terms) && Claimed(w, tx.row) && NoLive(w, tx.row)
    requires forall c :: c in w.callers ==> Holding(w.callers[c]) != Some(tx.row)
    ensures Inv(w') && OnlyLive(w', tx.row, x)
  {
    hide RowsOk, CallersOk, PayoutsOk, EscrowRuns.TableInv;
    assert Remembers(w, w');
    forall r | r != tx.row ensures HoldKept(w, w', r) {
    }
    forall y | y in w'.txs ensures TxOk(w', y) {
      assert y != x ==> TxOk(w, y);
    }
    assert TxsApart(w');
    Assemble(w, w');
  }

  // ---- Payouts and new rows ----

  /** Writes that leave every existing row and transaction as it was. */
  lemma AppendRemembers(w: World, w': World)
    requires w'.txs == w.txs && w'.chain == w.chain && w'.db.chainTxs == w.db.chainTxs
    requires forall r :: r in w.db.rows ==> r in w'.db.rows && w'.db.rows[r] == w.db.rows[r]
    ensures Remembers(w, w') && (forall r :: HoldKept(w, w', r))
  {
  }

  lemma AppendTxs(w: World, w': World)
    requires TxsOk(w) && w'.txs == w.txs && w'.chain == w.chain
    requires forall r :: r in w.db.rows ==> r in w'.db.rows && w'.db.rows[r] == w.db.rows[r]
    ensures TxsOk(w')
  {
    forall x | x in w'.txs ensures TxOk(w', x) {
      assert TxOk(w, x);
    }
  }

  lemma PayoutAdded(w: World, w': World, p: Payout)
    requires Inv(w) && PayoutOk(w, p) && NotPaid(w.db, p.row)
    requires forall c :: c in w.callers ==> Winning(w.callers[c]) != Some(p.row)
    requires w' == w.(db := AddPayout(w.db, p.row, p.amount, p.address))
    ensures Inv(w')
  {
    hide RowOk, PcOk, PayoutOk, TxsOk, Remembers, EscrowRuns.TableInv;
    AppendRemembers(w, w');
    AppendTxs(w, w');
    CallersKept(w, w');
    forall r | r in w'.db.rows ensures RowOk(w', r) {
      RowKept(w, w', r);
    }
    PayoutsGrow(w, w', p);
  }

  lemma PayoutsGrow(w: World, w': World, p: Payout)
    requires PayoutsOk(w) && PayoutOk(w, p) && NotPaid(w.db, p.row) && Remembers(w, w')
    requires w'.db.payouts == w.db.payouts + [p]
    ensures PayoutsOk(w')
  {
    forall i | 0 <= i < |w'.db.payouts| ensures PayoutOk(w', w'.db.payouts[i]) {
      assert PayoutOk(w, w'.db.payouts[i]);
    }
  }

  lemma RowInserted(w: World, w': World, r: RowId, row: Row, codes: seq<string>)
    requires Inv(w) && r !in w.db.rows && row.status in {Proposed, Held} && row.chainId == None
    requires w' == w.(db := RecordIntent(w.db, r, row, codes))
    ensures Inv(w')
  {
    AppendRemembers(w, w');
    AppendTxs(w, w');
    CallersKept(w, w');
    forall q | q in w'.db.rows ensures RowOk(w', q) {
      if q != r { RowKept(w, w', q); }
    }
    PayoutsKept(w, w');
  }
}
