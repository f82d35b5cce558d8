/**
Two stories told in the protocol: execute, left alone, carries a proposed row to
the chain; and a release that overtakes execute's last write leaves the local row
behind the chain, shown from an empty database on.
*/
module ProtocolRegression {
  import opened Wrappers
  import opened Ledger
  import Escrow
  import opened LocalDb
  import opened Protocol
  import opened ProtocolInv
  import opened ProtocolTheorems

  /** The escrow this row asks for can be created, and is `s` afterwards. */
  predicate CanLand(w: World, r: RowId, sme: Address, auth: set<Address>, s: Escrow.State) {
    r in w.db.rows && Escrow.Try(w.chain, Escrow.Invocation(auth, CreateCall(Tx(r, sme, w.db.rows[r], Pending)))) == Ok(s)
  }

  predicate Ready(w: World, c: CallerId, r: RowId, x: TxHash, sme: Address, auth: set<Address>, s: Escrow.State) {
    PcOf(w, c) == Idle && x !in w.txs && Claimable(w.db, r) && CanLand(w, r, sme, auth, s)
  }

  function ExecuteSteps(c: CallerId, r: RowId, x: TxHash, sme: Address, auth: set<Address>): seq<Step> {
    [Begin(c, Execute(r, false)), Next(c, Go), Next(c, Go), Next(c, Send(x, sme)), Land(x, auth),
     Next(c, Go), Next(c, Go), Next(c, Go), Next(c, Go), Next(c, Go)]
  }

  /** The claimed row with its transaction in the pool. */
  function InFlight(w: World, c: CallerId, r: RowId, x: TxHash, sme: Address, state: TxState, pc: Pc): World
    requires r in w.db.rows
  {
    At(w.(db := ClaimEscrow(w.db, r), txs := w.txs[x := Tx(r, sme, w.db.rows[r], state)]), c, pc)
  }

  function Recorded(w: World, r: RowId, x: TxHash): Db {
    AddChainTx(ClaimEscrow(w.db, r), r, "create_intent", Some(x))
  }

  /** The same once the escrow exists. */
  function Landed(w: World, c: CallerId, r: RowId, x: TxHash, sme: Address, s: Escrow.State, db: Db, pc: Pc): World
    requires r in w.db.rows
  {
    InFlight(w, c, r, x, sme, TxState.Landed(s.counter), pc).(chain := s, db := db)
  }

  function Linked(w: World, r: RowId, x: TxHash, s: Escrow.State): Db {
    SetChainIntent(Recorded(w, r, x), r, s.counter)
  }

  function Executed(w: World, c: CallerId, r: RowId, x: TxHash, sme: Address, s: Escrow.State): World
    requires r in w.db.rows
  {
    Landed(w, c, r, x, sme, s, RecordApproved(Linked(w, r, x, s), r, ["ESCROWED_ONCHAIN"], w.db.rows[r].requestHash), Idle)
  }

  /** The worlds execute passes through when nobody interferes. */
  function Story(w: World, c: CallerId, r: RowId, x: TxHash, sme: Address, s: Escrow.State): seq<World>
    requires r in w.db.rows
  {
    [w,
     At(w, c, ExecStart(r, false)),
     At(w, c, ExecRead(r, w.db.rows[r])),
     At(w.(db := ClaimEscrow(w.db, r)), c, ExecClaimed(r, w.db.rows[r])),
     InFlight(w, c, r, x, sme, Pending, ExecWaiting(r, w.db.rows[r], x)),
     Landed(w, c, r, x, sme, s, ClaimEscrow(w.db, r), ExecWaiting(r, w.db.rows[r], x)),
     Landed(w, c, r, x, sme, s, ClaimEscrow(w.db, r), ExecConfirmed(r, w.db.rows[r], x, s.counter)),
     Landed(w, c, r, x, sme, s, Recorded(w, r, x), ExecRecorded(r, w.db.rows[r], x, s.counter)),
     Landed(w, c, r, x, sme, s, Linked(w, r, x, s), ExecLinked(r, w.db.rows[r], s.counter)),
     Landed(w, c, r, x, sme, s, Linked(w, r, x, s), ExecVerified(r, w.db.rows[r], s.counter)),
     Executed(w, c, r, x, sme, s)]
  }

  lemma Starts(w: World, c: CallerId, r: RowId, x: TxHash, sme: Address, auth: set<Address>, s: Escrow.State)
    requires Ready(w, c, r, x, sme, auth, s)
    ensures Do(w, Begin(c, Execute(r, false)))
         == At(w, c, ExecStart(r, false))
  {
  }

  lemma Reads(w: World, c: CallerId, r: RowId, x: TxHash, sme: Address, auth: set<Address>, s: Escrow.State)
    requires Ready(w, c, r, x, sme, auth, s)
    ensures Do(At(w, c, ExecStart(r, false)), Next(c, Go))
         == At(w, c, ExecRead(r, w.db.rows[r]))
  {
  }

  lemma Claims(w: World, c: CallerId, r: RowId, x: TxHash, sme: Address, auth: set<Address>, s: Escrow.State)
    requires Ready(w, c, r, x, sme, auth, s)
    ensures Do(At(w, c, ExecRead(r, w.db.rows[r])), Next(c, Go))
         == At(w.(db := ClaimEscrow(w.db, r)), c, ExecClaimed(r, w.db.rows[r]))
  {
  }

  lemma Sends(w: World, c: CallerId, r: RowId, x: TxHash, sme: Address, auth: set<Address>, s: Escrow.State)
    requires Ready(w, c, r, x, sme, auth, s)
    ensures Do(At(w.(db := ClaimEscrow(w.db, r)), c, ExecClaimed(r, w.db.rows[r])), Next(c, Send(x, sme)))
         == InFlight(w, c, r, x, sme, Pending, ExecWaiting(r, w.db.rows[r], x))
  {
  }

  lemma Lands(w: World, c: CallerId, r: RowId, x: TxHash, sme: Address, auth: set<Address>, s: Escrow.State)
    requires Ready(w, c, r, x, sme, auth, s)
    ensures Do(InFlight(w, c, r, x, sme, Pending, ExecWaiting(r, w.db.rows[r], x)), Land(x, auth))
         == Landed(w, c, r, x, sme, s, ClaimEscrow(w.db, r), ExecWaiting(r, w.db.rows[r], x))
  {
  }

  lemma Confirms(w: World, c: CallerId, r: RowId, x: TxHash, sme: Address, auth: set<Address>, s: Escrow.State)
    requires Ready(w, c, r, x, sme, auth, s)
    ensures Do(Landed(w, c, r, x, sme, s, ClaimEscrow(w.db, r), ExecWaiting(r, w.db.rows[r], x)), Next(c, Go))
         == Landed(w, c, r, x, sme, s, ClaimEscrow(w.db, r), ExecConfirmed(r, w.db.rows[r], x, s.counter))
  {
  }

  lemma Records(w: World, c: CallerId, r: RowId, x: TxHash, sme: Address, auth: set<Address>, s: Escrow.State)
    requires Ready(w, c, r, x, sme, auth, s)
    ensures Do(Landed(w, c, r, x, sme, s, ClaimEscrow(w.db, r), ExecConfirmed(r, w.db.rows[r], x, s.counter)), Next(c, Go))
         == Landed(w, c, r, x, sme, s, Recorded(w, r, x), ExecRecorded(r, w.db.rows[r], x, s.counter))
  {
  }

  lemma Links(w: World, c: CallerId, r: RowId, x: TxHash, sme: Address, auth: set<Address>, s: Escrow.State)
    requires Ready(w, c, r, x, sme, auth, s)
    ensures Do(Landed(w, c, r, x, sme, s, Recorded(w, r, x), ExecRecorded(r, w.db.rows[r], x, s.counter)), Next(c, Go))
         == Landed(w, c, r, x, sme, s, Linked(w, r, x, s), ExecLinked(r, w.db.rows[r], s.counter))
  {
  }

  lemma Verifies(w: World, c: CallerId, r: RowId, x: TxHash, sme: Address, auth: set<Address>, s: Escrow.State)
    requires Ready(w, c, r, x, sme, auth, s)
    ensures Do(Landed(w, c, r, x, sme, s, Linked(w, r, x, s), ExecLinked(r, w.db.rows[r], s.counter)), Next(c, Go))
         == Landed(w, c, r, x, sme, s, Linked(w, r, x, s), ExecVerified(r, w.db.rows[r], s.counter))
  {
  }

  lemma Approves(w: World, c: CallerId, r: RowId, x: TxHash, sme: Address, auth: set<Address>, s: Escrow.State)
    requires Ready(w, c, r, x, sme, auth, s)
    ensures Do(Landed(w, c, r, x, sme, s, Linked(w, r, x, s), ExecVerified(r, w.db.rows[r], s.counter)), Next(c, Go))
         == Executed(w, c, r, x, sme, s)
  {
  }

  lemma {:induction false} StoryOpens(w: World, c: CallerId, r: RowId, x: TxHash, sme: Address, auth: set<Address>, s: Escrow.State, i: nat)
    requires Ready(w, c, r, x, sme, auth, s) && i < 2
    ensures Do(Story(w, c, r, x, sme, s)[i], ExecuteSteps(c, r, x, sme, auth)[i]) == Story(w, c, r, x, sme, s)[i + 1]
  {
    hide Do, At, Landed, InFlight, CanLand, ClaimEscrow;
    if i == 0 {
      Starts(w, c, r, x, sme, auth, s);
    } else {
      Reads(w, c, r, x, sme, auth, s);
    }
  }

  lemma {:induction false} StoryClaims(w: World, c: CallerId, r: RowId, x: TxHash, sme: Address, auth: set<Address>, s: Escrow.State, i: nat)
    requires Ready(w, c, r, x, sme, auth, s) && 2 <= i < 4
    ensures Do(Story(w, c, r, x, sme, s)[i], ExecuteSteps(c, r, x, sme, auth)[i]) == Story(w, c, r, x, sme, s)[i + 1]
  {
    hide Do, At, Landed, InFlight, CanLand, ClaimEscrow;
    if i == 2 {
      Claims(w, c, r, x, sme, auth, s);
    } else {
      Sends(w, c, r, x, sme, auth, s);
    }
  }

  lemma {:induction false} StoryLands(w: World, c: CallerId, r: RowId, x: TxHash, sme: Address, auth: set<Address>, s: Escrow.State, i: nat)
    requires Ready(w, c, r, x, sme, auth, s) && 4 <= i < 7
    ensures Do(Story(w, c, r, x, sme, s)[i], ExecuteSteps(c, r, x, sme, auth)[i]) == Story(w, c, r, x, sme, s)[i + 1]
  {
    hide Do, At, Landed, InFlight;
    if i == 4 {
      Lands(w, c, r, x, sme, auth, s);
    } else if i == 5 {
      Confirms(w, c, r, x, sme, auth, s);
    } else {
      Records(w, c, r, x, sme, auth, s);
    }
  }

  lemma {:induction false} StoryCloses(w: World, c: CallerId, r: RowId, x: TxHash, sme: Address, auth: set<Address>, s: Escrow.State, i: nat)
    requires Ready(w, c, r, x, sme, auth, s) && 7 <= i < 10
    ensures Do(Story(w, c, r, x, sme, s)[i], ExecuteSteps(c, r, x, sme, auth)[i]) == Story(w, c, r, x, sme, s)[i + 1]
  {
    hide Do, At, Landed, InFlight;
    if i == 7 {
      Links(w, c, r, x, sme, auth, s);
    } else if i == 8 {
      Verifies(w, c, r, x, sme, auth, s);
    } else {
      Approves(w, c, r, x, sme, auth, s);
    }
  }

  /** A sequence of worlds, each a step away from the one before, is a run. */
  lemma {:induction false} Chain(ws: seq<World>, steps: seq<Step>)
    requires |ws| == |steps| + 1
    requires forall i :: 0 <= i < |steps| ==> Do(ws[i], steps[i]) == ws[i + 1]
    ensures Run(ws[0], steps) == ws[|steps|]
    decreases |steps|
  {
    if steps != [] {
      var n := |steps| - 1;
      forall i | 0 <= i < n ensures Do(ws[..|steps|][i], steps[..n][i]) == ws[..|steps|][i + 1] {
        assert Do(ws[i], steps[i]) == ws[i + 1];
      }
      Chain(ws[..|steps|], steps[..n]);
    }
  }

  lemma ExecuteRuns(w: World, c: CallerId, r: RowId, x: TxHash, sme: Address, auth: set<Address>, s: Escrow.State)
    requires Ready(w, c, r, x, sme, auth, s)
    ensures Run(w, ExecuteSteps(c, r, x, sme, auth)) == Executed(w, c, r, x, sme, s)
  {
    hide Do, At, Landed, InFlight;
    var steps, story := ExecuteSteps(c, r, x, sme, auth), Story(w, c, r, x, sme, s);
    forall i | 0 <= i < |steps| ensures Do(story[i], steps[i]) == story[i + 1] {
      if i < 2 {
        StoryOpens(w, c, r, x, sme, auth, s, i);
      } else if i < 4 {
        StoryClaims(w, c, r, x, sme, auth, s, i);
      } else if i < 7 {
        StoryLands(w, c, r, x, sme, auth, s, i);
      } else {
        StoryCloses(w, c, r, x, sme, auth, s, i);
      }
    }
    Chain(story, steps);
  }

  /**
  Left alone, with a network that lands the transaction, execute links a
  proposed row to a Funded escrow of its own terms and approves it.
  */
  lemma ExecuteSucceeds(w: World, c: CallerId, r: RowId, x: TxHash, sme: Address, auth: set<Address>, s: Escrow.State)
    requires Ready(w, c, r, x, sme, auth, s)
    ensures var w' := Run(w, ExecuteSteps(c, r, x, sme, auth));
            && PcOf(w', c) == Idle && w'.chain == s
            && w'.db.rows == w.db.rows[r := w.db.rows[r].(status := Escrowed, chainId := Some(s.counter))]
            && s.counter in s.intents && s.intents[s.counter].status == Escrow.Funded
            && Carries(s.intents[s.counter], w.db.rows[r])
            && w'.db.decisions == w.db.decisions
                 + [Decision(Approved, ["ESCROWED_ONCHAIN"], w.db.rows[r].requestHash, Some(r))]
            && w'.db.chainTxs == w.db.chainTxs + [ChainTx(r, "create_intent", Some(x))]
  {
    ExecuteRuns(w, c, r, x, sme, auth, s);
  }

  lemma {:induction false} RunAppend(w: World, a: seq<Step>, b: seq<Step>)
    ensures Run(w, a + b) == Run(Run(w, a), b)
    decreases |b|
  {
    if b == [] {
      assert a + b == a;
    } else {
      assert (a + b)[..|a + b| - 1] == a + b[..|b| - 1];
      RunAppend(w, a, b[..|b| - 1]);
    }
  }

  lemma OvertakenSync(w: World, c: CallerId, d: CallerId, r: RowId, snap: Row, id: nat)
    requires PcOf(w, c) == ExecVerified(r, snap, id) && PcOf(w, d) == Idle && c != d
    requires HasChainId(w, r, id) && w.db.rows[r].status == Escrowed
    requires id in w.chain.intents && w.chain.intents[id].status == Escrow.Released
    ensures var m := SyncOnce(w, d, r);
            var w' := Do(m, Next(c, Go));
            && r in m.db.rows && m.db.rows[r].status == LocalDb.Released
            && r in w'.db.rows && w'.db.rows[r].status == Escrowed && w'.chain == w.chain
  {
    SyncOnceShape(w, d, r, id);
    assert PcOf(SyncOnce(w, d, r), c) == ExecVerified(r, snap, id);
  }

  /**
  Whenever a caller is about to make execute's last write and the escrow can
  already be released, a release and a sync by anyone else get in first: the row
  says released, and then escrowed again, while the chain says Released.
  */
  lemma LocalStatusCanStepBack(w: World, c: CallerId, d: CallerId, r: RowId, snap: Row, id: nat)
    requires Inv(w) && PcOf(w, c) == ExecVerified(r, snap, id) && PcOf(w, d) == Idle && c != d
    requires r in w.db.rows && w.db.rows[r].status == Escrowed && Escrow.TryRelease(w.chain, id).Ok?
    ensures var overtaken := [OnChain(Escrow.Invocation({}, Escrow.Release(id)))] + SyncSteps(d, r);
            var m, w' := Run(w, overtaken), Run(w, overtaken + [Next(c, Go)]);
            && FairRun(w.chain.vault, overtaken + [Next(c, Go)])
            && r in m.db.rows && m.db.rows[r].status == LocalDb.Released
            && r in w'.db.rows && w'.db.rows[r].status == Escrowed
            && id in w'.chain.intents && w'.chain.intents[id].status == Escrow.Released
  {
    hide Run, Do, Inv, Escrow.TryRelease, SyncSteps, FairRun, DoNext;
    VerifiedKnows(w, c, r, snap, id);
    ReleasedThen(w.chain, id);
    var pay := OnChain(Escrow.Invocation({}, Escrow.Release(id)));
    var overtaken := [pay] + SyncSteps(d, r);
    StepBackIsFair(w, c, d, r, id);
    ReleaseHappens(w, id);
    RunAppend(w, [pay], SyncSteps(d, r));
    RunAppend(w, overtaken, [Next(c, Go)]);
    RunOne(Run(w, overtaken), Next(c, Go));
    OvertakenSync(w.(chain := Escrow.TryRelease(w.chain, id).value), c, d, r, snap, id);
  }

  lemma VerifiedKnows(w: World, c: CallerId, r: RowId, snap: Row, id: nat)
    requires Inv(w) && PcOf(w, c) == ExecVerified(r, snap, id)
    ensures HasChainId(w, r, id)
  {
    assert PcOk(w, PcOf(w, c));
  }

  lemma ReleasedThen(chain: Escrow.State, id: nat)
    requires Escrow.TryRelease(chain, id).Ok?
    ensures var s := Escrow.TryRelease(chain, id).value; id in s.intents && s.intents[id].status == Escrow.Released
  {
  }

  lemma StepBackIsFair(w: World, c: CallerId, d: CallerId, r: RowId, id: nat)
    ensures FairRun(w.chain.vault, [OnChain(Escrow.Invocation({}, Escrow.Release(id)))] + SyncSteps(d, r) + [Next(c, Go)])
  {
  }

  lemma RunOne(w: World, step: Step)
    ensures Run(w, [step]) == Do(w, step)
  {
    hide Do;
    assert [step][..0] == [];
    assert Run(w, []) == w;
  }

  lemma ReleaseHappens(w: World, id: nat)
    requires Escrow.TryRelease(w.chain, id).Ok?
    ensures Run(w, [OnChain(Escrow.Invocation({}, Escrow.Release(id)))]) == w.(chain := Escrow.TryRelease(w.chain, id).value)
  {
    var steps := [OnChain(Escrow.Invocation({}, Escrow.Release(id)))];
    RunSnoc(w, steps, 0);
    assert steps[..1] == steps;
  }

  // ---- From the empty database to the step back ----

  /** A deposit that covers the row, and nothing else. */
  function Deposit(row: Row, sme: Address): Balances {
    map[(row.token, sme) := row.amount]
  }

  /** A proposal nobody has acted on, of an amount its own deposit covers. */
  predicate Fundable(vault: Address, sme: Address, row: Row) {
    vault != sme && 0 <= row.amount && row.status == Proposed && row.chainId == None
  }

  /** Such a proposal, and parties none of which is the escrow. */
  predicate Setting(vault: Address, admin: Address, sme: Address, oracle: Address, row: Row) {
    Fundable(vault, sme, row) && vault !in {admin, oracle}
  }

  ghost function WithProposal(vault: Address, admin: Address, now: nat, sme: Address, r: RowId, row: Row): World {
    var w := Init(vault, admin, Deposit(row, sme), now);
    w.(db := RecordIntent(w.db, r, row, []))
  }

  function Created(vault: Address, admin: Address, now: nat, sme: Address, row: Row): Escrow.State
    requires Fundable(vault, sme, row)
  {
    Escrow.TryCreate(Escrow.Init(vault, admin, Deposit(row, sme), now), {sme}, sme,
                     row.supplier, row.token, row.amount, row.requestHash, row.deadline).value
  }

  function ToVerified(c: CallerId, r: RowId, row: Row, x: TxHash, sme: Address): seq<Step> {
    [Insert(r, row, [])] + ExecuteSteps(c, r, x, sme, {sme})[..9]
  }

  function Shipping(admin: Address, oracle: Address): seq<Step> {
    [OnChain(Escrow.Invocation({admin}, Escrow.AddOracle(oracle))),
     OnChain(Escrow.Invocation({oracle}, Escrow.Attest(1, oracle, Escrow.Shipped)))]
  }

  lemma InsertHappens(vault: Address, admin: Address, now: nat, sme: Address, r: RowId, row: Row)
    requires row.status == Proposed && row.chainId == None
    ensures Run(Init(vault, admin, Deposit(row, sme), now), [Insert(r, row, [])]) == WithProposal(vault, admin, now, sme, r, row)
  {
    RunOne(Init(vault, admin, Deposit(row, sme), now), Insert(r, row, []));
  }

  lemma CreationIsReady(vault: Address, admin: Address, now: nat, sme: Address, c: CallerId, r: RowId, row: Row, x: TxHash)
    requires Fundable(vault, sme, row)
    ensures Ready(WithProposal(vault, admin, now, sme, r, row), c, r, x, sme, {sme}, Created(vault, admin, now, sme, row))
    ensures Created(vault, admin, now, sme, row).counter == 1
  {
  }

  lemma {:induction false} ExecuteVerifies(w: World, c: CallerId, r: RowId, x: TxHash, sme: Address, auth: set<Address>, s: Escrow.State)
    requires Ready(w, c, r, x, sme, auth, s)
    ensures Run(w, ExecuteSteps(c, r, x, sme, auth)[..9]) == Story(w, c, r, x, sme, s)[9]
  {
    hide Do, At, Landed, InFlight;
    var steps, story := ExecuteSteps(c, r, x, sme, auth)[..9], Story(w, c, r, x, sme, s)[..10];
    forall i | 0 <= i < |steps| ensures Do(story[i], steps[i]) == story[i + 1] {
      if i < 2 {
        StoryOpens(w, c, r, x, sme, auth, s, i);
      } else if i < 4 {
        StoryClaims(w, c, r, x, sme, auth, s, i);
      } else if i < 7 {
        StoryLands(w, c, r, x, sme, auth, s, i);
      } else {
        StoryCloses(w, c, r, x, sme, auth, s, i);
      }
    }
    Chain(story, steps);
  }

  /** What the settlement will find: the linked, escrowed row, the verified caller, and the funded intent. */
  ghost predicate Verified(w: World, c: CallerId, d: CallerId, r: RowId, row: Row, s: Escrow.State) {
    && PcOf(w, c) == ExecVerified(r, row, 1) && PcOf(w, d) == Idle
    && r in w.db.rows && w.db.rows[r].status == Escrowed && w.chain == s
  }

  lemma VerifiedReached(
    vault: Address, admin: Address, now: nat, sme: Address, c: CallerId, d: CallerId, r: RowId, row: Row, x: TxHash)
    requires Fundable(vault, sme, row) && c != d
    ensures Verified(Run(Init(vault, admin, Deposit(row, sme), now), ToVerified(c, r, row, x, sme)), c, d, r, row,
                     Created(vault, admin, now, sme, row))
  {
    hide Run, Do, ExecuteSteps, Created;
    var w1, s := WithProposal(vault, admin, now, sme, r, row), Created(vault, admin, now, sme, row);
    InsertHappens(vault, admin, now, sme, r, row);
    CreationIsReady(vault, admin, now, sme, c, r, row, x);
    ExecuteVerifies(w1, c, r, x, sme, {sme}, s);
    LengthOfExecute(c, r, x, sme);
    RunAppend(Init(vault, admin, Deposit(row, sme), now), [Insert(r, row, [])], ExecuteSteps(c, r, x, sme, {sme})[..9]);
  }

  lemma LengthOfExecute(c: CallerId, r: RowId, x: TxHash, sme: Address)
    ensures |ExecuteSteps(c, r, x, sme, {sme})| == 10
  {
  }

  /** Registered, attested, and covered by what the creation moved into the vault. */
  lemma ShippedIsDue(vault: Address, admin: Address, now: nat, sme: Address, oracle: Address, row: Row)
    requires Setting(vault, admin, sme, oracle, row)
    ensures var s := Created(vault, admin, now, sme, row);
            var registered := Escrow.Apply(s, Escrow.Invocation({admin}, Escrow.AddOracle(oracle)));
            var shipped := Escrow.Apply(registered, Escrow.Invocation({oracle}, Escrow.Attest(1, oracle, Escrow.Shipped)));
            Escrow.TryRelease(shipped, 1).Ok?
  {
  }

  lemma ShippingHappens(w: World, admin: Address, oracle: Address)
    ensures Run(w, Shipping(admin, oracle)) ==
      w.(chain := Escrow.Apply(Escrow.Apply(w.chain, Escrow.Invocation({admin}, Escrow.AddOracle(oracle))),
                               Escrow.Invocation({oracle}, Escrow.Attest(1, oracle, Escrow.Shipped))))
  {
    hide Escrow.Apply;
    var steps := Shipping(admin, oracle);
    RunAppend(w, [steps[0]], [steps[1]]);
    assert [steps[0]] + [steps[1]] == steps;
    RunOne(w, steps[0]);
    RunOne(Run(w, [steps[0]]), steps[1]);
  }

  function ToOvertaking(c: CallerId, r: RowId, row: Row, x: TxHash, sme: Address, admin: Address, oracle: Address): seq<Step> {
    ToVerified(c, r, row, x, sme) + Shipping(admin, oracle)
  }

  lemma OvertakingIsFair(
    vault: Address, admin: Address, sme: Address, oracle: Address, c: CallerId, r: RowId, row: Row, x: TxHash)
    requires vault !in {admin, sme, oracle}
    ensures FairRun(vault, ToOvertaking(c, r, row, x, sme, admin, oracle))
  {
  }

  /** The state the step back starts from is reached from an empty database by a fair run. */
  lemma OvertakingIsReached(
    vault: Address, admin: Address, now: nat, sme: Address, oracle: Address,
    c: CallerId, d: CallerId, r: RowId, row: Row, x: TxHash)
    requires Setting(vault, admin, sme, oracle, row) && c != d
    ensures var w := Run(Init(vault, admin, Deposit(row, sme), now), ToOvertaking(c, r, row, x, sme, admin, oracle));
            && FairRun(vault, ToOvertaking(c, r, row, x, sme, admin, oracle))
            && Inv(w) && w.chain.vault == vault
            && PcOf(w, c) == ExecVerified(r, row, 1) && PcOf(w, d) == Idle
            && r in w.db.rows && w.db.rows[r].status == Escrowed && Escrow.TryRelease(w.chain, 1).Ok?
  {
    hide Run, Do, Inv, ToVerified, Shipping, Created, Escrow.Apply, FairRun;
    var w0 := Init(vault, admin, Deposit(row, sme), now);
    VerifiedReached(vault, admin, now, sme, c, d, r, row, x);
    RunAppend(w0, ToVerified(c, r, row, x, sme), Shipping(admin, oracle));
    ShippingHappens(Run(w0, ToVerified(c, r, row, x, sme)), admin, oracle);
    ShippedIsDue(vault, admin, now, sme, oracle, row);
    OvertakingIsFair(vault, admin, sme, oracle, c, r, row, x);
    InitInv(vault, admin, Deposit(row, sme), now);
    RunKeeps(w0, ToOvertaking(c, r, row, x, sme, admin, oracle));
  }

  function Overtaken(d: CallerId, r: RowId): seq<Step> {
    [OnChain(Escrow.Invocation({}, Escrow.Release(1)))] + SyncSteps(d, r)
  }

  /**
  A whole fair run from an empty database, for any proposal and any parties: the
  row says released, and one step later escrowed again, while the chain says Released.
  */
  lemma StepBackHappens(
    vault: Address, admin: Address, now: nat, sme: Address, oracle: Address,
    c: CallerId, d: CallerId, r: RowId, row: Row, x: TxHash)
    requires Setting(vault, admin, sme, oracle, row) && c != d
    ensures var w0 := Init(vault, admin, Deposit(row, sme), now);
            var steps := ToOvertaking(c, r, row, x, sme, admin, oracle) + Overtaken(d, r);
            var m, w' := Run(w0, steps), Run(w0, steps + [Next(c, Go)]);
            && FairRun(vault, steps + [Next(c, Go)])
            && r in m.db.rows && m.db.rows[r].status == LocalDb.Released
            && r in w'.db.rows && w'.db.rows[r].status == Escrowed
            && 1 in w'.chain.intents && w'.chain.intents[1].status == Escrow.Released
  {
    hide Run, Do, Inv, ToOvertaking, Escrow.TryRelease, SyncSteps;
    var w0, start := Init(vault, admin, Deposit(row, sme), now), ToOvertaking(c, r, row, x, sme, admin, oracle);
    OvertakingIsReached(vault, admin, now, sme, oracle, c, d, r, row, x);
    LocalStatusCanStepBack(Run(w0, start), c, d, r, row, 1);
    RunAppend(w0, start, Overtaken(d, r));
    RunAppend(w0, start, Overtaken(d, r) + [Next(c, Go)]);
    assert start + Overtaken(d, r) + [Next(c, Go)] == start + (Overtaken(d, r) + [Next(c, Go)]);
    FairAppend(vault, start, Overtaken(d, r) + [Next(c, Go)]);
  }

  lemma FairAppend(vault: Address, a: seq<Step>, b: seq<Step>)
    requires FairRun(vault, a) && FairRun(vault, b)
    ensures FairRun(vault, a + b)
  {
  }
}
