/**
The money path as the agent runs it: execute, attest, release, revert and the
reconciling sync, over the repository and a chain client.  Each is proved to be
a run of the two-ledger protocol by one caller, so every result about the
protocol is a result about these methods; what each call comes to is stated
beside it.
*/
module Flow {
  import Escrow
  import EscrowRegistry
  import opened FlowSteps
  import Guards
  import opened GuardTheorems
  import opened Ledger
  import opened LocalDb
  import opened Protocol
  import opened Repository
  import opened Wrappers

  /** How the network answers a submission: not at all, by executing it as `x`, or by losing sight of `x`. */
  datatype Network = Refuses | Executes(x: TxHash, auth: set<Address>) | Loses(x: TxHash)

  /** The adapter contract: NoEscrow means that none exists nor ever will. */
  datatype Submission = Confirmed(id: nat, x: TxHash) | Unconfirmed(x: TxHash) | NoEscrow

  datatype FlowError =
    | UnknownIntent | NotProposed | NotSubmitted | SubmittedUnconfirmed | ReadBackFailed
    | NoEscrowYet | GuardRefused(codes: seq<string>) | ChainRejected | NotReleased

  class Client {
    var chain: Escrow.State
    var txs: map<TxHash, Tx>

    constructor (chain: Escrow.State)
      ensures this.chain == chain && txs == map[]
    {
      this.chain := chain;
      this.txs := map[];
    }

    method CreateIntent(r: RowId, sme: Address, terms: Row, net: Network) returns (out: Submission)
      modifies this
      ensures match out
              case NoEscrow =>
                && chain == old(chain)
                && (txs == old(txs) || exists x :: x !in old(txs) && txs == old(txs)[x := Tx(r, sme, terms, Dead)])
              case Unconfirmed(x) => x !in old(txs) && chain == old(chain) && txs == old(txs)[x := Tx(r, sme, terms, Pending)]
              case Confirmed(id, x) =>
                && x !in old(txs) && net.Executes? && txs == old(txs)[x := Tx(r, sme, terms, Landed(id))]
                && Escrow.Try(old(chain), Escrow.Invocation(net.auth, CreateCall(Tx(r, sme, terms, Pending)))) == Ok(chain)
                && id == chain.counter
      ensures Submitted(old(chain), old(txs), r, sme, terms, net) == (chain, txs, out)
    {
      hide Escrow.Try;
      match net
      case Refuses => return NoEscrow;
      case Loses(x) =>
        if x in txs { return NoEscrow; }
        txs := txs[x := Tx(r, sme, terms, Pending)];
        return Unconfirmed(x);
      case Executes(x, auth) =>
        if x in txs { return NoEscrow; }
        match Escrow.Try(chain, Escrow.Invocation(auth, CreateCall(Tx(r, sme, terms, Pending)))) {
          case Err(_) =>
            txs := txs[x := Tx(r, sme, terms, Dead)];
            return NoEscrow;
          case Ok(s) =>
            chain := s;
            txs := txs[x := Tx(r, sme, terms, Landed(s.counter))];
            return Confirmed(s.counter, x);
        }
    }

    method Settle(id: nat, reached: bool, release: bool) returns (ok: bool)
      modifies this`chain
      ensures ok <==> reached && TrySettle(old(chain), id, release).Ok?
      ensures chain == if ok then TrySettle(old(chain), id, release).value else old(chain)
    {
      if !reached { return false; }
      var result := if release then Escrow.TryRelease(chain, id) else Escrow.TryRefund(chain, id);
      ok := result.Ok?;
      if ok { chain := result.value; }
    }
  }

  /** What a submission does, as a function. */
  function Submitted(
    chain: Escrow.State, txs: map<TxHash, Tx>, r: RowId, sme: Address, terms: Row, net: Network)
    : (Escrow.State, map<TxHash, Tx>, Submission)
  {
    if net.Refuses? || net.x in txs then (chain, txs, NoEscrow)
    else if net.Loses? then (chain, txs[net.x := Tx(r, sme, terms, Pending)], Unconfirmed(net.x))
    else
      match Escrow.Try(chain, Escrow.Invocation(net.auth, CreateCall(Tx(r, sme, terms, Pending))))
      case Err(_) => (chain, txs[net.x := Tx(r, sme, terms, Dead)], NoEscrow)
      case Ok(s) => (s, txs[net.x := Tx(r, sme, terms, Landed(s.counter))], Confirmed(s.counter, net.x))
  }

  ghost function Seen(repo: Repo, client: Client, c: CallerId, pc: Pc): World
    reads repo, client
  {
    Alone(repo.View(), client.chain, client.txs, c, pc)
  }

  /** A step of a flow call: its own caller moving, or a transaction landing. */
  predicate Own(w0: World, step: Step) {
    match step
    case Begin(c, _) => c in w0.callers
    case Next(c, _) => c in w0.callers
    case Land(_, _) => true
    case _ => false
  }

  /** A flow call's own steps lead from `w0` to `w`, and none signs for the vault if the network is honest. */
  ghost predicate Led(honest: bool, w0: World, steps: seq<Step>, w: World) {
    && Run(w0, steps) == w
    && (honest ==> FairRun(w0.chain.vault, steps))
    && (forall i :: 0 <= i < |steps| ==> Own(w0, steps[i]))
  }

  lemma Then(honest: bool, w0: World, steps: seq<Step>, w: World, step: Step, w': World)
    requires Led(honest, w0, steps, w) && Do(w, step) == w' && Own(w0, step) && (honest ==> Fair(w0.chain.vault, step))
    ensures Led(honest, w0, steps + [step], w')
  {
    hide Do;
    Extended(w0, steps, step);
  }

  /** The escrow contract does not sign the transactions the network executes. */
  predicate Honest(net: Network, vault: Address) {
    net.Executes? ==> vault !in net.auth
  }

  // ---- Submission ----

  /** The protocol steps a submission stands for, from the claim to what the caller has learned. */
  function SubmissionSteps(c: CallerId, txs: map<TxHash, Tx>, sme: Address, net: Network): seq<Step> {
    if net.Refuses? || net.x in txs then [Next(c, Fail)]
    else if net.Loses? then [Next(c, Send(net.x, sme)), Next(c, Fail)]
    else [Next(c, Send(net.x, sme)), Land(net.x, net.auth), Next(c, Go)]
  }

  function Learned(out: Submission, r: RowId, snap: Row): Pc {
    match out
    case NoEscrow => ExecRejected(r)
    case Unconfirmed(x) => ExecUnconfirmed(r, x)
    case Confirmed(id, x) => ExecConfirmed(r, snap, x, id)
  }

  lemma SubmissionRuns(
    honest: bool, w0: World, before: seq<Step>, db: Db, chain: Escrow.State, txs: map<TxHash, Tx>,
    c: CallerId, r: RowId, snap: Row, sme: Address, net: Network)
    requires c in w0.callers && (honest ==> Honest(net, w0.chain.vault))
    requires Led(honest, w0, before, Alone(db, chain, txs, c, ExecClaimed(r, snap)))
    ensures var (chain', txs', out) := Submitted(chain, txs, r, sme, snap, net);
            Led(honest, w0, before + SubmissionSteps(c, txs, sme, net), Alone(db, chain', txs', c, Learned(out, r, snap)))
  {
    hide Led, Do, Escrow.Try, Alone;
    var start := Alone(db, chain, txs, c, ExecClaimed(r, snap));
    if net.Refuses? || net.x in txs {
      ExecFails(db, chain, txs, c, r, snap);
      Then(honest, w0, before, start, Next(c, Fail), Alone(db, chain, txs, c, ExecRejected(r)));
    } else {
      var tx := Tx(r, sme, snap, Pending);
      var sent := Alone(db, chain, txs[net.x := tx], c, ExecWaiting(r, snap, net.x));
      ExecSends(db, chain, txs, c, r, snap, net.x, sme);
      Then(honest, w0, before, start, Next(c, Send(net.x, sme)), sent);
      var sending := before + [Next(c, Send(net.x, sme))];
      if net.Loses? {
        ExecGivesUp(db, chain, txs[net.x := tx], c, r, snap, net.x);
        Then(honest, w0, sending, sent, Next(c, Fail), Alone(db, chain, txs[net.x := tx], c, ExecUnconfirmed(r, net.x)));
        assert before + SubmissionSteps(c, txs, sme, net) == sending + [Next(c, Fail)];
      } else {
        var (chain', txs', out) := Submitted(chain, txs, r, sme, snap, net);
        var landed := Alone(db, chain', txs', c, ExecWaiting(r, snap, net.x));
        PendingLands(db, chain, txs, c, ExecWaiting(r, snap, net.x), net.x, tx, net.auth);
        Then(honest, w0, sending, sent, Land(net.x, net.auth), landed);
        ExecLearns(db, chain', txs', c, r, snap, net.x);
        Then(honest, w0, sending + [Land(net.x, net.auth)], landed, Next(c, Go), Alone(db, chain', txs', c, Learned(out, r, snap)));
        assert before + SubmissionSteps(c, txs, sme, net) == sending + [Land(net.x, net.auth)] + [Next(c, Go)];
      }
    }
  }

  lemma SeenChain(db: Db, chain: Escrow.State, txs: map<TxHash, Tx>, c: CallerId)
    ensures Alone(db, chain, txs, c, Idle).chain == chain && c in Alone(db, chain, txs, c, Idle).callers
  {
  }

  // ---- execute ----

  /** After a confirmed escrow: the hash, then the chain id, then the read back, then the approval. */
  method Confirm(
    repo: Repo, client: Client, ghost c: CallerId, r: RowId, snap: Row, x: TxHash, id: nat, readable: bool,
    ghost honest: bool, ghost w0: World, ghost before: seq<Step>)
    returns (result: Result<Option<nat>, FlowError>, ghost steps: seq<Step>)
    requires r in repo.rows && Led(honest, w0, before, Seen(repo, client, c, ExecConfirmed(r, snap, x, id)))
    requires c in w0.callers
    modifies repo`rows, repo`chainTxs, repo`decisions
    ensures Led(honest, w0, steps, Seen(repo, client, c, Idle))
    ensures result == if ReadsBack(client.chain, snap, id, readable) then Ok(Some(id)) else Err(ReadBackFailed)
    ensures var linked := LocalDb.SetChainIntent(LocalDb.AddChainTx(old(repo.View()), r, "create_intent", Some(x)), r, id);
            repo.View() == if result.Ok? then RecordApproved(linked, r, ["ESCROWED_ONCHAIN"], snap.requestHash) else linked
  {
    hide Led, Do, Alone;
    steps := before;
    ghost var w := Seen(repo, client, c, ExecConfirmed(r, snap, x, id));
    ghost var db := repo.View();
    var noted := repo.AddChainTx(r, "create_intent", Some(x));
    ExecRecords(db, client.chain, client.txs, c, r, snap, x, id);
    ghost var w' := Seen(repo, client, c, ExecRecorded(r, snap, x, id));
    Then(honest, w0, steps, w, Next(c, Go), w');
    steps, w, db := steps + [Next(c, Go)], w', repo.View();

    repo.SetChainIntent(r, id);
    ExecLinks(db, client.chain, client.txs, c, r, snap, x, id);
    w' := Seen(repo, client, c, ExecLinked(r, snap, id));
    Then(honest, w0, steps, w, Next(c, Go), w');
    steps, w, db := steps + [Next(c, Go)], w', repo.View();

    ExecVerifies(db, client.chain, client.txs, c, r, snap, id, readable);
    ghost var choice := if readable then Go else Fail;
    if !readable || id !in client.chain.intents
      || Lower(client.chain.intents[id].requestHash) != Lower(snap.requestHash)
      || client.chain.intents[id].status != Escrow.Funded
    {
      Then(honest, w0, steps, w, Next(c, choice), Seen(repo, client, c, Idle));
      return Err(ReadBackFailed), steps + [Next(c, choice)];
    }
    w' := Seen(repo, client, c, ExecVerified(r, snap, id));
    Then(honest, w0, steps, w, Next(c, choice), w');
    steps, w := steps + [Next(c, choice)], w';

    ExecApproves(db, client.chain, client.txs, c, r, snap, id);
    var approved := repo.RecordDecision(Approved, ["ESCROWED_ONCHAIN"], snap.requestHash, None, Some(r), r, 0);
    Then(honest, w0, steps, w, Next(c, Go), Seen(repo, client, c, Idle));
    return Ok(Some(id)), steps + [Next(c, Go)];
  }

  /** What the claim, the submission and its aftermath leave in the database. */
  ghost function AfterSubmission(
    db: Db, chain': Escrow.State, r: RowId, snap: Row, out: Submission, hashKnown: bool, readable: bool): Db
  {
    match out
    case NoEscrow => ReleaseEscrowClaim(db, r)
    case Unconfirmed(x) => if hashKnown then LocalDb.AddChainTx(db, r, "create_intent", Some(x)) else db
    case Confirmed(id, x) =>
      var linked := LocalDb.SetChainIntent(LocalDb.AddChainTx(db, r, "create_intent", Some(x)), r, id);
      if ReadsBack(chain', snap, id, readable) then RecordApproved(linked, r, ["ESCROWED_ONCHAIN"], snap.requestHash) else linked
  }

  function AnswerOf(chain': Escrow.State, snap: Row, out: Submission, readable: bool): Result<Option<nat>, FlowError> {
    match out
    case NoEscrow => Err(NotSubmitted)
    case Unconfirmed(_) => Err(SubmittedUnconfirmed)
    case Confirmed(id, _) => if ReadsBack(chain', snap, id, readable) then Ok(Some(id)) else Err(ReadBackFailed)
  }

  /** From the claim on: submit, then act on what was learned. */
  method Submit(
    repo: Repo, client: Client, ghost c: CallerId, r: RowId, snap: Row, sme: Address,
    net: Network, hashKnown: bool, readable: bool, ghost honest: bool, ghost w0: World, ghost before: seq<Step>)
    returns (result: Result<Option<nat>, FlowError>, ghost steps: seq<Step>)
    requires r in repo.rows && Led(honest, w0, before, Seen(repo, client, c, ExecClaimed(r, snap)))
    requires c in w0.callers && (honest ==> Honest(net, w0.chain.vault))
    modifies repo`rows, repo`chainTxs, repo`decisions, client
    ensures Led(honest, w0, steps, Seen(repo, client, c, Idle))
    ensures var (chain', txs', out) := Submitted(old(client.chain), old(client.txs), r, sme, snap, net);
            && client.chain == chain' && client.txs == txs'
            && repo.View() == AfterSubmission(old(repo.View()), chain', r, snap, out, hashKnown, readable)
            && result == AnswerOf(chain', snap, out, readable)
  {
    hide Led, Do, Alone, Escrow.Try, Submitted;
    ghost var db := repo.View();
    SubmissionRuns(honest, w0, before, db, client.chain, client.txs, c, r, snap, sme, net);
    steps := before + SubmissionSteps(c, client.txs, sme, net);
    var out := client.CreateIntent(r, sme, snap, net);
    ghost var w := Seen(repo, client, c, Learned(out, r, snap));
    match out
    case NoEscrow =>
      ExecReopens(db, client.chain, client.txs, c, r);
      repo.ReleaseEscrowClaim(r);
      Then(honest, w0, steps, w, Next(c, Go), Seen(repo, client, c, Idle));
      return Err(NotSubmitted), steps + [Next(c, Go)];
    case Unconfirmed(x) =>
      ExecNotes(db, client.chain, client.txs, c, r, x, hashKnown);
      if hashKnown { var noted := repo.AddChainTx(r, "create_intent", Some(x)); }
      ghost var choice := if hashKnown then Go else Fail;
      Then(honest, w0, steps, w, Next(c, choice), Seen(repo, client, c, Idle));
      return Err(SubmittedUnconfirmed), steps + [Next(c, choice)];
    case Confirmed(id, x) =>
      result, steps := Confirm(repo, client, c, r, snap, x, id, readable, honest, w0, steps);
  }

  // ---- What execute's answers mean ----

  /** Ids do not run past the counter, as in every reachable state of the contract. */
  predicate Numbered(chain: Escrow.State) {
    forall id :: id in chain.intents ==> id <= chain.counter
  }

  /** A transaction of row `r` that was not in the pool before. */
  ghost predicate NewTx(txs: map<TxHash, Tx>, txs': map<TxHash, Tx>, x: TxHash, r: RowId) {
    x in txs' && x !in txs && txs'[x].row == r
  }

  /** The row is linked to `id`, an intent that was not there before, Funded, and of the row's own hash. */
  ghost predicate NewlyLinked(db: Db, chain: Escrow.State, db': Db, chain': Escrow.State, r: RowId, id: nat)
    requires r in db.rows && r in db'.rows
  {
    && db'.rows[r] == db.rows[r].(status := Escrowed, chainId := Some(id))
    && id !in chain.intents && id in chain'.intents
    && chain'.intents[id].status == Escrow.Funded && chain'.intents[id].requestHash == db.rows[r].requestHash
  }

  /**
  Unconfirmed says that a new transaction of the row is out there, and the row
  stays claimed; not submitted says that none is alive and nothing has changed;
  an id says that the row is linked to that new escrow and approved once; a
  failed read back, that it is linked and not approved.
  */
  ghost predicate Truthful(
    db: Db, chain: Escrow.State, txs: map<TxHash, Tx>, db': Db, chain': Escrow.State, txs': map<TxHash, Tx>,
    r: RowId, hashKnown: bool, result: Result<Option<nat>, FlowError>)
    requires r in db.rows && r in db'.rows
  {
    && (result == Err(SubmittedUnconfirmed) <==> exists x :: NewTx(txs, txs', x, r) && txs'[x].state == Pending)
    && (result == Err(SubmittedUnconfirmed) ==>
          db'.rows == db.rows[r := db.rows[r].(status := Escrowed)] && db'.decisions == db.decisions && chain' == chain)
    && (result == Err(NotSubmitted) <==> forall x :: NewTx(txs, txs', x, r) ==> txs'[x].state == Dead)
    && (result == Err(NotSubmitted) ==> db' == db && chain' == chain)
    && (forall id: nat :: result == Ok(Some(id)) <==>
          && NewlyLinked(db, chain, db', chain', r, id)
          && db'.decisions == db.decisions + [Decision(Approved, ["ESCROWED_ONCHAIN"], db.rows[r].requestHash, Some(r))])
    && (result == Err(ReadBackFailed) <==>
          (exists id: nat :: NewlyLinked(db, chain, db', chain', r, id)) && db'.decisions == db.decisions)
    && (result.Ok? ==> result.value.Some?)
    && (result != Err(NotSubmitted) ==>
          exists x :: NewTx(txs, txs', x, r) && db'.chainTxs == db.chainTxs +
            if result == Err(SubmittedUnconfirmed) && !hashKnown then [] else [ChainTx(r, "create_intent", Some(x))])
    && db'.payouts == db.payouts && db'.votes == db.votes
  }

  lemma NoEscrowIsTrue(
    db: Db, chain: Escrow.State, txs: map<TxHash, Tx>, txs': map<TxHash, Tx>, r: RowId, hashKnown: bool, readable: bool)
    requires Claimable(db, r) && db.rows[r].chainId == None
    requires forall x :: NewTx(txs, txs', x, r) ==> txs'[x].state == Dead
    ensures var db' := AfterSubmission(LocalDb.ClaimEscrow(db, r), chain, r, db.rows[r], NoEscrow, hashKnown, readable);
            && db' == db
            && Truthful(db, chain, txs, db', chain, txs', r, hashKnown, AnswerOf(chain, db.rows[r], NoEscrow, readable))
  {
    assert db.rows[r := db.rows[r]] == db.rows;
  }

  lemma UnconfirmedIsTrue(
    db: Db, chain: Escrow.State, txs: map<TxHash, Tx>, r: RowId, tx: Tx, x: TxHash, hashKnown: bool, readable: bool)
    requires Claimable(db, r) && db.rows[r].chainId == None && x !in txs && tx.row == r && tx.state == Pending
    ensures var db' := AfterSubmission(LocalDb.ClaimEscrow(db, r), chain, r, db.rows[r], Unconfirmed(x), hashKnown, readable);
            && r in db'.rows
            && Truthful(db, chain, txs, db', chain, txs[x := tx], r, hashKnown, AnswerOf(chain, db.rows[r], Unconfirmed(x), readable))
  {
    assert NewTx(txs, txs[x := tx], x, r);
  }

  lemma ConfirmedIsTrue(
    db: Db, chain: Escrow.State, chain': Escrow.State, txs: map<TxHash, Tx>, r: RowId, tx: Tx, x: TxHash, id: nat,
    hashKnown: bool, readable: bool)
    requires Claimable(db, r) && db.rows[r].chainId == None && x !in txs && tx.row == r && tx.state == Landed(id)
    requires id !in chain.intents && id in chain'.intents && chain'.intents[id].status == Escrow.Funded
    requires chain'.intents[id].requestHash == db.rows[r].requestHash
    ensures var out := Confirmed(id, x);
            var db' := AfterSubmission(LocalDb.ClaimEscrow(db, r), chain', r, db.rows[r], out, hashKnown, readable);
            && r in db'.rows
            && Truthful(db, chain, txs, db', chain', txs[x := tx], r, hashKnown, AnswerOf(chain', db.rows[r], out, readable))
  {
    var db' := AfterSubmission(LocalDb.ClaimEscrow(db, r), chain', r, db.rows[r], Confirmed(id, x), hashKnown, readable);
    assert NewTx(txs, txs[x := tx], x, r);
    assert NewlyLinked(db, chain, db', chain', r, id);
  }

  lemma AnswerIsTrue(
    db: Db, chain: Escrow.State, txs: map<TxHash, Tx>, r: RowId, sme: Address, net: Network, hashKnown: bool, readable: bool)
    requires Claimable(db, r) && db.rows[r].chainId == None
    requires Numbered(chain)
    ensures var (chain', txs', out) := Submitted(chain, txs, r, sme, db.rows[r], net);
            var db' := AfterSubmission(LocalDb.ClaimEscrow(db, r), chain', r, db.rows[r], out, hashKnown, readable);
            r in db'.rows && Truthful(db, chain, txs, db', chain', txs', r, hashKnown, AnswerOf(chain', db.rows[r], out, readable))
  {
    hide Truthful, AfterSubmission, AnswerOf, Escrow.TryCreate;
    var (chain', txs', out) := Submitted(chain, txs, r, sme, db.rows[r], net);
    match out
    case NoEscrow => NoEscrowIsTrue(db, chain, txs, txs', r, hashKnown, readable);
    case Unconfirmed(x) => UnconfirmedIsTrue(db, chain, txs, r, txs'[x], x, hashKnown, readable);
    case Confirmed(id, x) =>
      var row := db.rows[r];
      EscrowRegistry.CreateExactly(chain, net.auth, sme, row.supplier, row.token, row.amount, row.requestHash, row.deadline);
      ConfirmedIsTrue(db, chain, chain', txs, r, txs'[x], x, id, hashKnown, readable);
  }

  method Execute(
    repo: Repo, client: Client, ghost c: CallerId, r: RowId, dryRun: bool, sme: Address,
    net: Network, hashKnown: bool, readable: bool)
    returns (result: Result<Option<nat>, FlowError>, ghost steps: seq<Step>)
    modifies repo`rows, repo`chainTxs, repo`decisions, client
    ensures Led(Honest(net, old(client.chain).vault), old(Seen(repo, client, c, Idle)), steps, Seen(repo, client, c, Idle))
    ensures r !in old(repo.rows) || dryRun || !Claimable(old(repo.View()), r) ==>
      && repo.View() == old(repo.View()) && client.chain == old(client.chain) && client.txs == old(client.txs)
      && result == if r !in old(repo.rows) then Err(UnknownIntent)
                   else if dryRun && !Claimable(old(repo.View()), r) then Err(NotProposed) else Ok(None)
    ensures !dryRun && Claimable(old(repo.View()), r) ==>
      var snap := old(repo.rows)[r];
      var (chain', txs', out) := Submitted(old(client.chain), old(client.txs), r, sme, snap, net);
      && client.chain == chain' && client.txs == txs'
      && repo.View() == AfterSubmission(LocalDb.ClaimEscrow(old(repo.View()), r), chain', r, snap, out, hashKnown, readable)
      && result == AnswerOf(chain', snap, out, readable)
    ensures !dryRun && Claimable(old(repo.View()), r) && old(repo.rows)[r].chainId == None && Numbered(old(client.chain)) ==>
      && r in repo.rows
      && Truthful(old(repo.View()), old(client.chain), old(client.txs), repo.View(), client.chain, client.txs, r, hashKnown, result)
  {
    hide Led, Do, Alone, Escrow.Try, Submitted, AfterSubmission, Truthful, AnswerOf;
    ghost var honest := Honest(net, client.chain.vault);
    ghost var w0, db, chain, txs := Seen(repo, client, c, Idle), repo.View(), client.chain, client.txs;
    EmptyRun(honest, w0);
    SeenChain(db, chain, txs, c);
    Begins(db, chain, txs, c, Job.Execute(r, dryRun));
    ghost var w := Alone(db, chain, txs, c, ExecStart(r, dryRun));
    Then(honest, w0, [], w0, Begin(c, Job.Execute(r, dryRun)), w);
    steps := [] + [Begin(c, Job.Execute(r, dryRun))];
    ExecReads(db, chain, txs, c, r, dryRun);
    if r !in repo.rows || dryRun {
      Then(honest, w0, steps, w, Next(c, Go), w0);
      steps := steps + [Next(c, Go)];
      if r !in repo.rows { return Err(UnknownIntent), steps; }
      return if repo.rows[r].status != Proposed then Err(NotProposed) else Ok(None), steps;
    }
    var row := repo.rows[r];
    Then(honest, w0, steps, w, Next(c, Go), Alone(db, chain, txs, c, ExecRead(r, row)));
    steps, w := steps + [Next(c, Go)], Alone(db, chain, txs, c, ExecRead(r, row));
    ExecClaims(db, chain, txs, c, r, row);
    var claimed := repo.ClaimEscrow(r);
    if !claimed {
      Then(honest, w0, steps, w, Next(c, Go), w0);
      return Ok(None), steps + [Next(c, Go)];
    }
    Then(honest, w0, steps, w, Next(c, Go), Seen(repo, client, c, ExecClaimed(r, row)));
    if row.chainId == None && Numbered(chain) {
      AnswerIsTrue(db, chain, txs, r, sme, net, hashKnown, readable);
    }
    result, steps := Submit(repo, client, c, r, row, sme, net, hashKnown, readable, honest, w0, steps + [Next(c, Go)]);
  }

  lemma EmptyRun(honest: bool, w: World)
    ensures Led(honest, w, [], w)
  {
  }

  // ---- sync_status ----

  /** The status a sync answers with: the chain's, when the row is linked and the chain can be read. */
  function SyncAnswer(row: Row, chain: Escrow.State, readable: bool): Status {
    if row.chainId == None || !readable || row.chainId.value !in chain.intents then row.status
    else FromChain(chain.intents[row.chainId.value].status)
  }

  predicate Readable(row: Row, chain: Escrow.State, readable: bool) {
    row.chainId.Some? && readable && row.chainId.value in chain.intents
  }

  method Reconcile(
    repo: Repo, client: Client, ghost c: CallerId, r: RowId, ghost pay: bool, readable: bool,
    ghost w0: World, ghost before: seq<Step>)
    returns (status: Status, ghost steps: seq<Step>)
    requires r in repo.rows && Led(true, w0, before, Seen(repo, client, c, SyncStart(r, pay)))
    requires c in w0.callers
    modifies repo`rows, repo`decisions
    ensures Led(true, w0, steps, Seen(repo, client, c, After(r, status, pay)))
    ensures status == SyncAnswer(old(repo.rows)[r], client.chain, readable)
    ensures repo.View() == if status == old(repo.rows)[r].status then old(repo.View()) else SyncDb(old(repo.View()), r, status)
  {
    hide Led, Do, Alone;
    ghost var db, w := repo.View(), Seen(repo, client, c, SyncStart(r, pay));
    var row := repo.rows[r];
    SyncStarts(db, client.chain, client.txs, c, r, pay);
    if row.chainId == None {
      Then(true, w0, before, w, Next(c, Go), Seen(repo, client, c, After(r, row.status, pay)));
      return row.status, before + [Next(c, Go)];
    }
    var id := row.chainId.value;
    ghost var w' := Seen(repo, client, c, SyncRead(r, row.status, id, pay));
    Then(true, w0, before, w, Next(c, Go), w');
    steps, w := before + [Next(c, Go)], w';
    ghost var choice := if readable then Go else Fail;
    SyncReads(db, client.chain, client.txs, c, r, row.status, id, pay, readable);
    if !readable || id !in client.chain.intents {
      Then(true, w0, steps, w, Next(c, choice), Seen(repo, client, c, After(r, row.status, pay)));
      return row.status, steps + [Next(c, choice)];
    }
    var mapped := FromChain(client.chain.intents[id].status);
    if mapped == row.status {
      Then(true, w0, steps, w, Next(c, choice), Seen(repo, client, c, After(r, mapped, pay)));
      return mapped, steps + [Next(c, choice)];
    }
    w' := Seen(repo, client, c, SyncWrite(r, mapped, pay));
    Then(true, w0, steps, w, Next(c, choice), w');
    steps, w := steps + [Next(c, choice)], w';
    SyncWrites(db, client.chain, client.txs, c, r, mapped, pay);
    WriteMapped(repo, r, row.requestHash, mapped);
    Then(true, w0, steps, w, Next(c, Go), Seen(repo, client, c, After(r, mapped, pay)));
    return mapped, steps + [Next(c, Go)];
  }

  method WriteMapped(repo: Repo, r: RowId, requestHash: string, mapped: Status)
    requires r in repo.rows && requestHash == repo.rows[r].requestHash && mapped in {Escrowed, LocalDb.Released, Reverted}
    modifies repo`rows, repo`decisions
    ensures repo.View() == SyncDb(old(repo.View()), r, mapped)
  {
    if mapped == Escrowed {
      var recorded := repo.RecordDecision(Approved, ["CHAIN_FUNDED"], requestHash, None, Some(r), r, 0);
    } else if mapped == LocalDb.Released {
      repo.MarkReleased(r);
    } else {
      var recorded := repo.RecordDecision(WasReverted, ["CHAIN_REFUNDED"], requestHash, None, Some(r), r, 0);
    }
  }

  method SyncStatus(repo: Repo, client: Client, ghost c: CallerId, r: RowId, readable: bool)
    returns (result: Result<Status, FlowError>, ghost steps: seq<Step>)
    modifies repo`rows, repo`decisions
    ensures Led(true, old(Seen(repo, client, c, Idle)), steps, Seen(repo, client, c, Idle))
    ensures r !in old(repo.rows) ==> result == Err(UnknownIntent) && repo.View() == old(repo.View())
    ensures r in old(repo.rows) ==>
      var status := SyncAnswer(old(repo.rows)[r], client.chain, readable);
      && result == Ok(status)
      && repo.View() == if status == old(repo.rows)[r].status then old(repo.View()) else SyncDb(old(repo.View()), r, status)
    ensures r in old(repo.rows) && !Readable(old(repo.rows)[r], client.chain, readable) ==>
      result == Ok(old(repo.rows)[r].status) && repo.View() == old(repo.View())
    ensures r in old(repo.rows) && Readable(old(repo.rows)[r], client.chain, readable) ==>
      && result == (match client.chain.intents[old(repo.rows)[r].chainId.value].status
                    case Funded => Ok(Escrowed)
                    case Released => Ok(LocalDb.Released)
                    case Refunded => Ok(Reverted))
      && repo.rows == old(repo.rows)[r := old(repo.rows)[r].(status := result.value)]
      && repo.decisions == old(repo.decisions) +
           if result == Ok(old(repo.rows)[r].status) || result == Ok(LocalDb.Released) then []
           else if result == Ok(Escrowed) then [Decision(Approved, ["CHAIN_FUNDED"], repo.rows[r].requestHash, Some(r))]
           else [Decision(WasReverted, ["CHAIN_REFUNDED"], repo.rows[r].requestHash, Some(r))]
  {
    hide Led, Do, Alone;
    ghost var w0, db := Seen(repo, client, c, Idle), repo.View();
    EmptyRun(true, w0);
    SeenChain(repo.View(), client.chain, client.txs, c);
    Begins(db, client.chain, client.txs, c, Job.Sync(r));
    ghost var w := Seen(repo, client, c, SyncStart(r, false));
    Then(true, w0, [], w0, Begin(c, Job.Sync(r)), w);
    steps := [] + [Begin(c, Job.Sync(r))];
    if r !in repo.rows {
      SyncStarts(db, client.chain, client.txs, c, r, false);
      Then(true, w0, steps, w, Next(c, Go), w0);
      return Err(UnknownIntent), steps + [Next(c, Go)];
    }
    var status;
    status, steps := Reconcile(repo, client, c, r, false, readable, w0, steps);
    result := Ok(status);
  }

  // ---- cash_out ----

  method CashOut(
    repo: Repo, ghost client: Client, ghost c: CallerId, r: RowId, ghost w0: World, ghost before: seq<Step>)
    returns (result: Result<Payout, FlowError>, ghost steps: seq<Step>)
    requires c in w0.callers && Led(true, w0, before, Seen(repo, client, c, Pc.CashOut(r)))
    modifies repo`payouts
    ensures Led(true, w0, steps, Seen(repo, client, c, Idle))
    ensures var paid := r in repo.rows && repo.rows[r].status == LocalDb.Released;
            && result == (if paid then Ok(Payout(r, repo.rows[r].amount, repo.rows[r].supplier)) else Err(NotReleased))
            && repo.payouts == old(repo.payouts) + if paid then [Payout(r, repo.rows[r].amount, repo.rows[r].supplier)] else []
  {
    hide Led, Do, Alone;
    ghost var db, w := repo.View(), Seen(repo, client, c, Pc.CashOut(r));
    CashOutReads(db, client.chain, client.txs, c, r);
    if r !in repo.rows || repo.rows[r].status != LocalDb.Released {
      Then(true, w0, before, w, Next(c, Go), Seen(repo, client, c, Idle));
      return Err(NotReleased), before + [Next(c, Go)];
    }
    var amount, address := repo.rows[r].amount, repo.rows[r].supplier;
    ghost var w' := Seen(repo, client, c, CashOutReady(r, amount, address));
    Then(true, w0, before, w, Next(c, Go), w');
    steps := before + [Next(c, Go)];
    CashOutPays(db, client.chain, client.txs, c, r, amount, address);
    var paid := repo.AddAnchorPayout(r, amount, address);
    Then(true, w0, steps, w', Next(c, Go), Seen(repo, client, c, Idle));
    return Ok(Payout(r, amount, address)), steps + [Next(c, Go)];
  }

  // ---- release and revert ----

  /** From the start of a settlement to the moment the chain has answered and the hash is on record. */
  method SettleOnChain(
    repo: Repo, client: Client, ghost c: CallerId, r: RowId, refusal: Option<seq<string>>, reached: bool, release: bool, ghost w0: World)
    returns (result: Result<nat, FlowError>, ghost steps: seq<Step>)
    requires w0 == Seen(repo, client, c, Idle)
    modifies repo`chainTxs, client`chain
    ensures Led(true, w0, steps, Seen(repo, client, c, if result.Ok? then SyncStart(r, release) else Idle))
    ensures result == Settled(old(repo.View()), old(client.chain), r, refusal, reached, release)
    ensures result.Err? ==> repo.View() == old(repo.View()) && client.chain == old(client.chain)
    ensures result.Ok? ==>
      && TrySettle(old(client.chain), result.value, release) == Ok(client.chain)
      && repo.View() == LocalDb.AddChainTx(old(repo.View()), r, if release then "release" else "refund", None)
  {
    hide Led, Do, Alone, TrySettle;
    ghost var db, chain, txs := repo.View(), client.chain, client.txs;
    EmptyRun(true, w0);
    SeenChain(repo.View(), client.chain, client.txs, c);
    ghost var job := if release then Job.Release(r) else Job.Revert(r);
    ghost var w := Seen(repo, client, c, if release then ReleaseStart(r) else RevertStart(r));
    Begins(db, chain, txs, c, job);
    Then(true, w0, [], w0, Begin(c, job), w);
    steps := [] + [Begin(c, job)];
    ghost var choice := if refusal == None then Go else Fail;
    SettleStarts(db, chain, txs, c, r, refusal == None, release);
    if r !in repo.rows || repo.rows[r].chainId == None || refusal.Some? {
      Then(true, w0, steps, w, Next(c, choice), w0);
      steps := steps + [Next(c, choice)];
      if r !in repo.rows { return Err(UnknownIntent), steps; }
      return if repo.rows[r].chainId == None then Err(NoEscrowYet) else Err(GuardRefused(refusal.value)), steps;
    }
    var id := repo.rows[r].chainId.value;
    ghost var w' := Seen(repo, client, c, if release then ReleaseReady(r, id) else RevertReady(r, id));
    Then(true, w0, steps, w, Next(c, choice), w');
    steps, w, choice := steps + [Next(c, choice)], w', if reached then Go else Fail;
    SettleCalls(db, chain, txs, c, r, id, reached, release);
    var ok := client.Settle(id, reached, release);
    if !ok {
      Then(true, w0, steps, w, Next(c, choice), w0);
      return Err(ChainRejected), steps + [Next(c, choice)];
    }
    w' := Seen(repo, client, c, if release then ReleasePaid(r) else RevertPaid(r));
    Then(true, w0, steps, w, Next(c, choice), w');
    steps, w := steps + [Next(c, choice)], w';
    SettleRecords(db, client.chain, txs, c, r, release);
    var noted := repo.AddChainTx(r, if release then "release" else "refund", None);
    Then(true, w0, steps, w, Next(c, Go), Seen(repo, client, c, SyncStart(r, release)));
    return Ok(id), steps + [Next(c, Go)];
  }

  /** The refusals of a settlement in the program's order, and what is left: the chain has settled the linked intent. */
  lemma SettledExactly(db: Db, chain: Escrow.State, r: RowId, refusal: Option<seq<string>>, reached: bool, release: bool)
    ensures var settled := Settled(db, chain, r, refusal, reached, release);
            && (r !in db.rows ==> settled == Err(UnknownIntent))
            && (r in db.rows && db.rows[r].chainId == None ==> settled == Err(NoEscrowYet))
            && (r in db.rows && db.rows[r].chainId.Some? && refusal.Some? ==> settled == Err(GuardRefused(refusal.value)))
            && (r in db.rows && db.rows[r].chainId.Some? && refusal == None ==>
                  var id := db.rows[r].chainId.value;
                  var called := if release then Escrow.TryRelease(chain, id) else Escrow.TryRefund(chain, id);
                  settled == if reached && called.Ok? then Ok(id) else Err(ChainRejected))
  {
    hide Escrow.TryRelease, Escrow.TryRefund;
  }

  /** Why a settlement stops, or the chain id it settled; the checks come in this order. */
  function Settled(db: Db, chain: Escrow.State, r: RowId, refusal: Option<seq<string>>, reached: bool, release: bool): Result<nat, FlowError> {
    if r !in db.rows then Err(UnknownIntent)
    else if db.rows[r].chainId == None then Err(NoEscrowYet)
    else if refusal.Some? then Err(GuardRefused(refusal.value))
    else if !reached || TrySettle(chain, db.rows[r].chainId.value, release).Err? then Err(ChainRejected)
    else Ok(db.rows[r].chainId.value)
  }

  /** The release check: the guards of the release stage, over the attestations recorded for this intent. */
  method ReleaseCheck(repo: Repo, config: Config, r: RowId) returns (refusal: Option<seq<string>>)
    ensures refusal == ReleaseRefusal(repo.View(), config, r)
  {
    hide BuildGuards, Guards.Verdict, Guards.Said, Guards.Distinct;
    if r !in repo.rows { return None; }
    var verdict, codes := Guards.RunGuards(BuildGuards(config), Guards.Releasing(r, repo.rows[r].requestHash, repo.votes));
    return if verdict == Guards.Pass then None else Some(codes);
  }

  function ReleaseRefusal(db: Db, config: Config, r: RowId): Option<seq<string>> {
    if r !in db.rows then None
    else
      var ctx := Guards.Releasing(r, db.rows[r].requestHash, db.votes);
      if Guards.Verdict(BuildGuards(config), ctx) == Guards.Pass then None
      else Some(Guards.Distinct(Guards.Said(BuildGuards(config), ctx)))
  }

  /** The votes a configuration asks for before it lets intent `r` go. */
  ghost predicate Vouched(db: Db, config: Config, r: RowId)
    requires r in db.rows
  {
    && (config.requireAttestation ==> exists i :: 0 <= i < |db.votes| && MatchingVote(db.votes[i], r, db.rows[r].requestHash))
    && (config.kOfN > 1 ==>
          exists s: set<Address> :: |s| >= config.kOfN && Vouch(s, r, db.rows[r].requestHash, db.votes))
  }

  /** The codes name each part that is missing, and nothing else. */
  ghost predicate Complaints(db: Db, config: Config, r: RowId, codes: seq<string>)
    requires r in db.rows
  {
    && ("ATTESTATION_MISSING" in codes <==>
          config.requireAttestation && !exists i :: 0 <= i < |db.votes| && MatchingVote(db.votes[i], r, db.rows[r].requestHash))
    && ("KOFN_UNMET" in codes <==>
          config.kOfN > 1
          && !exists s: set<Address> :: |s| >= config.kOfN && Vouch(s, r, db.rows[r].requestHash, db.votes))
    && (forall code :: code in codes ==> code == "ATTESTATION_MISSING" || code == "KOFN_UNMET")
  }

  /** A release is let through exactly when it is vouched for, and else refused with its complaints. */
  lemma ReleaseRefusalExactly(db: Db, config: Config, r: RowId)
    requires r in db.rows
    ensures ReleaseRefusal(db, config, r) == None <==> Vouched(db, config, r)
    ensures ReleaseRefusal(db, config, r).Some? ==> Complaints(db, config, r, ReleaseRefusal(db, config, r).value)
  {
    hide Guards.Verdict, Guards.Said, Guards.Distinct, BuildGuards, MatchingVote, Vouch;
    ReleasePassesExactly(config, r, db.rows[r].requestHash, db.votes);
    ReleaseCodesExactly(config, r, db.rows[r].requestHash, db.votes);
    Guards.DistinctMeans(Guards.Said(BuildGuards(config), Guards.Releasing(r, db.rows[r].requestHash, db.votes)));
  }

  method Release(repo: Repo, client: Client, ghost c: CallerId, r: RowId, config: Config, reached: bool, readable: bool)
    returns (result: Result<Status, FlowError>, ghost steps: seq<Step>)
    modifies repo`rows, repo`chainTxs, repo`decisions, repo`payouts, client`chain
    ensures Led(true, old(Seen(repo, client, c, Idle)), steps, Seen(repo, client, c, Idle))
    ensures var settled := Settled(old(repo.View()), old(client.chain), r, ReleaseRefusal(old(repo.View()), config, r), reached, true);
            match settled
            case Err(e) => result == Err(e) && repo.View() == old(repo.View()) && client.chain == old(client.chain)
            case Ok(id) =>
              var row := old(repo.rows)[r];
              var status := SyncAnswer(row, client.chain, readable);
              var noted := LocalDb.AddChainTx(old(repo.View()), r, "release", None);
              var synced := if status == row.status then noted else SyncDb(noted, r, status);
              && TrySettle(old(client.chain), id, true) == Ok(client.chain)
              && result == Ok(status)
              && repo.View() == if status == LocalDb.Released then AddPayout(synced, r, row.amount, row.supplier) else synced
    ensures r in old(repo.rows) && old(repo.rows)[r].chainId.Some? && !Vouched(old(repo.View()), config, r) ==>
      && result.Err? && result.error.GuardRefused? && Complaints(old(repo.View()), config, r, result.error.codes)
      && repo.View() == old(repo.View()) && client.chain == old(client.chain)
    ensures r in old(repo.rows) && old(repo.rows)[r].chainId.Some? && Vouched(old(repo.View()), config, r) ==>
      && (result.Ok? <==> reached && Escrow.TryRelease(old(client.chain), old(repo.rows)[r].chainId.value).Ok?)
      && (result.Err? ==> result == Err(ChainRejected))
      && (result.Ok? ==> Escrow.TryRelease(old(client.chain), old(repo.rows)[r].chainId.value) == Ok(client.chain))
  {
    hide Led, Do, Alone, Escrow.TryRelease, Escrow.TryRefund, ReleaseRefusal, Vouched, Complaints, Settled;
    ghost var w0 := Seen(repo, client, c, Idle);
    if r in repo.rows { ReleaseRefusalExactly(repo.View(), config, r); }
    SettledExactly(repo.View(), client.chain, r, ReleaseRefusal(repo.View(), config, r), reached, true);
    SeenChain(repo.View(), client.chain, client.txs, c);
    var refusal := ReleaseCheck(repo, config, r);
    var settled;
    settled, steps := SettleOnChain(repo, client, c, r, refusal, reached, true, w0);
    if settled.Err? { return Err(settled.error), steps; }
    var status;
    status, steps := Reconcile(repo, client, c, r, true, readable, w0, steps);
    if status == LocalDb.Released {
      var paid;
      paid, steps := CashOut(repo, client, c, r, w0, steps);
    }
    result := Ok(status);
  }

  method Revert(repo: Repo, client: Client, ghost c: CallerId, r: RowId, reached: bool, readable: bool)
    returns (result: Result<Status, FlowError>, ghost steps: seq<Step>)
    modifies repo`rows, repo`chainTxs, repo`decisions, client`chain
    ensures Led(true, old(Seen(repo, client, c, Idle)), steps, Seen(repo, client, c, Idle))
    ensures match Settled(old(repo.View()), old(client.chain), r, None, reached, false)
            case Err(e) => result == Err(e) && repo.View() == old(repo.View()) && client.chain == old(client.chain)
            case Ok(id) =>
              var row := old(repo.rows)[r];
              var status := SyncAnswer(row, client.chain, readable);
              var noted := LocalDb.AddChainTx(old(repo.View()), r, "refund", None);
              && TrySettle(old(client.chain), id, false) == Ok(client.chain)
              && result == Ok(status)
              && repo.View() == if status == row.status then noted else SyncDb(noted, r, status)
  {
    hide Led, Do, Alone, TrySettle;
    ghost var w0 := Seen(repo, client, c, Idle);
    SeenChain(repo.View(), client.chain, client.txs, c);
    var settled;
    settled, steps := SettleOnChain(repo, client, c, r, None, reached, false, w0);
    if settled.Err? { return Err(settled.error), steps; }
    var status;
    status, steps := Reconcile(repo, client, c, r, false, readable, w0, steps);
    result := Ok(status);
  }

  // ---- attest ----

  function VotesOf(r: RowId, signers: seq<Address>, kind: Escrow.AttestKind, requestHash: string): seq<OracleVote> {
    seq(|signers|, i requires 0 <= i < |signers| => OracleVote(r, signers[i], kind, requestHash))
  }

  /** One recorded vote per local signer. */
  method RecordVotes(repo: Repo, r: RowId, signers: seq<Address>, kind: Escrow.AttestKind, requestHash: string)
    requires r in repo.rows
    modifies repo`votes
    ensures repo.votes == old(repo.votes) + VotesOf(r, signers, kind, requestHash)
    ensures |repo.votes| == |old(repo.votes)| + |signers| && repo.votes[..|old(repo.votes)|] == old(repo.votes)
    ensures forall i :: 0 <= i < |signers| ==>
      repo.votes[|old(repo.votes)| + i] == OracleVote(r, signers[i], kind, requestHash)
  {
    ghost var votes := VotesOf(r, signers, kind, requestHash);
    for i := 0 to |signers|
      invariant repo.votes == old(repo.votes) + votes[..i]
    {
      assert votes[..i + 1] == votes[..i] + [votes[i]];
      var added := repo.AddAttestation(r, signers[i], kind, requestHash);
    }
    assert votes[..|signers|] == votes;
  }

  /** The attestation goes to the chain first; the local signers' votes follow, bound to the row's hash. */
  method Attest(
    repo: Repo, client: Client, r: RowId, kind: Escrow.AttestKind, oracle: Address, auth: set<Address>,
    txHash: Option<TxHash>, signers: seq<Address>)
    returns (result: Result<(), FlowError>)
    modifies repo`chainTxs, repo`votes, client`chain
    ensures repo.payouts == old(repo.payouts) && repo.decisions == old(repo.decisions)
    ensures var id := if r in repo.rows then repo.rows[r].chainId else None;
            if r !in repo.rows then result == Err(UnknownIntent) && repo.View() == old(repo.View()) && client.chain == old(client.chain)
            else if id == None then result == Err(NoEscrowYet) && repo.View() == old(repo.View()) && client.chain == old(client.chain)
            else
              match Escrow.TryAttest(old(client.chain), auth, id.value, oracle, kind)
              case Err(_) => result == Err(ChainRejected) && repo.View() == old(repo.View()) && client.chain == old(client.chain)
              case Ok(s) =>
                && result == Ok(()) && client.chain == s
                && repo.chainTxs == old(repo.chainTxs)
                     + [ChainTx(r, if kind == Escrow.Shipped then "attest_shipped" else "attest_failed", txHash)]
                && repo.votes == old(repo.votes) + VotesOf(r, signers, kind, repo.rows[r].requestHash)
                && |repo.votes| == |old(repo.votes)| + |signers|
                && (forall i :: 0 <= i < |signers| ==>
                      repo.votes[|old(repo.votes)| + i] == OracleVote(r, signers[i], kind, repo.rows[r].requestHash))
  {
    hide Escrow.TryAttest;
    if r !in repo.rows { return Err(UnknownIntent); }
    if repo.rows[r].chainId == None { return Err(NoEscrowYet); }
    match Escrow.TryAttest(client.chain, auth, repo.rows[r].chainId.value, oracle, kind) {
      case Err(_) => return Err(ChainRejected);
      case Ok(s) => client.chain := s;
    }
    var noted := repo.AddChainTx(r, if kind == Escrow.Shipped then "attest_shipped" else "attest_failed", txHash);
    RecordVotes(repo, r, signers, kind, repo.rows[r].requestHash);
    return Ok(());
  }
}
