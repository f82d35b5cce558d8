/**
One proposal: from what the extractor made of an invoice to a recorded decision
and, if every guard lets it through, a plan for the on-chain call.
*/
module Pipeline {
  import opened AmountText
  import Engine
  import opened Guards
  import opened GuardTheorems
  import opened Ledger
  import opened LocalDb
  import opened Repository
  import opened RequestHash
  import opened Wrappers

  /** The extractor may answer anything. */
  datatype Extracted = Extracted(
    invoiceRef: Option<string>, supplierName: Option<string>, paymentAddress: Option<Address>, amount: Option<string>)

  /** What the scan of a text yields: flags, the text itself, its payable-labelled line tails, the addresses in it. */
  datatype Scan = Scan(flags: seq<string>, text: string, tails: seq<string>, addresses: seq<Address>)

  /** `scanned` is the injection scan, `raw` the untouched text. */
  datatype Invoice = Invoice(extracted: Extracted, scanned: Scan, raw: Scan, cosignToken: string, receipt: Option<Receipt>)

  datatype TxPlan = TxPlan(sme: Address, supplier: Address, token: Token, amount: string, requestHash: string, deadline: nat)

  datatype Proposal = Proposal(
    decision: DecisionKind, codes: seq<string>, requestHash: string, plan: Option<TxPlan>, intent: Option<RowId>)

  datatype PipelineError = NoSupplierRow | RecordFailed(error: RecordError)

  function ScanOf(invoice: Invoice, config: Config): Scan {
    if config.injectionScan then invoice.scanned else invoice.raw.(flags := [], addresses := [])
  }

  function Registered(suppliers: map<string, Address>, name: Option<string>): Option<Address> {
    if name == None || name.value == "" || name.value !in suppliers then None else Some(suppliers[name.value])
  }

  /** The first address in the text that is not the supplier's own. */
  function Foreign(addresses: seq<Address>, own: Option<Address>): Option<Address> {
    if addresses == [] then None
    else if own != Some(addresses[0]) then Some(addresses[0])
    else Foreign(addresses[1..], own)
  }

  function PaymentOf(rules: Rules, registry: Option<Address>, extracted: Extracted): Payment {
    Payment(rules.sme, OrEmpty(registry), rules.token, OrZero(ToStroops(extracted.amount)), OrEmpty(extracted.invoiceRef))
  }

  function RequestOf(
    sha: string -> string, suppliers: map<string, Address>, rules: Rules, invoice: Invoice, config: Config): Engine.Request
  {
    var registry := Registered(suppliers, invoice.extracted.supplierName);
    var scan := ScanOf(invoice, config);
    var foreign := Foreign(scan.addresses, registry);
    Engine.Request(
      registry,
      if foreign.Some? then foreign else invoice.extracted.paymentAddress,
      ToStroops(invoice.extracted.amount),
      HashOf(sha, PaymentOf(rules, registry, invoice.extracted)),
      scan.flags)
  }

  /** The cross-check of the amount is not configurable. */
  function Chain(config: Config): seq<Guard> {
    BuildGuards(config) + [Guard(true, AmountCrossCheckGuard)]
  }

  /** A context that shows the guards the request as it is, and the database as it was. */
  ghost predicate Presents(
    ctx: Context, db: Db, suppliers: map<string, Address>, rules: Rules,
    sha: string -> string, invoice: Invoice, config: Config, day: nat)
  {
    && ctx.Proposing?
    && ctx.request == RequestOf(sha, suppliers, rules, invoice, config)
    && ctx.policy.capPerTx == rules.capPerTx && ctx.policy.capDaily == rules.capDaily
    && Engine.Committed(ctx.policy.priors) == DayTotal(db, day)
    && (forall h :: h in ctx.policy.knownHashes <==> KnownHash(db, h))
    && ctx.supplierAddresses == (set name | name in suppliers :: suppliers[name])
    && ctx.cosignToken == invoice.cosignToken && ctx.receipt == invoice.receipt
    && ctx.tails == ScanOf(invoice, config).tails && ctx.text == ScanOf(invoice, config).text
  }

  function DraftOf(req: Engine.Request, token: Token, invoiceRef: Option<string>, deadline: nat): Draft
    requires req.registryAddress.Some? && req.amount.Some?
  {
    Draft(req.requestHash, req.registryAddress.value, token, req.amount.value, deadline, invoiceRef)
  }

  function PlanOf(rules: Rules, draft: Draft): TxPlan {
    TxPlan(rules.sme, draft.supplier, draft.token, IntText(draft.amount), draft.requestHash, draft.deadline)
  }

  lemma NotRefusedMatches(config: Config, ctx: Context)
    requires ctx.Proposing? && Verdict(Chain(config), ctx) != Refuse
    ensures ctx.request.amount.Some? && AmountMatches(ctx.request.amount.value, ctx.tails, ctx.text)
  {
    hide AmountMatches, Verdict, BuildGuards;
    VerdictIsStrictest(Chain(config), ctx);
    var last := |Chain(config)| - 1;
    assert Chain(config)[last] == Guard(true, AmountCrossCheckGuard);
    assert Answer(Chain(config)[last], ctx) == CrossCheck(ctx.request.amount, ctx.tails, ctx.text);
  }

  /** Storing the draft: held without a plan, or proposed with one. */
  ghost predicate Stores(
    db: Db, db': Db, rules: Rules, draft: Draft, hold: bool, codes: seq<string>, newId: RowId, day: nat,
    result: Result<Proposal, PipelineError>)
  {
    var row := RowOf(draft, if hold then Held else Proposed, day);
    if !CanInsert(db, newId, row) then db' == db && result == Err(RecordFailed(UniqueViolation))
    else
      && db' == RecordIntent(db, newId, row, codes)
      && result == Ok(Proposal(if hold then WasHeld else WasProposed, codes, draft.requestHash,
                               if hold then None else Some(PlanOf(rules, draft)), Some(newId)))
  }

  /** What a run may end in, given what the guards were shown. */
  ghost predicate Recorded(
    db: Db, db': Db, ctx: Context, rules: Rules, invoice: Invoice, config: Config,
    newId: RowId, day: nat, deadline: nat, result: Result<Proposal, PipelineError>)
    requires ctx.Proposing?
  {
    var req, verdict := ctx.request, Verdict(Chain(config), ctx);
    var codes := if verdict == Pass then ["OK"] else Distinct(Said(Chain(config), ctx));
    if verdict == Refuse then
      && db' == RecordRefused(db, codes, req.requestHash)
      && result == Ok(Proposal(Refused, codes, req.requestHash, None, None))
    else if req.registryAddress == None || req.amount == None then
      db' == db && result == Err(NoSupplierRow)
    else
      var draft := DraftOf(req, rules.token, invoice.extracted.invoiceRef, deadline);
      Stores(db, db', rules, draft, verdict == Hold, codes, newId, day, result)
  }

  method Store(repo: Repo, draft: Draft, hold: bool, codes: seq<string>, newId: RowId, day: nat)
    returns (result: Result<Proposal, PipelineError>)
    modifies repo`rows, repo`decisions
    ensures Stores(old(repo.View()), repo.View(), repo.rules, draft, hold, codes, newId, day, result)
  {
    hide IntText;
    var kind := if hold then WasHeld else WasProposed;
    var recorded := repo.RecordDecision(kind, codes, draft.requestHash, Some(draft), None, newId, day);
    match recorded
    case Err(e) => return Err(RecordFailed(e));
    case Ok(id) => return Ok(Proposal(kind, codes, draft.requestHash, if hold then None else Some(PlanOf(repo.rules, draft)), id));
  }

  method Run(
    repo: Repo, sha: string -> string, invoice: Invoice, config: Config, newId: RowId, day: nat, deadline: nat)
    returns (result: Result<Proposal, PipelineError>, ghost ctx: Context)
    modifies repo`rows, repo`decisions
    ensures Presents(ctx, old(repo.View()), repo.suppliers, repo.rules, sha, invoice, config, day)
    ensures Recorded(old(repo.View()), repo.View(), ctx, repo.rules, invoice, config, newId, day, deadline, result)
  {
    hide AmountMatches, ToStroops, BuildGuards, HashOf, Foreign, IntText, Said, Verdict, Distinct, Engine.Committed, Stores;
    var scan := ScanOf(invoice, config);
    var req := RequestOf(sha, repo.suppliers, repo.rules, invoice, config);
    var priors := repo.IntentsToday(day);
    var hashes := repo.KnownRequestHashes();
    var policy := Engine.Policy(repo.rules.capPerTx, repo.rules.capDaily, priors, hashes);
    var context := Proposing(req, policy, repo.SupplierAddresses(), invoice.cosignToken, invoice.receipt, scan.tails, scan.text);
    ctx := context;
    var verdict, codes := RunGuards(Chain(config), context);
    if verdict == Refuse {
      var refused := repo.RecordDecision(Refused, codes, req.requestHash, None, None, newId, day);
      result := Ok(Proposal(Refused, codes, req.requestHash, None, None));
    } else {
      NotRefusedMatches(config, context);
      if req.registryAddress == None {
        result := Err(NoSupplierRow);
      } else {
        var draft := DraftOf(req, repo.rules.token, invoice.extracted.invoiceRef, deadline);
        result := Store(repo, draft, verdict == Hold, codes, newId, day);
      }
    }
  }
}
