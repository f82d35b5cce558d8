/** What every recorded proposal is worth, whatever was switched off and whatever the extractor said. */
module PipelineTheorems {
  import opened AmountText
  import opened AmountTheorems
  import Engine
  import opened Guards
  import opened GuardTheorems
  import opened Ledger
  import opened LocalDb
  import opened Pipeline
  import PolicyAccount
  import opened Repository
  import opened RequestHash
  import opened Wrappers

  /** One run of the pipeline, seen from outside. */
  datatype Attempt = Attempt(
    before: Db, after: Db, ctx: Context, suppliers: map<string, Address>, rules: Rules, sha: string -> string,
    invoice: Invoice, config: Config, newId: RowId, day: nat, deadline: nat, result: Result<Proposal, PipelineError>)

  ghost predicate Faithful(a: Attempt) {
    && Presents(a.ctx, a.before, a.suppliers, a.rules, a.sha, a.invoice, a.config, a.day)
    && Recorded(a.before, a.after, a.ctx, a.rules, a.invoice, a.config, a.newId, a.day, a.deadline, a.result)
  }

  /** A run that stored an intent. */
  ghost predicate Stored(a: Attempt) {
    Faithful(a) && a.result.Ok? && a.result.value.intent.Some?
  }

  /** The row that was stored; the plan that came with it. */
  function NewRow(a: Attempt): Row
    requires a.newId in a.after.rows
  {
    a.after.rows[a.newId]
  }

  /** The stored row is the only change: proposed or held, new, unlinked, of today, and keyed by its own payment. */
  lemma {:induction false} StoredRow(a: Attempt)
    requires Stored(a)
    ensures Verdict(Chain(a.config), a.ctx) != Refuse && a.result.value.intent == Some(a.newId)
    ensures a.newId !in a.before.rows && a.newId in a.after.rows
    ensures a.after.rows == a.before.rows[a.newId := NewRow(a)]
    ensures var row := NewRow(a);
            && row.status in {Proposed, Held} && row.chainId == None && row.day == a.day
            && (row.status == Proposed <==> Verdict(Chain(a.config), a.ctx) == Pass)
            && a.ctx.request.amount == Some(row.amount) == ToStroops(a.invoice.extracted.amount)
            && a.ctx.request.registryAddress == Some(row.supplier) && row.token == a.rules.token
            && row.invoiceRef == a.invoice.extracted.invoiceRef && row.deadline == a.deadline
            && row.requestHash == HashOf(a.sha, PaymentOf(a.rules, Some(row.supplier), a.invoice.extracted))
            && !KnownHash(a.before, row.requestHash)
  {
    hide AmountMatches, ToStroops, BuildGuards, HashOf, Foreign, IntText, Said, Verdict, Distinct, Engine.Committed, PaymentOf, KnownHash;
  }

  /** A plan is handed out exactly for a proposed row, and says what the row says. */
  lemma {:induction false} PlanMirrorsRow(a: Attempt)
    requires Stored(a)
    ensures a.newId in a.after.rows && (a.result.value.plan.Some? <==> NewRow(a).status == Proposed)
    ensures a.result.value.plan.Some? ==>
      var row := NewRow(a);
      a.result.value.plan.value == TxPlan(a.rules.sme, row.supplier, row.token, IntText(row.amount), row.requestHash, row.deadline)
  {
    hide AmountMatches, ToStroops, BuildGuards, HashOf, Foreign, IntText, Said, Verdict, Distinct, Engine.Committed, PaymentOf, KnownHash;
  }

  /**
  Whatever guards are off and whatever the extractor returns: the amount of a
  stored intent is a number of the invoice to the last stroop, taken from a
  payable-labelled line if any of those has a number.
  */
  lemma {:induction false} AmountIntegrity(a: Attempt)
    requires Stored(a)
    ensures a.newId in a.after.rows && NewRow(a).amount >= 0
    ensures var read := if a.config.injectionScan then a.invoice.scanned else a.invoice.raw;
            InvoiceNames(NewRow(a).amount, read.tails, read.text)
  {
    hide AmountMatches, ToStroops, BuildGuards, Verdict, InvoiceNames, RequestOf, Recorded;
    StoredRow(a);
    NotRefusedMatches(a.config, a.ctx);
    CrossCheckIsExact(a.invoice.extracted.amount, NewRow(a).amount, a.ctx.tails, a.ctx.text);
    CrossCheckReadsInvoice(a.invoice.extracted.amount, NewRow(a).amount, a.ctx.tails, a.ctx.text);
  }

  lemma EngineAgreed(config: Config, ctx: Context)
    requires ctx.Proposing? && config.policyEngine && Verdict(Chain(config), ctx) != Refuse
    ensures Engine.Broken(ctx.request, ctx.policy) == []
  {
    hide Verdict, Engine.Broken;
    VerdictIsStrictest(Chain(config), ctx);
    assert Chain(config)[1] == Guard(true, PolicyEngineGuard);
    assert Answer(Chain(config)[1], ctx) == Engaged(Engine.Broken(ctx.request, ctx.policy));
  }

  lemma SignerAgreed(config: Config, ctx: Context)
    requires ctx.Proposing? && config.policySigner && Verdict(Chain(config), ctx) != Refuse
    ensures SignerCodes(ctx.request, ctx.policy.capPerTx, ctx.supplierAddresses) == []
  {
    hide Verdict, SignerCodes;
    VerdictIsStrictest(Chain(config), ctx);
    assert Chain(config)[2] == Guard(true, PolicySignerGuard);
    assert Answer(Chain(config)[2], ctx) == Engaged(SignerCodes(ctx.request, ctx.policy.capPerTx, ctx.supplierAddresses));
  }

  /** With the engine on, a stored intent is payable, within the cap, and still within the day's. */
  lemma {:induction false} EngineBounds(a: Attempt)
    requires Stored(a) && a.config.policyEngine
    ensures a.newId in a.after.rows
    ensures 0 < NewRow(a).amount <= a.rules.capPerTx && DayTotal(a.before, a.day) + NewRow(a).amount <= a.rules.capDaily
  {
    hide Verdict, Engine.Broken, RequestOf, ToStroops, Recorded, HashOf;
    StoredRow(a);
    EngineAgreed(a.config, a.ctx);
    Engine.AllowedExactly(a.ctx.request, a.ctx.policy);
  }

  /** With the engine on, storing never trips over the UNIQUE request hash: a known hash is refused first. */
  lemma {:induction false} UniqueNeverFails(a: Attempt)
    requires Faithful(a) && a.config.policyEngine && a.newId !in a.before.rows
    ensures a.result.Ok?
  {
    hide Verdict, Engine.Broken, RequestOf, HashOf, Said, Distinct, IntText;
    if Verdict(Chain(a.config), a.ctx) != Refuse {
      EngineAgreed(a.config, a.ctx);
      Engine.AllowedExactly(a.ctx.request, a.ctx.policy);
    }
  }

  // ---- What the guards are shown ----

  lemma {:induction false} ForeignExactly(addresses: seq<Address>, own: Option<Address>)
    ensures match Foreign(addresses, own)
            case None => forall i :: 0 <= i < |addresses| ==> Some(addresses[i]) == own
            case Some(a) =>
              exists i :: 0 <= i < |addresses| && addresses[i] == a && Some(a) != own
                && forall j :: 0 <= j < i ==> Some(addresses[j]) == own
  {
    if addresses != [] {
      ForeignExactly(addresses[1..], own);
      if Foreign(addresses, own).Some? && own == Some(addresses[0]) {
        var rest := addresses[1..];
        var i :| 0 <= i < |rest| && rest[i] == Foreign(addresses, own).value && Some(rest[i]) != own
          && forall j :: 0 <= j < i ==> Some(rest[j]) == own;
        assert addresses[i + 1] == rest[i];
        forall j | 0 <= j < i + 1 ensures Some(addresses[j]) == own {
          if j > 0 { assert addresses[j] == rest[j - 1]; }
        }
      }
    }
  }

  /** The registered supplier the extracted name stands for: none for no name, an empty one, or an unknown one. */
  ghost predicate Names(suppliers: map<string, Address>, name: Option<string>, address: Option<Address>) {
    if name.Some? && name.value != "" && name.value in suppliers then address == Some(suppliers[name.value]) else address == None
  }

  /** The request, field by field, in the invoice's own terms. */
  lemma RequestExactly(sha: string -> string, suppliers: map<string, Address>, rules: Rules, invoice: Invoice, config: Config)
    ensures var req := RequestOf(sha, suppliers, rules, invoice, config);
            && req.flags == (if config.injectionScan then invoice.scanned.flags else [])
            && Names(suppliers, invoice.extracted.supplierName, req.registryAddress)
            && req.amount == ToStroops(invoice.extracted.amount)
            && req.requestHash == HashOf(sha, Payment(
                 rules.sme, if req.registryAddress.Some? then req.registryAddress.value else "", rules.token,
                 if req.amount.Some? then req.amount.value else 0,
                 if invoice.extracted.invoiceRef.Some? then invoice.extracted.invoiceRef.value else ""))
            && (!config.injectionScan ==> req.invoiceAddress == invoice.extracted.paymentAddress)
            && (config.injectionScan ==>
                  if forall i :: 0 <= i < |invoice.scanned.addresses| ==> Some(invoice.scanned.addresses[i]) == req.registryAddress
                  then req.invoiceAddress == invoice.extracted.paymentAddress
                  else req.invoiceAddress.Some? && req.invoiceAddress.value in invoice.scanned.addresses
                         && req.invoiceAddress != req.registryAddress)
  {
    hide HashOf, ToStroops, Foreign;
    var registry := Registered(suppliers, invoice.extracted.supplierName);
    ForeignExactly(invoice.scanned.addresses, registry);
    ForeignExactly([], registry);
  }

  /** A flagged invoice is refused under the scan, with its code, and nothing is stored. */
  lemma {:induction false} FlaggedIsRefused(a: Attempt)
    requires Faithful(a) && a.config.injectionScan && a.invoice.scanned.flags != []
    ensures a.after.rows == a.before.rows && a.result.Ok?
    ensures var out := a.result.value;
            out.decision == Refused && "INJECTION_SUSPECTED" in out.codes && out.plan == None && out.intent == None
  {
    hide AmountMatches, Engine.Broken, RequestOf, HashOf, Said, Distinct, IntText, Verdict, Chain, Stores, ToStroops;
    RequestExactly(a.sha, a.suppliers, a.rules, a.invoice, a.config);
    ProposalVerdictExactly(a.config, a.ctx);
    ProposalCodesExactly(a.config, a.ctx);
    DistinctMeans(Said(Chain(a.config), a.ctx));
  }

  /** What is stored is for the supplier the extracted name is registered under. */
  lemma {:induction false} StoredSupplier(a: Attempt)
    requires Stored(a)
    ensures a.newId in a.after.rows
    ensures var name := a.invoice.extracted.supplierName;
            name.Some? && name.value != "" && name.value in a.suppliers && NewRow(a).supplier == a.suppliers[name.value]
  {
    hide RequestOf, Recorded, HashOf, Verdict, Chain, ToStroops;
    StoredRow(a);
    RequestExactly(a.sha, a.suppliers, a.rules, a.invoice, a.config);
  }

  /** Somewhere the invoice asks for payment to an address that is not the supplier's: in its text, else in the extraction. */
  ghost predicate Misdirected(invoice: Invoice, config: Config, supplier: Address) {
    || (config.injectionScan && exists i :: 0 <= i < |invoice.scanned.addresses| && invoice.scanned.addresses[i] != supplier)
    || (invoice.extracted.paymentAddress.Some? && invoice.extracted.paymentAddress.value != supplier)
  }

  /** With the engine on, a registered supplier's invoice is reported exactly when it is misdirected, and then refused. */
  lemma {:induction false} MisdirectedExactly(a: Attempt, name: string)
    requires Faithful(a) && a.config.policyEngine
    requires a.invoice.extracted.supplierName == Some(name) && name != "" && name in a.suppliers
    ensures "ADDRESS_MISMATCH" in Said(Chain(a.config), a.ctx) <==> Misdirected(a.invoice, a.config, a.suppliers[name])
    ensures Misdirected(a.invoice, a.config, a.suppliers[name]) ==>
      && a.result.Ok? && a.result.value.decision == Refused && "ADDRESS_MISMATCH" in a.result.value.codes
      && a.after.rows == a.before.rows
  {
    hide AmountMatches, RequestOf, HashOf, Said, Distinct, IntText, Verdict, Chain, Stores, ToStroops, Engine.Broken;
    RequestExactly(a.sha, a.suppliers, a.rules, a.invoice, a.config);
    ProposalCodesExactly(a.config, a.ctx);
    ProposalVerdictExactly(a.config, a.ctx);
    Engine.CodesExactly(a.ctx.request, a.ctx.policy);
    DistinctMeans(Said(Chain(a.config), a.ctx));
    assert Misdirected(a.invoice, a.config, a.suppliers[name]) <==>
      a.ctx.request.invoiceAddress.Some? && a.ctx.request.invoiceAddress.value != a.suppliers[name];
  }

  /** So with the engine on, whatever is stored is directed to its supplier alone. */
  lemma {:induction false} StoredIsDirected(a: Attempt)
    requires Stored(a) && a.config.policyEngine
    ensures a.newId in a.after.rows && !Misdirected(a.invoice, a.config, NewRow(a).supplier)
  {
    hide Faithful, Misdirected, Said, Chain;
    StoredSupplier(a);
    StoredDecision(a);
    MisdirectedExactly(a, a.invoice.extracted.supplierName.value);
  }

  lemma {:induction false} StoredDecision(a: Attempt)
    requires Stored(a)
    ensures a.result.value.decision in {WasProposed, WasHeld}
  {
    hide AmountMatches, RequestOf, HashOf, Said, Distinct, IntText, Verdict, Chain, ToStroops, Engine.Broken;
  }

  // ---- The verdict on a proposal ----

  /** Some enabled check finds the proposal unacceptable, or its amount is not the invoice's. */
  predicate Unacceptable(config: Config, ctx: Context)
    requires ctx.Proposing?
  {
    || (config.injectionScan && ctx.request.flags != [])
    || (config.policyEngine && Engine.Broken(ctx.request, ctx.policy) != [])
    || (config.policySigner && SignerCodes(ctx.request, ctx.policy.capPerTx, ctx.supplierAddresses) != [])
    || (config.proofOfCompute && (ctx.receipt == None || ctx.receipt.value.digest != ctx.receipt.value.payloadDigest))
    || ctx.request.amount == None || !AmountMatches(ctx.request.amount.value, ctx.tails, ctx.text)
  }

  predicate NeedsCosign(config: Config, ctx: Context)
    requires ctx.Proposing?
  {
    && 0 < config.cosignThreshold && ctx.cosignToken == ""
    && ctx.request.amount.Some? && config.cosignThreshold < ctx.request.amount.value
  }

  /** A proposal is refused, held for a second signature, or passed, in that order of strength. */
  lemma ProposalVerdictExactly(config: Config, ctx: Context)
    requires ctx.Proposing?
    ensures Verdict(Chain(config), ctx) ==
      if Unacceptable(config, ctx) then Refuse else if NeedsCosign(config, ctx) then Hold else Pass
  {
    hide AmountMatches, Engine.Broken, SignerCodes;
    var guards := Chain(config);
    assert |guards| == 8;
    assert Answer(guards[0], ctx).outcome == if config.injectionScan && ctx.request.flags != [] then Refuse else Pass;
    assert Answer(guards[1], ctx).outcome ==
      if config.policyEngine && Engine.Broken(ctx.request, ctx.policy) != [] then Refuse else Pass;
    assert Answer(guards[2], ctx).outcome ==
      if config.policySigner && SignerCodes(ctx.request, ctx.policy.capPerTx, ctx.supplierAddresses) != [] then Refuse else Pass;
    assert Answer(guards[3], ctx) == PASS && Answer(guards[4], ctx) == PASS;
    assert Answer(guards[5], ctx).outcome == if NeedsCosign(config, ctx) then Hold else Pass;
    assert Answer(guards[6], ctx).outcome == Pass || Answer(guards[6], ctx).outcome == Refuse;
    assert Answer(guards[7], ctx) == CrossCheck(ctx.request.amount, ctx.tails, ctx.text);
    hide Answer;
    VerdictIsStrictest(guards, ctx);
  }

  /** What the three shipped profiles refuse and hold. */
  lemma ProfilesAtProposal(ctx: Context)
    requires ctx.Proposing?
    ensures var flagged, broken := ctx.request.flags != [], Engine.Broken(ctx.request, ctx.policy) != [];
            var unsigned := SignerCodes(ctx.request, ctx.policy.capPerTx, ctx.supplierAddresses) != [];
            var unproven := ctx.receipt == None || ctx.receipt.value.digest != ctx.receipt.value.payloadDigest;
            var unmatched := ctx.request.amount == None || !AmountMatches(ctx.request.amount.value, ctx.tails, ctx.text);
            var large := ctx.request.amount.Some? && ctx.request.amount.value > 1_000_000_000;
            && Verdict(Chain(FAST), ctx) == (if flagged || broken || unmatched then Refuse else Pass)
            && Verdict(Chain(BALANCED), ctx) == (if flagged || broken || unsigned || unmatched then Refuse else Pass)
            && Verdict(Chain(STRICT), ctx) ==
                 (if flagged || broken || unsigned || unproven || unmatched then Refuse
                  else if large && ctx.cosignToken == "" then Hold else Pass)
  {
    hide AmountMatches, Engine.Broken, SignerCodes, Verdict, Chain;
    ProposalVerdictExactly(FAST, ctx);
    ProposalVerdictExactly(BALANCED, ctx);
    ProposalVerdictExactly(STRICT, ctx);
  }

  // ---- The codes of a proposal ----

  /** Guard by guard, what is said at the proposal stage. */
  lemma ProposalAnswers(config: Config, ctx: Context)
    requires ctx.Proposing?
    ensures var guards := Chain(config);
            && |guards| == 8
            && Answer(guards[0], ctx).codes == (if config.injectionScan && ctx.request.flags != [] then ["INJECTION_SUSPECTED"] else [])
            && Answer(guards[1], ctx).codes == (if config.policyEngine then Engine.Broken(ctx.request, ctx.policy) else [])
            && Answer(guards[2], ctx).codes ==
                 (if config.policySigner then SignerCodes(ctx.request, ctx.policy.capPerTx, ctx.supplierAddresses) else [])
            && Answer(guards[3], ctx).codes == [] && Answer(guards[4], ctx).codes == []
            && Answer(guards[5], ctx).codes == (if NeedsCosign(config, ctx) then ["COSIGN_REQUIRED"] else [])
            && Answer(guards[6], ctx).codes ==
                 (if config.proofOfCompute && (ctx.receipt == None || ctx.receipt.value.digest != ctx.receipt.value.payloadDigest)
                  then ["POC_RECEIPT_INVALID"] else [])
            && Answer(guards[7], ctx).codes ==
                 (if ctx.request.amount == None then ["INVALID_AMOUNT"]
                  else if !AmountMatches(ctx.request.amount.value, ctx.tails, ctx.text) then ["AMOUNT_MISMATCH"] else [])
  {
    hide AmountMatches, Engine.Broken, SignerCodes;
  }

  /** The mirror of the signer: an address that is not on the list, an amount over the cap. */
  lemma SignerCodesExactly(req: Engine.Request, cap: int, supplierAddresses: set<Address>)
    ensures var codes := SignerCodes(req, cap, supplierAddresses);
            && ("SIGNER_SUPPLIER_NOT_ALLOWED" in codes <==>
                  req.registryAddress == None || req.registryAddress.value !in supplierAddresses)
            && ("SIGNER_OVER_CAP" in codes <==> req.amount.Some? && req.amount.value > cap)
            && (forall code :: code in codes ==> code == "SIGNER_SUPPLIER_NOT_ALLOWED" || code == "SIGNER_OVER_CAP")
  {
    assert |"SIGNER_SUPPLIER_NOT_ALLOWED"| != |"SIGNER_OVER_CAP"|;
  }

  /** No two codes are spelt alike: length and first letter tell them apart. */
  lemma Spellings()
    ensures |"INJECTION_SUSPECTED"| == 19 && |"POC_RECEIPT_INVALID"| == 19 && |"UNKNOWN_SUPPLIER"| == 16 && |"ADDRESS_MISMATCH"| == 16
    ensures |"INVALID_AMOUNT"| == 14 && |"OVER_DAILY_CAP"| == 14 && |"DUPLICATE_REQUEST"| == 17 && |"OVER_TX_CAP"| == 11
    ensures |"SIGNER_SUPPLIER_NOT_ALLOWED"| == 27 && |"SIGNER_OVER_CAP"| == 15 && |"COSIGN_REQUIRED"| == 15 && |"AMOUNT_MISMATCH"| == 15
    ensures "INJECTION_SUSPECTED"[0] == 'I' && "POC_RECEIPT_INVALID"[0] == 'P' && "UNKNOWN_SUPPLIER"[0] == 'U'
    ensures "ADDRESS_MISMATCH"[0] == 'A' && "INVALID_AMOUNT"[0] == 'I' && "OVER_DAILY_CAP"[0] == 'O'
    ensures "SIGNER_OVER_CAP"[0] == 'S' && "COSIGN_REQUIRED"[0] == 'C' && "AMOUNT_MISMATCH"[0] == 'A'
  {
  }

  /** A code comes from one of the six guards that may speak. */
  lemma {:induction false} SaidByOne(config: Config, ctx: Context, code: string)
    requires ctx.Proposing?
    ensures code in Said(Chain(config), ctx) <==>
      || (code == "INJECTION_SUSPECTED" && config.injectionScan && ctx.request.flags != [])
      || (config.policyEngine && code in Engine.Broken(ctx.request, ctx.policy))
      || (config.policySigner && code in SignerCodes(ctx.request, ctx.policy.capPerTx, ctx.supplierAddresses))
      || (code == "COSIGN_REQUIRED" && NeedsCosign(config, ctx))
      || (code == "POC_RECEIPT_INVALID" && config.proofOfCompute
            && (ctx.receipt == None || ctx.receipt.value.digest != ctx.receipt.value.payloadDigest))
      || (code == "INVALID_AMOUNT" && ctx.request.amount == None)
      || (code == "AMOUNT_MISMATCH" && ctx.request.amount.Some? && !AmountMatches(ctx.request.amount.value, ctx.tails, ctx.text))
  {
    hide Said, Answer, Chain, Engine.Broken, SignerCodes, AmountMatches, NeedsCosign;
    ProposalAnswers(config, ctx);
    SaidIs(Chain(config), ctx, code);
  }

  lemma EngineSaysNothingElse(req: Engine.Request, policy: Engine.Policy, code: string)
    requires code in Engine.Broken(req, policy)
    ensures code in ["INJECTION_SUSPECTED", "INVALID_AMOUNT", "UNKNOWN_SUPPLIER", "ADDRESS_MISMATCH",
                     "DUPLICATE_REQUEST", "OVER_TX_CAP", "OVER_DAILY_CAP"]
  {
    hide Engine.BrokenAmong;
    Engine.OnlyRuleCodes(Engine.RULES, req, policy, code);
  }

  /** Every code of a refused or held proposal, each exactly when its own condition holds. */
  lemma {:induction false} ProposalCodesExactly(config: Config, ctx: Context)
    requires ctx.Proposing?
    ensures var said, req, policy := Said(Chain(config), ctx), ctx.request, ctx.policy;
            && ("INJECTION_SUSPECTED" in said <==> (config.injectionScan || config.policyEngine) && req.flags != [])
            && ("INVALID_AMOUNT" in said <==> req.amount == None || (config.policyEngine && req.amount.value <= 0))
            && ("UNKNOWN_SUPPLIER" in said <==> config.policyEngine && req.registryAddress == None)
            && ("ADDRESS_MISMATCH" in said <==>
                  config.policyEngine && req.invoiceAddress.Some? && req.registryAddress.Some?
                  && req.invoiceAddress.value != req.registryAddress.value)
            && ("DUPLICATE_REQUEST" in said <==> config.policyEngine && req.requestHash in policy.knownHashes)
            && ("OVER_TX_CAP" in said <==>
                  config.policyEngine && req.amount.Some? && req.amount.value > 0 && req.amount.value > policy.capPerTx)
            && ("OVER_DAILY_CAP" in said <==>
                  config.policyEngine && req.amount.Some? && req.amount.value > 0
                  && Engine.Committed(policy.priors) + req.amount.value > policy.capDaily)
            && ("SIGNER_SUPPLIER_NOT_ALLOWED" in said <==>
                  config.policySigner && (req.registryAddress == None || req.registryAddress.value !in ctx.supplierAddresses))
            && ("SIGNER_OVER_CAP" in said <==> config.policySigner && req.amount.Some? && req.amount.value > policy.capPerTx)
            && ("COSIGN_REQUIRED" in said <==>
                  0 < config.cosignThreshold && req.amount.Some? && req.amount.value > config.cosignThreshold && ctx.cosignToken == "")
            && ("POC_RECEIPT_INVALID" in said <==>
                  config.proofOfCompute && (ctx.receipt == None || ctx.receipt.value.digest != ctx.receipt.value.payloadDigest))
            && ("AMOUNT_MISMATCH" in said <==>
                  req.amount.Some? && !AmountMatches(req.amount.value, ctx.tails, ctx.text))
  {
    Spellings();
    hide Said, Chain, Engine.Broken, SignerCodes, AmountMatches, Engine.Committed;
    Engine.CodesExactly(ctx.request, ctx.policy);
    SignerCodesExactly(ctx.request, ctx.policy.capPerTx, ctx.supplierAddresses);
    EngineAndSignerApart(ctx.request, ctx.policy, ctx.supplierAddresses);
    assert OTHERS[0] == "SIGNER_SUPPLIER_NOT_ALLOWED" && OTHERS[1] == "SIGNER_OVER_CAP" && OTHERS[2] == "COSIGN_REQUIRED";
    assert OTHERS[3] == "POC_RECEIPT_INVALID" && OTHERS[4] == "AMOUNT_MISMATCH";
    SaidByOne(config, ctx, "INJECTION_SUSPECTED");
    SaidByOne(config, ctx, "INVALID_AMOUNT");
    SaidByOne(config, ctx, "UNKNOWN_SUPPLIER");
    SaidByOne(config, ctx, "ADDRESS_MISMATCH");
    SaidByOne(config, ctx, "DUPLICATE_REQUEST");
    SaidByOne(config, ctx, "OVER_TX_CAP");
    SaidByOne(config, ctx, "OVER_DAILY_CAP");
    SaidByOne(config, ctx, "SIGNER_SUPPLIER_NOT_ALLOWED");
    SaidByOne(config, ctx, "SIGNER_OVER_CAP");
    SaidByOne(config, ctx, "COSIGN_REQUIRED");
    SaidByOne(config, ctx, "POC_RECEIPT_INVALID");
    SaidByOne(config, ctx, "AMOUNT_MISMATCH");
  }

  const OTHERS := ["SIGNER_SUPPLIER_NOT_ALLOWED", "SIGNER_OVER_CAP", "COSIGN_REQUIRED", "POC_RECEIPT_INVALID", "AMOUNT_MISMATCH"]

  /** The engine and the signer's mirror keep to their own codes. */
  lemma EngineAndSignerApart(req: Engine.Request, policy: Engine.Policy, supplierAddresses: set<Address>)
    ensures forall code :: code in OTHERS ==> code !in Engine.Broken(req, policy)
  {
    hide Engine.Broken;
    Spellings();
    forall code | code in OTHERS ensures code !in Engine.Broken(req, policy) {
      if code in Engine.Broken(req, policy) { EngineSaysNothingElse(req, policy, code); }
    }
  }

  // ---- What was approved off chain is authorised on chain ----

  /** The two invocations a plan makes the account answer for: the escrow call, and the funding leg inside it. */
  function PlanContexts(plan: TxPlan, amount: int, escrow: Address): seq<PolicyAccount.Context> {
    [PolicyAccount.ContractCall(escrow, "create_intent",
       [PolicyAccount.AddressVal(plan.sme), PolicyAccount.AddressVal(plan.supplier), PolicyAccount.AddressVal(plan.token),
        PolicyAccount.I128Val(amount), PolicyAccount.BytesVal(plan.requestHash), PolicyAccount.U64Val(plan.deadline)]),
     PolicyAccount.ContractCall(plan.token, "transfer",
       [PolicyAccount.AddressVal(plan.sme), PolicyAccount.AddressVal(escrow), PolicyAccount.I128Val(amount)])]
  }

  /** The account lets through what the plan asks, exactly when the amount is within its cap and the supplier approved. */
  lemma PlanPasses(plan: TxPlan, amount: int, acct: PolicyAccount.Account, escrow: Address)
    requires acct.escrow == Some(escrow) && acct.self != escrow && acct.self != plan.token
    ensures PolicyAccount.AllAllowed(acct, PlanContexts(plan, amount, escrow)) <==>
      plan.supplier in acct.suppliers && 0 <= amount <= acct.cap
  {
    var contexts := PlanContexts(plan, amount, escrow);
    assert PolicyAccount.ContextError(acct, contexts[0]) == None <==>
      plan.supplier in acct.suppliers && 0 <= amount <= acct.cap;
    assert PolicyAccount.ContextError(acct, contexts[1]) == None <==> 0 <= amount <= acct.cap;
  }

  /**
  If the local registry and cap are no wider than the account's, and the account
  is bound to this escrow, then whatever the engine or the signer's mirror let
  through is authorised by the account: both contexts of its plan pass.
  */
  lemma {:induction false} ApprovedIsAuthorized(a: Attempt, acct: PolicyAccount.Account, escrow: Address)
    requires Stored(a) && a.result.value.plan.Some? && (a.config.policyEngine || a.config.policySigner)
    requires forall name :: name in a.suppliers ==> a.suppliers[name] in acct.suppliers
    requires a.rules.capPerTx <= acct.cap && acct.escrow == Some(escrow)
    requires acct.self != escrow && acct.self != a.result.value.plan.value.token
    ensures a.newId in a.after.rows
    ensures PolicyAccount.AllAllowed(acct, PlanContexts(a.result.value.plan.value, NewRow(a).amount, escrow))
  {
    hide Verdict, Engine.Broken, ToStroops, Recorded, HashOf, InvoiceNames, PlanContexts, IntText;
    StoredRow(a);
    PlanMirrorsRow(a);
    AmountIntegrity(a);
    if a.config.policySigner {
      SignerAgreed(a.config, a.ctx);
    } else {
      EngineAgreed(a.config, a.ctx);
      EnginePassImpliesSignerPass(a.ctx.request, a.ctx.policy, a.ctx.supplierAddresses);
    }
    PlanPasses(a.result.value.plan.value, NewRow(a).amount, acct, escrow);
  }

  // ---- No payment is stored twice ----

  function PaymentIn(sme: string, row: Row): Payment {
    Payment(sme, row.supplier, row.token, row.amount, OrEmpty(row.invoiceRef))
  }

  ghost predicate KeyedAs(sha: string -> string, row: Row, sme: string) {
    row.requestHash == HashOf(sha, PaymentIn(sme, row))
  }

  /** Every row carries the hash of its own payment, and no two rows the same hash. */
  ghost predicate Keyed(db: Db, sha: string -> string) {
    && (forall r :: r in db.rows ==> exists sme :: KeyedAs(sha, db.rows[r], sme))
    && (forall r, q :: r in db.rows && q in db.rows && db.rows[r].requestHash == db.rows[q].requestHash ==> r == q)
  }

  lemma {:induction false} StoringKeepsKeyed(a: Attempt)
    requires Keyed(a.before, a.sha) && Stored(a)
    ensures Keyed(a.after, a.sha)
  {
    hide Verdict, Engine.Broken, ToStroops, Recorded, HashOf;
    StoredRow(a);
    var row := NewRow(a);
    assert PaymentOf(a.rules, Some(row.supplier), a.invoice.extracted) == PaymentIn(a.rules.sme, row);
    assert KeyedAs(a.sha, row, a.rules.sme);
    forall r | r in a.after.rows ensures exists sme :: KeyedAs(a.sha, a.after.rows[r], sme) {
      if r != a.newId {
        var sme :| KeyedAs(a.sha, a.before.rows[r], sme);
        assert KeyedAs(a.sha, a.after.rows[r], sme);
      }
    }
  }

  /** No payment is stored twice, whatever has become of it: equal payments would share a key. */
  lemma NoPaymentTwice(db: Db, sha: string -> string, r: RowId, q: RowId, sme: string)
    requires Keyed(db, sha) && r in db.rows && q in db.rows
    requires KeyedAs(sha, db.rows[r], sme) && KeyedAs(sha, db.rows[q], sme)
    requires PaymentIn(sme, db.rows[r]) == PaymentIn(sme, db.rows[q])
    ensures r == q
  {
    hide HashOf;
  }

  /** Under an injective hash a stored row answers to the hash of a payment exactly when it is that payment. */
  lemma {:induction false} KeyIsThePayment(db: Db, sha: string -> string, r: RowId, p: Payment)
    requires Keyed(db, sha) && Injective(sha) && r in db.rows
    ensures db.rows[r].requestHash == HashOf(sha, p) <==> KeyedAs(sha, db.rows[r], p.sme) && PaymentIn(p.sme, db.rows[r]) == p
  {
    hide HashOf;
    var sme :| KeyedAs(sha, db.rows[r], sme);
    HashesExactly(sha, PaymentIn(sme, db.rows[r]), p);
  }

  ghost predicate Holds(sha: string -> string, row: Row, p: Payment) {
    KeyedAs(sha, row, p.sme) && PaymentIn(p.sme, row) == p
  }

  lemma {:induction false} KnownExactly(db: Db, sha: string -> string, p: Payment)
    requires Keyed(db, sha) && Injective(sha)
    ensures KnownHash(db, HashOf(sha, p)) <==> exists r :: r in db.rows && Holds(sha, db.rows[r], p)
  {
    hide HashOf, Injective;
    forall r | r in db.rows ensures db.rows[r].requestHash == HashOf(sha, p) <==> Holds(sha, db.rows[r], p) {
      KeyIsThePayment(db, sha, r, p);
    }
  }

  /**
  So under an injective hash a request is reported as a duplicate if and only if
  that very payment is stored, in any status: nothing is taken for something else.
  */
  lemma {:induction false} DuplicateExactly(
    ctx: Context, db: Db, suppliers: map<string, Address>, rules: Rules, sha: string -> string,
    invoice: Invoice, config: Config, day: nat)
    requires Presents(ctx, db, suppliers, rules, sha, invoice, config, day) && Keyed(db, sha) && Injective(sha)
    ensures var p := PaymentOf(rules, ctx.request.registryAddress, invoice.extracted);
            Engine.DUPLICATE_REQUEST in Engine.Broken(ctx.request, ctx.policy) <==>
              exists r :: r in db.rows && Holds(sha, db.rows[r], p)
  {
    hide HashOf, Injective, Keyed, Engine.Broken, PaymentOf, ToStroops, Foreign, Engine.Committed;
    Engine.ReportedExactly(Engine.Duplicate, ctx.request, ctx.policy);
    KnownExactly(db, sha, PaymentOf(rules, ctx.request.registryAddress, invoice.extracted));
  }
}
