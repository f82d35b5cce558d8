/**
The guard chain: independent checks on a proposal or a release, combined into
one verdict and one list of codes.
*/
module Guards {
  import opened AmountText
  import Engine
  import Escrow
  import opened Ledger
  import opened LocalDb
  import opened Wrappers

  const SIGNER_SUPPLIER_NOT_ALLOWED := "SIGNER_SUPPLIER_NOT_ALLOWED"
  const SIGNER_OVER_CAP := "SIGNER_OVER_CAP"
  const ATTESTATION_MISSING := "ATTESTATION_MISSING"
  const KOFN_UNMET := "KOFN_UNMET"
  const COSIGN_REQUIRED := "COSIGN_REQUIRED"
  const POC_RECEIPT_INVALID := "POC_RECEIPT_INVALID"
  const AMOUNT_MISMATCH := "AMOUNT_MISMATCH"

  datatype Kind =
    | InjectionGuard | PolicyEngineGuard | PolicySignerGuard | AttestationGuard
    | KofNOracleGuard(k: int) | HumanCosignGuard(threshold: int) | ProofOfComputeGuard | AmountCrossCheckGuard

  datatype Guard = Guard(enabled: bool, kind: Kind)

  /** A receipt carries a digest, and the digest its payload really has. */
  datatype Receipt = Receipt(digest: string, payloadDigest: string)

  /** What a chain is run on: a payment request, or the release of a stored intent. */
  datatype Context =
    | Proposing(request: Engine.Request, policy: Engine.Policy, supplierAddresses: set<Address>,
                cosignToken: string, receipt: Option<Receipt>, tails: seq<string>, text: string)
    | Releasing(row: RowId, requestHash: string, votes: seq<OracleVote>)

  datatype Outcome = Pass | Hold | Refuse

  datatype GuardResult = GuardResult(outcome: Outcome, codes: seq<string>)

  const PASS := GuardResult(Pass, [])

  /** The oracles whose Shipped vote on this intent carries the intent's own hash. */
  function ShippedOracles(row: RowId, requestHash: string, votes: seq<OracleVote>): set<Address> {
    set v | v in votes && v.row == row && v.kind == Escrow.Shipped && v.requestHash == requestHash :: v.oracle
  }

  predicate AtStage(g: Guard, ctx: Context) {
    ctx.Releasing? <==> g.kind.AttestationGuard? || g.kind.KofNOracleGuard?
  }

  function Engaged(codes: seq<string>): GuardResult {
    if codes == [] then PASS else GuardResult(Refuse, codes)
  }

  function SignerCodes(req: Engine.Request, cap: int, supplierAddresses: set<Address>): seq<string> {
    (if req.registryAddress == None || req.registryAddress.value !in supplierAddresses then [SIGNER_SUPPLIER_NOT_ALLOWED] else [])
    + (if req.amount.Some? && req.amount.value > cap then [SIGNER_OVER_CAP] else [])
  }

  function CrossCheck(amount: Option<int>, tails: seq<string>, text: string): GuardResult {
    if amount == None then GuardResult(Refuse, [Engine.INVALID_AMOUNT])
    else if AmountMatches(amount.value, tails, text) then PASS
    else GuardResult(Refuse, [AMOUNT_MISMATCH])
  }

  function Check(g: Guard, ctx: Context): GuardResult
    requires AtStage(g, ctx)
  {
    match g.kind
    case InjectionGuard => if ctx.request.flags != [] then GuardResult(Refuse, [Engine.INJECTION_SUSPECTED]) else PASS
    case PolicyEngineGuard => Engaged(Engine.Broken(ctx.request, ctx.policy))
    case PolicySignerGuard => Engaged(SignerCodes(ctx.request, ctx.policy.capPerTx, ctx.supplierAddresses))
    case AttestationGuard =>
      if ShippedOracles(ctx.row, ctx.requestHash, ctx.votes) != {} then PASS else GuardResult(Refuse, [ATTESTATION_MISSING])
    case KofNOracleGuard(k) =>
      if |ShippedOracles(ctx.row, ctx.requestHash, ctx.votes)| >= k then PASS else GuardResult(Refuse, [KOFN_UNMET])
    case HumanCosignGuard(threshold) =>
      if ctx.request.amount.Some? && ctx.request.amount.value > threshold && ctx.cosignToken == ""
      then GuardResult(Hold, [COSIGN_REQUIRED]) else PASS
    case ProofOfComputeGuard =>
      if ctx.receipt.Some? && ctx.receipt.value.digest == ctx.receipt.value.payloadDigest then PASS
      else GuardResult(Refuse, [POC_RECEIPT_INVALID])
    case AmountCrossCheckGuard => CrossCheck(ctx.request.amount, ctx.tails, ctx.text)
  }

  // ---- The chain ----

  predicate Runs(g: Guard, ctx: Context) {
    g.enabled && AtStage(g, ctx)
  }

  function Answer(g: Guard, ctx: Context): GuardResult {
    if Runs(g, ctx) then Check(g, ctx) else PASS
  }

  function Rank(o: Outcome): nat {
    match o
    case Pass => 0
    case Hold => 1
    case Refuse => 2
  }

  /** The strictest answer any guard gives. */
  function Verdict(guards: seq<Guard>, ctx: Context): Outcome {
    if exists i :: 0 <= i < |guards| && Answer(guards[i], ctx).outcome == Refuse then Refuse
    else if exists i :: 0 <= i < |guards| && Answer(guards[i], ctx).outcome == Hold then Hold
    else Pass
  }

  /** Everything the guards say, in order, repetitions and all. */
  function Said(guards: seq<Guard>, ctx: Context): seq<string> {
    if guards == [] then []
    else Said(guards[..|guards| - 1], ctx) + Answer(guards[|guards| - 1], ctx).codes
  }

  /** The first occurrence of everything, in order. */
  function Distinct(s: seq<string>): seq<string> {
    if s == [] then []
    else
      var front, last := Distinct(s[..|s| - 1]), s[|s| - 1];
      if last in front then front else front + [last]
  }

  lemma {:induction false} DistinctMeans(s: seq<string>)
    ensures forall x :: x in Distinct(s) <==> x in s
    ensures forall i, j :: 0 <= i < j < |Distinct(s)| ==> Distinct(s)[i] != Distinct(s)[j]
  {
    if s != [] {
      DistinctMeans(s[..|s| - 1]);
      assert s == s[..|s| - 1] + [s[|s| - 1]];
    }
  }

  /** Removing repetitions keeps the order in which things were first said. */
  lemma {:induction false} DistinctPrefix(s: seq<string>, n: nat)
    requires n <= |s|
    ensures Distinct(s[..n]) <= Distinct(s)
  {
    if n < |s| {
      DistinctPrefix(s[..|s| - 1], n);
      assert s[..|s| - 1][..n] == s[..n];
    } else {
      assert s[..n] == s;
    }
  }

  lemma {:induction false} DistinctAppend(s: seq<string>, t: seq<string>, x: string)
    ensures Distinct(s + (t + [x])) == if x in Distinct(s + t) then Distinct(s + t) else Distinct(s + t) + [x]
  {
    assert (s + (t + [x]))[..|s| + |t|] == s + t;
  }

  method RunGuards(guards: seq<Guard>, ctx: Context) returns (verdict: Outcome, codes: seq<string>)
    ensures verdict == Verdict(guards, ctx)
    ensures codes == if verdict == Pass then ["OK"] else Distinct(Said(guards, ctx))
  {
    hide Answer, Distinct, Said;
    codes := [];
    var refused, held := false, false;
    StartSaid(ctx);
    assert guards[..0] == [];
    for i := 0 to |guards|
      invariant refused <==> exists j :: 0 <= j < i && Answer(guards[j], ctx).outcome == Refuse
      invariant held <==> exists j :: 0 <= j < i && Answer(guards[j], ctx).outcome == Hold
      invariant codes == Distinct(Said(guards[..i], ctx))
    {
      SaidStep(guards, i, ctx);
      var result := Consult(guards[i], ctx);
      if result.outcome == Refuse {
        refused := true;
      } else if result.outcome == Hold {
        held := true;
      }
      codes := Extend(Said(guards[..i], ctx), codes, result.codes);
    }
    assert guards[..|guards|] == guards;
    if refused { return Refuse, codes; }
    if held { return Hold, codes; }
    return Pass, [Engine.OK];
  }

  lemma StartSaid(ctx: Context)
    ensures Distinct(Said([], ctx)) == []
  {
  }

  lemma SaidStep(guards: seq<Guard>, i: nat, ctx: Context)
    requires i < |guards|
    ensures Said(guards[..i + 1], ctx) == Said(guards[..i], ctx) + Answer(guards[i], ctx).codes
  {
    assert guards[..i + 1][..i] == guards[..i];
  }

  /** One turn of the loop: a guard that is off or belongs to the other stage is skipped. */
  method Consult(g: Guard, ctx: Context) returns (result: GuardResult)
    ensures result == Answer(g, ctx)
  {
    if !g.enabled || !AtStage(g, ctx) { return PASS; }
    result := Check(g, ctx);
  }

  method Extend(ghost said: seq<string>, codes: seq<string>, more: seq<string>) returns (r: seq<string>)
    requires codes == Distinct(said)
    ensures r == Distinct(said + more)
  {
    hide Distinct;
    r := codes;
    assert said + more[..0] == said;
    for i := 0 to |more|
      invariant r == Distinct(said + more[..i])
    {
      assert more[..i + 1] == more[..i] + [more[i]];
      DistinctAppend(said, more[..i], more[i]);
      if more[i] !in r { r := r + [more[i]]; }
    }
    assert more[..|more|] == more;
  }
}
