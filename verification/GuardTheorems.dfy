/** What holds of every guard chain: order, monotonicity, the profiles, and the oracle quorum. */
module GuardTheorems {
  import Engine
  import Escrow
  import opened Guards
  import opened Ledger
  import opened LocalDb
  import opened Wrappers

  // ---- The verdict is a maximum ----

  lemma VerdictIsStrictest(guards: seq<Guard>, ctx: Context)
    ensures forall i :: 0 <= i < |guards| ==> Rank(Answer(guards[i], ctx).outcome) <= Rank(Verdict(guards, ctx))
    ensures Verdict(guards, ctx) == Pass || exists i :: 0 <= i < |guards| && Answer(guards[i], ctx).outcome == Verdict(guards, ctx)
  {
  }

  /** Every guard of `b` is answered for by one of `a` that is at least as strict. */
  ghost predicate AnswersFor(a: seq<Guard>, b: seq<Guard>, ctx: Context) {
    forall j :: 0 <= j < |b| ==> Answered(a, b[j], ctx)
  }

  ghost predicate Answered(a: seq<Guard>, g: Guard, ctx: Context) {
    exists i :: 0 <= i < |a| && Rank(Answer(g, ctx).outcome) <= Rank(Answer(a[i], ctx).outcome)
  }

  lemma AnsweredByItself(a: seq<Guard>, g: Guard, ctx: Context)
    requires g in a
    ensures Answered(a, g, ctx)
  {
    var i :| 0 <= i < |a| && a[i] == g;
    assert Rank(Answer(g, ctx).outcome) <= Rank(Answer(a[i], ctx).outcome);
  }

  lemma StricterChain(a: seq<Guard>, b: seq<Guard>, ctx: Context)
    requires AnswersFor(a, b, ctx)
    ensures Rank(Verdict(b, ctx)) <= Rank(Verdict(a, ctx))
  {
    hide Answer, Verdict;
    VerdictIsStrictest(a, ctx);
    VerdictIsStrictest(b, ctx);
  }

  lemma {:induction false} SaidIs(guards: seq<Guard>, ctx: Context, code: string)
    ensures code in Said(guards, ctx) <==> exists i :: 0 <= i < |guards| && code in Answer(guards[i], ctx).codes
  {
    hide Answer;
    if guards != [] {
      var n := |guards| - 1;
      SaidIs(guards[..n], ctx, code);
      if code in Said(guards[..n], ctx) {
        var i :| 0 <= i < n && code in Answer(guards[..n][i], ctx).codes;
        assert code in Answer(guards[i], ctx).codes;
      }
      forall i | 0 <= i < |guards| && code in Answer(guards[i], ctx).codes ensures code in Said(guards, ctx) {
        if i < n { assert guards[..n][i] == guards[i]; }
      }
    }
  }

  /** Listing the guards in another order changes neither the verdict nor which codes are reported. */
  lemma {:induction false} OrderIndependent(a: seq<Guard>, b: seq<Guard>, ctx: Context)
    requires forall g :: g in a <==> g in b
    ensures Verdict(a, ctx) == Verdict(b, ctx)
    ensures forall code :: code in Distinct(Said(a, ctx)) <==> code in Distinct(Said(b, ctx))
  {
    hide Answer, Verdict, Said, Distinct, Answered;
    forall j | 0 <= j < |b| ensures Answered(a, b[j], ctx) {
      AnsweredByItself(a, b[j], ctx);
    }
    forall j | 0 <= j < |a| ensures Answered(b, a[j], ctx) {
      AnsweredByItself(b, a[j], ctx);
    }
    StricterChain(a, b, ctx);
    StricterChain(b, a, ctx);
    SameRank(Verdict(a, ctx), Verdict(b, ctx));
    DistinctMeans(Said(a, ctx));
    DistinctMeans(Said(b, ctx));
    forall code ensures code in Said(a, ctx) <==> code in Said(b, ctx) {
      SaidIs(a, ctx, code);
      SaidIs(b, ctx, code);
      SameCodes(a, b, ctx, code);
    }
  }

  lemma SameRank(a: Outcome, b: Outcome)
    requires Rank(a) == Rank(b)
    ensures a == b
  {
  }

  lemma SameCodes(a: seq<Guard>, b: seq<Guard>, ctx: Context, code: string)
    requires forall g :: g in a <==> g in b
    ensures (exists i :: 0 <= i < |a| && code in Answer(a[i], ctx).codes)
       <==> (exists i :: 0 <= i < |b| && code in Answer(b[i], ctx).codes)
  {
    hide Answer;
    if i :| 0 <= i < |a| && code in Answer(a[i], ctx).codes {
      assert a[i] in b;
    }
    if i :| 0 <= i < |b| && code in Answer(b[i], ctx).codes {
      assert b[i] in a;
    }
  }

  // ---- Configurations ----

  datatype Config = Config(
    injectionScan: bool,
    policyEngine: bool,
    policySigner: bool,
    requireAttestation: bool,
    kOfN: int,
    cosignThreshold: int,
    proofOfCompute: bool)

  const STRICT := Config(true, true, true, true, 3, 1_000_000_000, true)
  const BALANCED := Config(true, true, true, true, 1, 0, false)
  const FAST := Config(true, true, false, false, 1, 0, false)

  function BuildGuards(config: Config): seq<Guard> {
    [Guard(config.injectionScan, InjectionGuard),
     Guard(config.policyEngine, PolicyEngineGuard),
     Guard(config.policySigner, PolicySignerGuard),
     Guard(config.requireAttestation, AttestationGuard),
     Guard(config.kOfN > 1, KofNOracleGuard(config.kOfN)),
     Guard(config.cosignThreshold > 0, HumanCosignGuard(config.cosignThreshold)),
     Guard(config.proofOfCompute, ProofOfComputeGuard)]
  }

  /** Whatever `b` checks, `a` checks at least as tightly. */
  predicate Stricter(a: Config, b: Config) {
    && (b.injectionScan ==> a.injectionScan) && (b.policyEngine ==> a.policyEngine)
    && (b.policySigner ==> a.policySigner) && (b.requireAttestation ==> a.requireAttestation)
    && (b.kOfN > 1 ==> a.kOfN >= b.kOfN)
    && (b.cosignThreshold > 0 ==> 0 < a.cosignThreshold <= b.cosignThreshold)
    && (b.proofOfCompute ==> a.proofOfCompute)
  }

  lemma GuardByGuard(a: Config, b: Config, ctx: Context, i: nat)
    requires Stricter(a, b) && i < 7
    ensures Rank(Answer(BuildGuards(b)[i], ctx).outcome) <= Rank(Answer(BuildGuards(a)[i], ctx).outcome)
  {
    hide Engaged, ShippedOracles, SignerCodes, CrossCheck;
  }

  /** A tighter configuration never gives a milder verdict, on a proposal or on a release, with more guards after it or not. */
  lemma StricterNeverWeakens(a: Config, b: Config, more: seq<Guard>, ctx: Context)
    requires Stricter(a, b)
    ensures Rank(Verdict(BuildGuards(b) + more, ctx)) <= Rank(Verdict(BuildGuards(a) + more, ctx))
  {
    hide Answer, Verdict, Rank;
    var ga, gb := BuildGuards(a) + more, BuildGuards(b) + more;
    forall j | 0 <= j < |gb| ensures Answered(ga, gb[j], ctx) {
      if j < 7 { GuardByGuard(a, b, ctx, j); }
      assert Rank(Answer(gb[j], ctx).outcome) <= Rank(Answer(ga[j], ctx).outcome);
    }
    StricterChain(ga, gb, ctx);
  }

  /** What passes under strict passes under balanced, and what passes under balanced passes under fast. */
  lemma ProfilesAreOrdered(more: seq<Guard>, ctx: Context)
    ensures Verdict(BuildGuards(STRICT) + more, ctx) == Pass ==> Verdict(BuildGuards(BALANCED) + more, ctx) == Pass
    ensures Verdict(BuildGuards(BALANCED) + more, ctx) == Pass ==> Verdict(BuildGuards(FAST) + more, ctx) == Pass
  {
    hide Verdict, BuildGuards;
    StricterNeverWeakens(STRICT, BALANCED, more, ctx);
    StricterNeverWeakens(BALANCED, FAST, more, ctx);
  }

  /** Switching one guard on never gives a milder verdict. */
  lemma EnablingNeverWeakens(guards: seq<Guard>, i: nat, ctx: Context)
    requires i < |guards|
    ensures Rank(Verdict(guards, ctx)) <= Rank(Verdict(guards[i := guards[i].(enabled := true)], ctx))
  {
    hide Verdict, Check, AtStage;
    var on := guards[i := guards[i].(enabled := true)];
    forall j | 0 <= j < |guards| ensures Answered(on, guards[j], ctx) {
      assert Rank(Answer(guards[j], ctx).outcome) <= Rank(Answer(on[j], ctx).outcome);
    }
    StricterChain(on, guards, ctx);
  }

  // ---- Releases ----

  ghost predicate MatchingVote(v: OracleVote, row: RowId, requestHash: string) {
    v.row == row && v.kind == Escrow.Shipped && v.requestHash == requestHash
  }

  /** `oracles` are among those who voted Shipped on this very intent. */
  ghost predicate Vouch(oracles: set<Address>, row: RowId, requestHash: string, votes: seq<OracleVote>) {
    forall o :: o in oracles ==> exists i :: 0 <= i < |votes| && MatchingVote(votes[i], row, requestHash) && votes[i].oracle == o
  }

  lemma {:induction false} SubsetIsSmaller<T>(a: set<T>, b: set<T>)
    requires a <= b
    ensures |a| <= |b|
    decreases |a|
  {
    if x :| x in a { SubsetIsSmaller(a - {x}, b - {x}); }
  }

  lemma ShippedVouch(row: RowId, requestHash: string, votes: seq<OracleVote>)
    ensures Vouch(ShippedOracles(row, requestHash, votes), row, requestHash, votes)
    ensures forall s :: Vouch(s, row, requestHash, votes) ==> s <= ShippedOracles(row, requestHash, votes)
  {
  }

  /**
  A release passes exactly when what is configured is there: an attestation if
  one is required, and, above one of n, k different oracles who vouch.
  */
  lemma ReleasePassesExactly(config: Config, row: RowId, requestHash: string, votes: seq<OracleVote>)
    ensures Verdict(BuildGuards(config), Releasing(row, requestHash, votes)) == Pass <==>
      && (config.requireAttestation ==> exists i :: 0 <= i < |votes| && MatchingVote(votes[i], row, requestHash))
      && (config.kOfN > 1 ==> exists s: set<Address> :: |s| >= config.kOfN && Vouch(s, row, requestHash, votes))
  {
    hide Verdict, BuildGuards, ShippedOracles;
    ReleaseVerdict(config, row, requestHash, votes);
    ShippedExists(config, row, requestHash, votes);
  }

  lemma ReleaseVerdict(config: Config, row: RowId, requestHash: string, votes: seq<OracleVote>)
    ensures var shipped := ShippedOracles(row, requestHash, votes);
            Verdict(BuildGuards(config), Releasing(row, requestHash, votes)) == Pass <==>
              (config.requireAttestation ==> shipped != {}) && (config.kOfN > 1 ==> |shipped| >= config.kOfN)
  {
    hide ShippedOracles;
    var ctx := Releasing(row, requestHash, votes);
    var guards := BuildGuards(config);
    assert forall i :: 0 <= i < 7 && i != 3 && i != 4 ==> Answer(guards[i], ctx) == PASS;
    assert Answer(guards[3], ctx).outcome != Hold && Answer(guards[4], ctx).outcome != Hold;
    if Verdict(guards, ctx) == Pass {
      assert Answer(guards[3], ctx).outcome == Pass && Answer(guards[4], ctx).outcome == Pass;
    }
  }

  /** The codes of a refused release: each exactly when its own condition is unmet, and no others. */
  lemma {:induction false} ReleaseCodesExactly(config: Config, row: RowId, requestHash: string, votes: seq<OracleVote>)
    ensures var said := Said(BuildGuards(config), Releasing(row, requestHash, votes));
            && ("ATTESTATION_MISSING" in said <==>
                  config.requireAttestation && !exists i :: 0 <= i < |votes| && MatchingVote(votes[i], row, requestHash))
            && ("KOFN_UNMET" in said <==>
                  config.kOfN > 1 && !exists s: set<Address> :: |s| >= config.kOfN && Vouch(s, row, requestHash, votes))
            && (forall code :: code in said ==> code == "ATTESTATION_MISSING" || code == "KOFN_UNMET")
  {
    hide Said, Answer, BuildGuards, ShippedOracles;
    var ctx, guards := Releasing(row, requestHash, votes), BuildGuards(config);
    var shipped := ShippedOracles(row, requestHash, votes);
    ShippedVouch(row, requestHash, votes);
    ShippedExists(config, row, requestHash, votes);
    ReleaseAnswers(config, row, requestHash, votes);
    forall code
      ensures code in Said(guards, ctx) <==>
        (code == "ATTESTATION_MISSING" && config.requireAttestation && shipped == {})
        || (code == "KOFN_UNMET" && config.kOfN > 1 && |shipped| < config.kOfN)
    {
      SaidIs(guards, ctx, code);
    }
    assert |"KOFN_UNMET"| != |"ATTESTATION_MISSING"|;
  }

  /** Who has vouched, with and without naming the set. */
  lemma ShippedExists(config: Config, row: RowId, requestHash: string, votes: seq<OracleVote>)
    ensures var shipped := ShippedOracles(row, requestHash, votes);
            && (shipped != {} <==> exists i :: 0 <= i < |votes| && MatchingVote(votes[i], row, requestHash))
            && (|shipped| >= config.kOfN <==> exists s: set<Address> :: |s| >= config.kOfN && Vouch(s, row, requestHash, votes))
  {
    var shipped := ShippedOracles(row, requestHash, votes);
    ShippedVouch(row, requestHash, votes);
    if i :| 0 <= i < |votes| && MatchingVote(votes[i], row, requestHash) {
      assert votes[i].oracle in shipped;
    }
    if o :| o in shipped {}
    if s: set<Address> :| |s| >= config.kOfN && Vouch(s, row, requestHash, votes) {
      SubsetIsSmaller(s, shipped);
    }
  }

  /** At the release stage two guards have something to say. */
  lemma ReleaseAnswers(config: Config, row: RowId, requestHash: string, votes: seq<OracleVote>)
    ensures var ctx, guards := Releasing(row, requestHash, votes), BuildGuards(config);
            var shipped := ShippedOracles(row, requestHash, votes);
            && |guards| == 7
            && (forall i :: 0 <= i < 7 && i != 3 && i != 4 ==> Answer(guards[i], ctx).codes == [])
            && Answer(guards[3], ctx).codes == (if config.requireAttestation && shipped == {} then ["ATTESTATION_MISSING"] else [])
            && Answer(guards[4], ctx).codes == (if config.kOfN > 1 && |shipped| < config.kOfN then ["KOFN_UNMET"] else [])
  {
    hide ShippedOracles;
  }

  /** What the three shipped profiles ask of a release: three vouching oracles, one vote, nothing. */
  lemma ProfilesAtRelease(row: RowId, requestHash: string, votes: seq<OracleVote>)
    ensures var ctx := Releasing(row, requestHash, votes);
            && (Verdict(BuildGuards(STRICT), ctx) == Pass <==>
                  exists s: set<Address> :: |s| >= 3 && Vouch(s, row, requestHash, votes))
            && (Verdict(BuildGuards(BALANCED), ctx) == Pass <==>
                  exists i :: 0 <= i < |votes| && MatchingVote(votes[i], row, requestHash))
            && Verdict(BuildGuards(FAST), ctx) == Pass
  {
    hide Verdict, BuildGuards, ShippedOracles;
    ReleaseVerdict(STRICT, row, requestHash, votes);
    ReleaseVerdict(BALANCED, row, requestHash, votes);
    ReleaseVerdict(FAST, row, requestHash, votes);
    ShippedExists(STRICT, row, requestHash, votes);
  }

  /** More attestations never undo a passed release check. */
  lemma VotesOnlyHelp(config: Config, row: RowId, requestHash: string, votes: seq<OracleVote>, more: seq<OracleVote>)
    requires Verdict(BuildGuards(config), Releasing(row, requestHash, votes)) == Pass
    ensures Verdict(BuildGuards(config), Releasing(row, requestHash, votes + more)) == Pass
  {
    hide Verdict, BuildGuards;
    ReleaseVerdict(config, row, requestHash, votes);
    ReleaseVerdict(config, row, requestHash, votes + more);
    SubsetIsSmaller(ShippedOracles(row, requestHash, votes), ShippedOracles(row, requestHash, votes + more));
  }

  // ---- Proposals ----

  /** What the engine allows, the signer's mirror allows, for a supplier taken from the registry. */
  lemma EnginePassImpliesSignerPass(req: Engine.Request, policy: Engine.Policy, supplierAddresses: set<Address>)
    requires req.registryAddress.Some? ==> req.registryAddress.value in supplierAddresses
    requires Engine.Broken(req, policy) == []
    ensures SignerCodes(req, policy.capPerTx, supplierAddresses) == []
  {
    Engine.AllowedExactly(req, policy);
  }
}
