/** The policy engine: a request is allowed when it breaks none of the seven rules. */
module Engine {
  import opened Wrappers
  import opened Ledger
  import opened LocalDb

  const OK := "OK"
  const INJECTION_SUSPECTED := "INJECTION_SUSPECTED"
  const INVALID_AMOUNT := "INVALID_AMOUNT"
  const UNKNOWN_SUPPLIER := "UNKNOWN_SUPPLIER"
  const ADDRESS_MISMATCH := "ADDRESS_MISMATCH"
  const DUPLICATE_REQUEST := "DUPLICATE_REQUEST"
  const OVER_TX_CAP := "OVER_TX_CAP"
  const OVER_DAILY_CAP := "OVER_DAILY_CAP"

  datatype Request = Request(
    registryAddress: Option<Address>,
    invoiceAddress: Option<Address>,
    amount: Option<int>,
    requestHash: string,
    flags: seq<string>)

  datatype Prior = Prior(amount: int, status: Status)

  datatype Policy = Policy(capPerTx: int, capDaily: int, priors: seq<Prior>, knownHashes: set<string>)

  datatype Evaluation = Evaluation(allowed: bool, codes: seq<string>)

  /** Money is committed while it is proposed, escrowed or paid; held and reverted intents do not count. */
  predicate Counted(status: Status) {
    status in {Proposed, Escrowed, Released}
  }

  function Committed(priors: seq<Prior>): int {
    if priors == [] then 0
    else
      var last := priors[|priors| - 1];
      Committed(priors[..|priors| - 1]) + if Counted(last.status) then last.amount else 0
  }

  predicate Payable(req: Request) {
    req.amount.Some? && req.amount.value > 0
  }

  predicate Mismatched(req: Request) {
    req.invoiceAddress.Some? && req.registryAddress.Some? && req.invoiceAddress != req.registryAddress
  }

  /** The rules in the order they are reported. */
  datatype Rule = Injection | Amount | Supplier | Binding | Duplicate | TxCap | DailyCap

  const RULES: seq<Rule> := [Injection, Amount, Supplier, Binding, Duplicate, TxCap, DailyCap]

  function Code(rule: Rule): string {
    match rule
    case Injection => INJECTION_SUSPECTED
    case Amount => INVALID_AMOUNT
    case Supplier => UNKNOWN_SUPPLIER
    case Binding => ADDRESS_MISMATCH
    case Duplicate => DUPLICATE_REQUEST
    case TxCap => OVER_TX_CAP
    case DailyCap => OVER_DAILY_CAP
  }

  predicate Breaks(rule: Rule, req: Request, policy: Policy) {
    match rule
    case Injection => req.flags != []
    case Amount => !Payable(req)
    case Supplier => req.registryAddress == None
    case Binding => Mismatched(req)
    case Duplicate => req.requestHash in policy.knownHashes
    case TxCap => Payable(req) && req.amount.value > policy.capPerTx
    case DailyCap => Payable(req) && Committed(policy.priors) + req.amount.value > policy.capDaily
  }

  /** The codes of the broken rules, in rule order. */
  function BrokenAmong(rules: seq<Rule>, req: Request, policy: Policy): seq<string> {
    if rules == [] then []
    else
      var last := rules[|rules| - 1];
      BrokenAmong(rules[..|rules| - 1], req, policy) + if Breaks(last, req, policy) then [Code(last)] else []
  }

  function Broken(req: Request, policy: Policy): seq<string> {
    BrokenAmong(RULES, req, policy)
  }

  lemma {:induction false} BrokenOnlyIfBroken(rules: seq<Rule>, req: Request, policy: Policy)
    ensures BrokenAmong(rules, req, policy) == [] <==> (forall i :: 0 <= i < |rules| ==> !Breaks(rules[i], req, policy))
  {
    if rules != [] { BrokenOnlyIfBroken(rules[..|rules| - 1], req, policy); }
  }

  /** Nothing is reported exactly when every rule is kept. */
  lemma AllowedExactly(req: Request, policy: Policy)
    ensures Broken(req, policy) == [] <==>
      && req.flags == [] && Payable(req) && req.registryAddress.Some? && !Mismatched(req)
      && req.requestHash !in policy.knownHashes
      && req.amount.value <= policy.capPerTx
      && Committed(policy.priors) + req.amount.value <= policy.capDaily
  {
    BrokenOnlyIfBroken(RULES, req, policy);
    if Broken(req, policy) == [] {
      forall i | 0 <= i < |RULES| ensures !Breaks(RULES[i], req, policy) {}
      assert !Breaks(RULES[0], req, policy) && !Breaks(RULES[1], req, policy) && !Breaks(RULES[2], req, policy);
      assert !Breaks(RULES[3], req, policy) && !Breaks(RULES[4], req, policy);
      assert !Breaks(RULES[5], req, policy) && !Breaks(RULES[6], req, policy);
    }
  }

  /** Each rule has a code of its own. */
  lemma CodesDiffer(a: Rule, b: Rule)
    requires Code(a) == Code(b)
    ensures a == b
  {
    assert INJECTION_SUSPECTED[1] == 'N' && INVALID_AMOUNT[2] == 'V' && UNKNOWN_SUPPLIER[0] == 'U' && ADDRESS_MISMATCH[0] == 'A';
    assert DUPLICATE_REQUEST[0] == 'D' && OVER_TX_CAP[5] == 'T' && OVER_DAILY_CAP[5] == 'D';
  }

  lemma {:induction false} ReportedAmong(rules: seq<Rule>, rule: Rule, req: Request, policy: Policy)
    ensures Code(rule) in BrokenAmong(rules, req, policy) <==> rule in rules && Breaks(rule, req, policy)
  {
    hide Code, Breaks;
    if rules != [] {
      var front, last := rules[..|rules| - 1], rules[|rules| - 1];
      ReportedAmong(front, rule, req, policy);
      assert rules == front + [last];
      if Code(rule) == Code(last) { CodesDiffer(rule, last); }
    }
  }

  /** A rule's code is reported exactly when the rule is broken. */
  lemma ReportedExactly(rule: Rule, req: Request, policy: Policy)
    ensures Code(rule) in Broken(req, policy) <==> Breaks(rule, req, policy)
  {
    hide BrokenAmong, Breaks, Code;
    assert rule in RULES by { RuleListed(rule); }
    ReportedAmong(RULES, rule, req, policy);
  }

  lemma RuleListed(rule: Rule)
    ensures rule in RULES
  {
    assert RULES[0] == Injection && RULES[1] == Amount && RULES[2] == Supplier && RULES[3] == Binding;
    assert RULES[4] == Duplicate && RULES[5] == TxCap && RULES[6] == DailyCap;
  }

  /** The committed total counts proposed, escrowed and released priors at their amounts, and nothing else. */
  lemma CommittedExactly(priors: seq<Prior>, p: Prior)
    ensures Committed([]) == 0
    ensures Committed(priors + [p]) == Committed(priors) +
      match p.status
      case Proposed => p.amount
      case Escrowed => p.amount
      case Released => p.amount
      case Held => 0
      case Reverted => 0
  {
    assert (priors + [p])[..|priors|] == priors;
  }

  /** Each code as it is written, and when it is reported. */
  lemma CodesExactly(req: Request, policy: Policy)
    ensures var codes := Broken(req, policy);
            && ("INJECTION_SUSPECTED" in codes <==> req.flags != [])
            && ("INVALID_AMOUNT" in codes <==> req.amount == None || req.amount.value <= 0)
            && ("UNKNOWN_SUPPLIER" in codes <==> req.registryAddress == None)
            && ("ADDRESS_MISMATCH" in codes <==>
                  req.invoiceAddress.Some? && req.registryAddress.Some? && req.invoiceAddress.value != req.registryAddress.value)
            && ("DUPLICATE_REQUEST" in codes <==> req.requestHash in policy.knownHashes)
            && ("OVER_TX_CAP" in codes <==> req.amount.Some? && req.amount.value > 0 && req.amount.value > policy.capPerTx)
            && ("OVER_DAILY_CAP" in codes <==>
                  req.amount.Some? && req.amount.value > 0 && Committed(policy.priors) + req.amount.value > policy.capDaily)
  {
    hide Broken, Committed;
    ReportedExactly(Injection, req, policy);
    ReportedExactly(Amount, req, policy);
    ReportedExactly(Supplier, req, policy);
    ReportedExactly(Binding, req, policy);
    ReportedExactly(Duplicate, req, policy);
    ReportedExactly(TxCap, req, policy);
    ReportedExactly(DailyCap, req, policy);
  }

  /** The rules report no code of any other kind. */
  lemma {:induction false} OnlyRuleCodes(rules: seq<Rule>, req: Request, policy: Policy, code: string)
    requires code in BrokenAmong(rules, req, policy)
    ensures exists rule :: code == Code(rule)
  {
    hide Code, Breaks;
    var front, last := rules[..|rules| - 1], rules[|rules| - 1];
    if code in BrokenAmong(front, req, policy) {
      OnlyRuleCodes(front, req, policy, code);
    } else {
      assert code == Code(last);
    }
  }

  /** What has been reported once the first `n` rules are checked. */
  function ReportedAfter(n: nat, req: Request, policy: Policy): seq<string>
    requires n <= |RULES|
  {
    BrokenAmong(RULES[..n], req, policy)
  }

  lemma NextRule(n: nat, rule: Rule, req: Request, policy: Policy)
    requires n < |RULES| && RULES[n] == rule
    ensures ReportedAfter(n + 1, req, policy) ==
      ReportedAfter(n, req, policy) + if Breaks(rule, req, policy) then [Code(rule)] else []
  {
    assert RULES[..n + 1][..n] == RULES[..n];
  }

  lemma ReportedEnds(req: Request, policy: Policy)
    ensures ReportedAfter(0, req, policy) == [] && ReportedAfter(7, req, policy) == Broken(req, policy)
  {
    assert RULES[..7] == RULES;
  }

  /** The committed total, added up as the engine does. */
  method SumCommitted(priors: seq<Prior>) returns (total: int)
    ensures total == Committed(priors)
  {
    total := 0;
    for i := 0 to |priors|
      invariant total == Committed(priors[..i])
    {
      assert priors[..i + 1][..i] == priors[..i];
      if Counted(priors[i].status) { total := total + priors[i].amount; }
    }
    assert priors[..|priors|] == priors;
  }

  /** Rule by rule, appending the code of each broken one. */
  method Evaluate(req: Request, policy: Policy) returns (evaluation: Evaluation)
    ensures evaluation.allowed <==> Broken(req, policy) == []
    ensures evaluation.codes == if evaluation.allowed then ["OK"] else Broken(req, policy)
  {
    hide ReportedAfter, Broken, Committed;
    var codes: seq<string> := [];
    ReportedEnds(req, policy);
    NextRule(0, Injection, req, policy);
    if req.flags != [] { codes := codes + [INJECTION_SUSPECTED]; }
    assert codes == ReportedAfter(1, req, policy);
    NextRule(1, Amount, req, policy);
    if req.amount == None || req.amount.value <= 0 { codes := codes + [INVALID_AMOUNT]; }
    assert codes == ReportedAfter(2, req, policy);
    NextRule(2, Supplier, req, policy);
    if req.registryAddress == None { codes := codes + [UNKNOWN_SUPPLIER]; }
    assert codes == ReportedAfter(3, req, policy);
    NextRule(3, Binding, req, policy);
    if req.invoiceAddress.Some? && req.registryAddress.Some? && req.invoiceAddress.value != req.registryAddress.value {
      codes := codes + [ADDRESS_MISMATCH];
    }
    assert codes == ReportedAfter(4, req, policy);
    NextRule(4, Duplicate, req, policy);
    if req.requestHash in policy.knownHashes { codes := codes + [DUPLICATE_REQUEST]; }
    assert codes == ReportedAfter(5, req, policy);
    NextRule(5, TxCap, req, policy);
    NextRule(6, DailyCap, req, policy);
    if req.amount.Some? && req.amount.value > 0 {
      if req.amount.value > policy.capPerTx { codes := codes + [OVER_TX_CAP]; }
      var committed := SumCommitted(policy.priors);
      if committed + req.amount.value > policy.capDaily { codes := codes + [OVER_DAILY_CAP]; }
    }
    if codes != [] {
      return Evaluation(false, codes);
    }
    return Evaluation(true, [OK]);
  }
}
