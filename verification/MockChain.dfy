/**
The in-memory chain adapter, and the proof that it behaves like
the contract: call for call on the inputs the agent uses, with the exact
condition under which its funding leg departs from the contract's.
*/
module MockChain {
  import opened Wrappers
  import opened Ledger
  import Escrow
  import EscrowRuns

  const ESCROW_VAULT: Address := "MOCK-ESCROW-VAULT"

  type Intent = Escrow.Intent

  /** The adapter's error messages, and the KeyError of debiting an absent entry. */
  datatype MockError =
    | InsufficientBalance
    | MissingEntry
    | NoSuchIntent
    | NotFunded
    | NotShipped
    | ShippedBeatsDeadline
    | DeadlineNotReached
    | Unsupported

  datatype MockState = MockState(now: nat, intents: map<nat, Intent>, balances: Balances, txCount: nat)

  function TryMove(b: Balances, t: Token, src: Address, dst: Address, amount: int): Result<Balances, MockError> {
    if Balance(b, t, src) < amount then Err(InsufficientBalance)
    else if (t, src) !in b then Err(MissingEntry)
    else Ok(Move(b, t, src, dst, amount))
  }

  function TryCreate(
    m: MockState, sme: Address, supplier: Address, token: Token, amount: int, requestHash: string, deadline: nat)
    : Result<MockState, MockError>
  {
    match TryMove(m.balances, token, sme, ESCROW_VAULT, amount)
    case Err(e) => Err(e)
    case Ok(b) =>
      var id := |m.intents| + 1;
      var intent := Escrow.Intent(sme, supplier, token, amount, requestHash, deadline, Escrow.Funded, None);
      Ok(m.(intents := m.intents[id := intent], balances := b, txCount := m.txCount + 1))
  }

  /** The guard every later call starts with. */
  function FundedError(m: MockState, id: nat): Option<MockError> {
    if id !in m.intents then Some(NoSuchIntent)
    else if m.intents[id].status != Escrow.Funded then Some(NotFunded)
    else None
  }

  /** The first attestation wins; a later one is accepted and ignored. */
  function TryAttest(m: MockState, id: nat, kind: Escrow.AttestKind): Result<MockState, MockError> {
    if FundedError(m, id).Some? then Err(FundedError(m, id).value)
    else
      var x := m.intents[id];
      var x' := if x.attestation == None then x.(attestation := Some(kind)) else x;
      Ok(m.(intents := m.intents[id := x'], txCount := m.txCount + 1))
  }

  function TryPay(m: MockState, id: nat, to: Address, status: Escrow.Status): Result<MockState, MockError>
    requires id in m.intents
  {
    var x := m.intents[id];
    match TryMove(m.balances, x.token, ESCROW_VAULT, to, x.amount)
    case Err(e) => Err(e)
    case Ok(b) => Ok(m.(intents := m.intents[id := x.(status := status)], balances := b, txCount := m.txCount + 1))
  }

  function TryRelease(m: MockState, id: nat): Result<MockState, MockError> {
    if FundedError(m, id).Some? then Err(FundedError(m, id).value)
    else if m.intents[id].attestation != Some(Escrow.Shipped) then Err(NotShipped)
    else TryPay(m, id, m.intents[id].supplier, Escrow.Released)
  }

  function TryRefund(m: MockState, id: nat): Result<MockState, MockError> {
    if FundedError(m, id).Some? then Err(FundedError(m, id).value)
    else
      var x := m.intents[id];
      if x.attestation == Some(Escrow.Shipped) then Err(ShippedBeatsDeadline)
      else if x.attestation != Some(Escrow.Failed) && m.now < x.deadline then Err(DeadlineNotReached)
      else TryPay(m, id, x.sme, Escrow.Refunded)
  }

  /** The adapter has no registry and checks no signatures. */
  function Try(m: MockState, call: Escrow.Call): Result<MockState, MockError> {
    match call
    case CreateIntent(sme, supplier, token, amount, requestHash, deadline) =>
      TryCreate(m, sme, supplier, token, amount, requestHash, deadline)
    case Attest(id, _, kind) => TryAttest(m, id, kind)
    case Release(id) => TryRelease(m, id)
    case Refund(id) => TryRefund(m, id)
    case Mint(token, to, amount) => Ok(m.(balances := Credit(m.balances, token, to, amount)))
    case Tick(seconds) => Ok(m.(now := m.now + seconds))
    case _ => Err(Unsupported)
  }

  function Apply(m: MockState, call: Escrow.Call): MockState {
    match Try(m, call)
    case Ok(m') => m'
    case Err(_) => m
  }

  function Run(m: MockState, invs: seq<Escrow.Invocation>): MockState {
    if invs == [] then m else Apply(Run(m, invs[..|invs| - 1]), invs[|invs| - 1].call)
  }

  // ---- The adapter's answers, one by one ----

  /** `amount` of one token went from one address to another and no other balance differs. */
  ghost predicate Shifted(b: Balances, b': Balances, t: Token, src: Address, dst: Address, amount: int) {
    forall t', a :: Balance(b', t', a) == Balance(b, t', a)
      - (if t' == t && a == src then amount else 0) + (if t' == t && a == dst then amount else 0)
  }

  lemma MovesExactly(b: Balances, t: Token, src: Address, dst: Address, amount: int)
    ensures var r := TryMove(b, t, src, dst, amount);
            && (r == Err(InsufficientBalance) <==> Balance(b, t, src) < amount)
            && (r == Err(MissingEntry) <==> amount <= Balance(b, t, src) && (t, src) !in b)
            && (r.Err? ==> r.error == InsufficientBalance || r.error == MissingEntry)
            && (r.Ok? ==> Shifted(b, r.value, t, src, dst, amount))
  {
    MoveEffect(b, t, src, dst, amount, Direct);
  }

  /** Funding: refused for want of balance, or one new Funded, unattested intent of these terms under the next id. */
  lemma CreateExactly(m: MockState, sme: Address, supplier: Address, token: Token, amount: int, hash: string, deadline: nat)
    ensures var r := Try(m, Escrow.CreateIntent(sme, supplier, token, amount, hash, deadline));
            && (r.Ok? <==> amount <= Balance(m.balances, token, sme) && (token, sme) in m.balances)
            && (r.Err? ==> r.error == if Balance(m.balances, token, sme) < amount then InsufficientBalance else MissingEntry)
            && (r.Ok? ==>
              && r.value.intents
                 == m.intents[|m.intents| + 1 :=
                      Escrow.Intent(sme, supplier, token, amount, hash, deadline, Escrow.Funded, None)]
              && Shifted(m.balances, r.value.balances, token, sme, "MOCK-ESCROW-VAULT", amount)
              && r.value.now == m.now && r.value.txCount == m.txCount + 1)
  {
    MovesExactly(m.balances, token, sme, ESCROW_VAULT, amount);
  }

  /** Attesting: no matter by whom, the first kind stays. */
  lemma AttestExactly(m: MockState, id: nat, oracle: Address, kind: Escrow.AttestKind)
    ensures var r := Try(m, Escrow.Attest(id, oracle, kind));
            && (r == Err(NoSuchIntent) <==> id !in m.intents)
            && (r == Err(NotFunded) <==> id in m.intents && m.intents[id].status != Escrow.Funded)
            && (r.Ok? <==> id in m.intents && m.intents[id].status == Escrow.Funded)
            && (r.Ok? ==>
              && r.value.intents.Keys == m.intents.Keys
              && (forall i :: i in m.intents && i != id ==> r.value.intents[i] == m.intents[i])
              && r.value.intents[id]
                 == m.intents[id].(attestation :=
                      if m.intents[id].attestation.Some? then m.intents[id].attestation else Some(kind))
              && r.value.balances == m.balances && r.value.now == m.now && r.value.txCount == m.txCount + 1)
  {
  }

  /** Paying out one intent: it closes under `status`, the vault pays, and nothing else moves. */
  ghost predicate PaidOut(m: MockState, m': MockState, id: nat, to: Address, status: Escrow.Status)
    requires id in m.intents
  {
    && m'.intents == m.intents[id := m.intents[id].(status := status)]
    && Shifted(m.balances, m'.balances, m.intents[id].token, "MOCK-ESCROW-VAULT", to, m.intents[id].amount)
    && m'.now == m.now && m'.txCount == m.txCount + 1
  }

  lemma ReleaseExactly(m: MockState, id: nat)
    ensures var r := Try(m, Escrow.Release(id));
            && (r == Err(NoSuchIntent) <==> id !in m.intents)
            && (r == Err(NotFunded) <==> id in m.intents && m.intents[id].status != Escrow.Funded)
            && (r == Err(NotShipped)
                <==> id in m.intents && m.intents[id].status == Escrow.Funded
                     && m.intents[id].attestation != Some(Escrow.Shipped))
            && (r.Ok? ==> PaidOut(m, r.value, id, m.intents[id].supplier, Escrow.Released))
            && (r.Err? ==> r.error in {NoSuchIntent, NotFunded, NotShipped, InsufficientBalance, MissingEntry})
            && (r == Err(InsufficientBalance) || r == Err(MissingEntry) ==>
              var x := m.intents[id];
              || Balance(m.balances, x.token, "MOCK-ESCROW-VAULT") < x.amount
              || (x.token, "MOCK-ESCROW-VAULT") !in m.balances)
  {
    if id in m.intents {
      MovesExactly(m.balances, m.intents[id].token, ESCROW_VAULT, m.intents[id].supplier, m.intents[id].amount);
    }
  }

  /** A Shipped attestation outlasts the deadline, and a Failed one does not wait for it. */
  lemma RefundExactly(m: MockState, id: nat)
    ensures var r := Try(m, Escrow.Refund(id));
            && (r == Err(NoSuchIntent) <==> id !in m.intents)
            && (r == Err(NotFunded) <==> id in m.intents && m.intents[id].status != Escrow.Funded)
            && (r == Err(ShippedBeatsDeadline)
                <==> id in m.intents && m.intents[id].status == Escrow.Funded
                     && m.intents[id].attestation == Some(Escrow.Shipped))
            && (r == Err(DeadlineNotReached)
                <==> id in m.intents && m.intents[id].status == Escrow.Funded
                     && m.intents[id].attestation == None && m.now < m.intents[id].deadline)
            && (r.Ok? ==> PaidOut(m, r.value, id, m.intents[id].sme, Escrow.Refunded))
            && (r.Err? ==> r.error in {NoSuchIntent, NotFunded, ShippedBeatsDeadline, DeadlineNotReached,
                                       InsufficientBalance, MissingEntry})
            && (r == Err(InsufficientBalance) || r == Err(MissingEntry) ==>
              var x := m.intents[id];
              || Balance(m.balances, x.token, "MOCK-ESCROW-VAULT") < x.amount
              || (x.token, "MOCK-ESCROW-VAULT") !in m.balances)
  {
    if id in m.intents {
      match m.intents[id].attestation {
        case None =>
        case Some(kind) => match kind { case Shipped => case Failed => }
      }
      MovesExactly(m.balances, m.intents[id].token, ESCROW_VAULT, m.intents[id].sme, m.intents[id].amount);
    }
  }

  // ---- Simulation ----

  ghost predicate SameBalances(b: Balances, c: Balances) {
    forall t, a :: Balance(b, t, a) == Balance(c, t, a)
  }

  /** Same clock, same ids, same table, same money; the maps may differ in entries that read as zero. */
  ghost predicate Sim(m: MockState, s: Escrow.State) {
    && s.vault == ESCROW_VAULT
    && m.now == s.now
    && m.intents == s.intents
    && |m.intents| == s.counter
    && SameBalances(m.balances, s.balances)
    && (forall i :: i in m.intents ==> 0 < m.intents[i].amount)
  }

  /** What the agent does on chain: positive amounts, its own signatures, registered oracles. */
  predicate Proper(s: Escrow.State, inv: Escrow.Invocation) {
    && ESCROW_VAULT !in inv.auth
    && match inv.call
       case CreateIntent(sme, _, _, amount, _, _) => sme in inv.auth && 0 < amount && s.counter < Escrow.U64_MAX
       case Attest(_, oracle, _) => oracle in inv.auth && oracle in s.oracles
       case Release(_) => true
       case Refund(_) => true
       case Mint(_, _, amount) => 0 <= amount
       case Tick(_) => true
       case _ => false
  }

  lemma SameMove(b: Balances, c: Balances, t: Token, src: Address, dst: Address, amount: int)
    requires SameBalances(b, c) && 0 < amount
    ensures TryMove(b, t, src, dst, amount).Ok? <==> CanMove(c, t, src, amount)
    ensures SameBalances(Move(b, t, src, dst, amount), Move(c, t, src, dst, amount))
  {
    MoveEffect(b, t, src, dst, amount, Direct);
    MoveEffect(c, t, src, dst, amount, Direct);
  }

  /**
  A successful mock call is the matching contract call, or a repeated attest,
  which the contract refuses and the mock ignores.  A mock failure is always a
  contract failure.
  */
  ghost predicate InStep(m: MockState, s: Escrow.State, inv: Escrow.Invocation) {
    match Try(m, inv.call)
    case Ok(m') =>
      || (Escrow.Try(s, inv).Ok? && Sim(m', Escrow.Try(s, inv).value))
      || (Escrow.Try(s, inv) == Err(Escrow.AlreadyAttested) && m' == m.(txCount := m.txCount + 1))
    case Err(_) => Escrow.Try(s, inv).Err?
  }

  lemma CreateInStep(m: MockState, s: Escrow.State, inv: Escrow.Invocation)
    requires Sim(m, s) && EscrowRuns.TableInv(s) && Proper(s, inv) && inv.call.CreateIntent?
    ensures InStep(m, s, inv)
  {
    SameMove(m.balances, s.balances, inv.call.token, inv.call.sme, ESCROW_VAULT, inv.call.amount);
    assert s.counter + 1 !in s.intents;
  }

  lemma AttestInStep(m: MockState, s: Escrow.State, inv: Escrow.Invocation)
    requires Sim(m, s) && Proper(s, inv) && inv.call.Attest?
    ensures InStep(m, s, inv)
  {
    if inv.call.id in m.intents && m.intents[inv.call.id].attestation != None {
      assert m.intents[inv.call.id := m.intents[inv.call.id]] == m.intents;
    }
  }

  lemma SettlementInStep(m: MockState, s: Escrow.State, inv: Escrow.Invocation)
    requires Sim(m, s) && (inv.call.Release? || inv.call.Refund?)
    ensures InStep(m, s, inv)
  {
    var id := inv.call.id;
    if id in m.intents {
      var x := m.intents[id];
      SameMove(m.balances, s.balances, x.token, ESCROW_VAULT, if inv.call.Release? then x.supplier else x.sme, x.amount);
    }
  }

  lemma CallSimulates(b0: Balances, m: MockState, s: Escrow.State, inv: Escrow.Invocation)
    requires Sim(m, s) && EscrowRuns.Inv(b0, s) && Proper(s, inv)
    ensures InStep(m, s, inv)
  {
    match inv.call
    case CreateIntent(_, _, _, _, _, _) => CreateInStep(m, s, inv);
    case Attest(_, _, _) => AttestInStep(m, s, inv);
    case Release(_) => SettlementInStep(m, s, inv);
    case Refund(_) => SettlementInStep(m, s, inv);
    case Mint(token, to, amount) =>
      CreditEffect(m.balances, token, to, amount);
      CreditEffect(s.balances, token, to, amount);
    case _ =>
  }

  ghost predicate ProperRun(s: Escrow.State, invs: seq<Escrow.Invocation>) {
    invs == [] || (ProperRun(s, invs[..|invs| - 1]) && Proper(Escrow.Run(s, invs[..|invs| - 1]), invs[|invs| - 1]))
  }

  /** Over any sequence of proper calls the mock and the contract stay in step. */
  lemma {:induction false} RunSimulates(b0: Balances, m: MockState, s: Escrow.State, invs: seq<Escrow.Invocation>)
    requires Sim(m, s) && EscrowRuns.Inv(b0, s) && ProperRun(s, invs)
    ensures Sim(Run(m, invs), Escrow.Run(s, invs)) && EscrowRuns.Inv(b0, Escrow.Run(s, invs))
  {
    if invs != [] {
      var front, last := invs[..|invs| - 1], invs[|invs| - 1];
      RunSimulates(b0, m, s, front);
      CallSimulates(b0, Run(m, front), Escrow.Run(s, front), last);
      EscrowRuns.ApplyKeeps(b0, Escrow.Run(s, front), last);
    }
  }

  /**
  For any amount whatever, the mock accepts a funding leg exactly when the
  contract does if and only if the amount is positive, or it is zero just when
  the payer has a balance entry.  In particular the mock accepts a negative
  amount from a payer it knows, which a token refuses.
  */
  lemma CreateAgreesExactly(m: MockState, s: Escrow.State, inv: Escrow.Invocation)
    requires Sim(m, s) && inv.call.CreateIntent? && inv.call.sme in inv.auth && s.counter < Escrow.U64_MAX
    requires NonNegative(s.balances)
    ensures (Try(m, inv.call).Ok? <==> Escrow.Try(s, inv).Ok?)
       <==> (0 < inv.call.amount || (inv.call.amount == 0 <==> (inv.call.token, inv.call.sme) in m.balances))
  {
    assert Balance(m.balances, inv.call.token, inv.call.sme) == Balance(s.balances, inv.call.token, inv.call.sme) >= 0;
  }

  /** Such an input: minus one, from a payer with an entry of zero.  The token refuses; the mock pays the payer one. */
  lemma NegativeFundingDiffers(now: nat)
    ensures var m, s := MockState(now, map[], map[("USDC", "sme") := 0], 0), Escrow.Init(ESCROW_VAULT, "admin", map[], now);
            var inv := Escrow.Invocation({"sme"}, Escrow.CreateIntent("sme", "supplier", "USDC", -1, "", 0));
            && Sim(m, s) && Try(m, inv.call).Ok? && Escrow.Try(s, inv) == Err(Escrow.TransferFailed)
            && Balance(Try(m, inv.call).value.balances, "USDC", "sme") == 1
  {
    assert ESCROW_VAULT != "sme" by { assert |ESCROW_VAULT| != 3; }
    assert forall t, a :: Balance(map[("USDC", "sme") := 0], t, a) == 0 == Balance(map[], t, a);
  }

  // ---- The adapter object ----

  /** The transaction hash is a digest of the action and the running count. */
  datatype InvokeResult = InvokeResult(value: Option<nat>, action: string, serial: nat)

  class MockChainAdapter {
    var now: nat
    var intents: map<nat, Intent>
    var balances: Balances
    var txCount: nat

    ghost function View(): MockState
      reads this
    {
      MockState(now, intents, balances, txCount)
    }

    constructor (now: nat)
      ensures View() == MockState(now, map[], map[], 0)
    {
      this.now := now;
      intents := map[];
      balances := map[];
      txCount := 0;
    }

    method Fund(token: Token, address: Address, amount: int)
      modifies this
      ensures View() == old(View()).(balances := Credit(old(balances), token, address, amount))
    {
      balances := balances[(token, address) := Balance(balances, token, address) + amount];
    }

    method MoveTokens(token: Token, src: Address, dst: Address, amount: int) returns (error: Option<MockError>)
      modifies this`balances
      ensures match TryMove(old(balances), token, src, dst, amount)
              case Ok(b) => error == None && balances == b
              case Err(e) => error == Some(e) && balances == old(balances)
    {
      if Balance(balances, token, src) < amount { return Some(InsufficientBalance); }
      if (token, src) !in balances { return Some(MissingEntry); }
      balances := balances[(token, src) := balances[(token, src)] - amount];
      balances := balances[(token, dst) := Balance(balances, token, dst) + amount];
      return None;
    }

    method CreateIntent(sme: Address, supplier: Address, token: Token, amount: int, requestHash: string, deadline: nat)
      returns (r: Result<InvokeResult, MockError>)
      modifies this
      ensures match TryCreate(old(View()), sme, supplier, token, amount, requestHash, deadline)
              case Ok(m') => View() == m' && r == Ok(InvokeResult(Some(|old(intents)| + 1), "create_intent", txCount))
              case Err(e) => View() == old(View()) && r == Err(e)
    {
      var error := MoveTokens(token, sme, ESCROW_VAULT, amount);
      if error.Some? { return Err(error.value); }
      var id := |intents| + 1;
      intents := intents[id := Escrow.Intent(sme, supplier, token, amount, requestHash, deadline, Escrow.Funded, None)];
      txCount := txCount + 1;
      return Ok(InvokeResult(Some(id), "create_intent", txCount));
    }

    method Attest(id: nat, kind: Escrow.AttestKind) returns (r: Result<InvokeResult, MockError>)
      modifies this
      ensures match TryAttest(old(View()), id, kind)
              case Ok(m') =>
                && View() == m'
                && r == Ok(InvokeResult(None, if kind == Escrow.Shipped then "attest_Shipped" else "attest_Failed", txCount))
              case Err(e) => View() == old(View()) && r == Err(e)
    {
      if id !in intents { return Err(NoSuchIntent); }
      if intents[id].status != Escrow.Funded { return Err(NotFunded); }
      if intents[id].attestation == None {
        intents := intents[id := intents[id].(attestation := Some(kind))];
      } else {
        assert intents[id := intents[id]] == intents;
      }
      txCount := txCount + 1;
      return Ok(InvokeResult(None, if kind == Escrow.Shipped then "attest_Shipped" else "attest_Failed", txCount));
    }

    method Release(id: nat) returns (r: Result<InvokeResult, MockError>)
      modifies this
      ensures match TryRelease(old(View()), id)
              case Ok(m') => View() == m' && r == Ok(InvokeResult(None, "release", txCount))
              case Err(e) => View() == old(View()) && r == Err(e)
    {
      if id !in intents { return Err(NoSuchIntent); }
      var intent := intents[id];
      if intent.status != Escrow.Funded { return Err(NotFunded); }
      if intent.attestation != Some(Escrow.Shipped) { return Err(NotShipped); }
      var error := MoveTokens(intent.token, ESCROW_VAULT, intent.supplier, intent.amount);
      if error.Some? { return Err(error.value); }
      intents := intents[id := intent.(status := Escrow.Released)];
      txCount := txCount + 1;
      return Ok(InvokeResult(None, "release", txCount));
    }

    method Refund(id: nat) returns (r: Result<InvokeResult, MockError>)
      modifies this
      ensures match TryRefund(old(View()), id)
              case Ok(m') => View() == m' && r == Ok(InvokeResult(None, "refund", txCount))
              case Err(e) => View() == old(View()) && r == Err(e)
    {
      if id !in intents { return Err(NoSuchIntent); }
      var intent := intents[id];
      if intent.status != Escrow.Funded { return Err(NotFunded); }
      if intent.attestation == Some(Escrow.Shipped) { return Err(ShippedBeatsDeadline); }
      if intent.attestation != Some(Escrow.Failed) && now < intent.deadline { return Err(DeadlineNotReached); }
      var error := MoveTokens(intent.token, ESCROW_VAULT, intent.sme, intent.amount);
      if error.Some? { return Err(error.value); }
      intents := intents[id := intent.(status := Escrow.Refunded)];
      txCount := txCount + 1;
      return Ok(InvokeResult(None, "refund", txCount));
    }
  }
}
