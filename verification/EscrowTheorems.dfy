/**
The claims the escrow is for, over every run: who can be paid, how often, and
that the money is there when they are.
*/
module EscrowTheorems {
  import opened Wrappers
  import opened Sums
  import opened Ledger
  import opened Escrow
  import opened EscrowRuns

  // ---- How a state may change ----

  predicate SameCreation(x: Intent, y: Intent) {
    && x.sme == y.sme && x.supplier == y.supplier && x.token == y.token
    && x.amount == y.amount && x.requestHash == y.requestHash && x.deadline == y.deadline
  }

  /** Creation fields are fixed, the attestation is written once, and a settled intent never changes again. */
  predicate IntentEvolves(x: Intent, y: Intent) {
    && SameCreation(x, y)
    && (x.attestation.Some? ==> y.attestation == x.attestation)
    && (x.status != Funded ==> y == x)
  }

  ghost predicate Evolves(s: State, s': State) {
    && s'.vault == s.vault && s'.admin == s.admin
    && s.counter <= s'.counter && s.now <= s'.now
    && s.journal <= s'.journal
    && (forall i :: i in s.intents ==> i in s'.intents && IntentEvolves(s.intents[i], s'.intents[i]))
  }

  lemma IntentWriteEvolves(s: State, s': State, id: nat, x: Intent)
    requires TableInv(s)
    requires s'.intents == s.intents[id := x] && (id in s.intents ==> IntentEvolves(s.intents[id], x))
    requires s'.vault == s.vault && s'.admin == s.admin && s.counter <= s'.counter && s.now <= s'.now
    requires s.journal <= s'.journal
    ensures Evolves(s, s')
  {
  }

  lemma TryEvolves(s: State, inv: Invocation, s': State)
    requires TableInv(s) && Try(s, inv) == Ok(s')
    ensures Evolves(s, s')
  {
    match inv.call
    case CreateIntent(_, _, _, _, _, _) => IntentWriteEvolves(s, s', s'.counter, s'.intents[s'.counter]);
    case Attest(id, _, _) => IntentWriteEvolves(s, s', id, s'.intents[id]);
    case Release(id) => IntentWriteEvolves(s, s', id, s'.intents[id]);
    case Refund(id) => IntentWriteEvolves(s, s', id, s'.intents[id]);
    case _ => assert s'.intents == s.intents;
  }

  lemma ApplyEvolves(s: State, inv: Invocation)
    requires TableInv(s)
    ensures Evolves(s, Apply(s, inv))
  {
    match Try(s, inv)
    case Ok(s') => TryEvolves(s, inv, s');
    case Err(_) =>
  }

  lemma IntentWriteKeepsTable(s: State, s': State, id: nat, x: Intent)
    requires TableInv(s) && s'.intents == s.intents[id := x] && s'.vault == s.vault && s'.now == s.now
    requires if id in s.intents then s'.counter == s.counter else id == s.counter + 1 == s'.counter
    requires 0 <= x.amount && x.sme != s.vault && Justified(x, s.now)
    ensures TableInv(s')
  {
  }

  /** The table alone, without the books. */
  lemma {:induction false} TryKeepsTable(s: State, inv: Invocation, s': State)
    requires TableInv(s) && s.vault !in inv.auth && Try(s, inv) == Ok(s')
    ensures TableInv(s')
  {
    match inv.call
    case CreateIntent(_, _, _, _, _, _) => IntentWriteKeepsTable(s, s', s'.counter, s'.intents[s'.counter]);
    case Attest(id, _, _) => IntentWriteKeepsTable(s, s', id, s'.intents[id]);
    case Release(id) => IntentWriteKeepsTable(s, s', id, s'.intents[id]);
    case Refund(id) => IntentWriteKeepsTable(s, s', id, s'.intents[id]);
    case _ => assert s'.intents == s.intents && s'.counter == s.counter;
  }

  /** From any reachable state, whatever calls follow. */
  lemma {:induction false} RunEvolves(b0: Balances, s: State, invs: seq<Invocation>)
    requires Inv(b0, s) && VaultNeverSigns(s.vault, invs)
    ensures Inv(b0, Run(s, invs)) && Evolves(s, Run(s, invs))
  {
    if invs != [] {
      var front := invs[..|invs| - 1];
      RunEvolves(b0, s, front);
      ApplyEvolves(Run(s, front), invs[|invs| - 1]);
      ApplyKeeps(b0, Run(s, front), invs[|invs| - 1]);
    }
  }

  lemma InitInv(vault: Address, admin: Address, b0: Balances, now: nat)
    requires NonNegative(b0)
    ensures Inv(b0, Init(vault, admin, b0, now))
  {
    var s := Init(vault, admin, b0, now);
    assert forall i: nat :: LoggedAt(s, i);
  }

  /** The invariant holds of everything the deployed contract can reach. */
  lemma {:induction false} ReachableInv(vault: Address, admin: Address, b0: Balances, now: nat, invs: seq<Invocation>)
    requires NonNegative(b0) && VaultNeverSigns(vault, invs)
    ensures Inv(b0, Run(Init(vault, admin, b0, now), invs))
    ensures Run(Init(vault, admin, b0, now), invs).vault == vault
  {
    InitInv(vault, admin, b0, now);
    RunEvolves(b0, Init(vault, admin, b0, now), invs);
  }

  // ---- Solvency and conservation ----

  lemma {:induction false} UnsolicitedNonNegative(journal: seq<Entry>, vault: Address, t: Token)
    requires forall e :: e in journal ==> 0 <= e.amount
    ensures 0 <= SumSeq(journal, UnsolicitedIn(vault, t))
  {
    if journal != [] {
      UnsolicitedNonNegative(journal[..|journal| - 1], vault, t);
    }
  }

  /**
  Whatever is called, in every token: the vault covers everything it owes, with
  equality exactly when it started empty and received nothing unasked; and the
  supply changes only by what the issuer mints.
  */
  lemma {:induction false} Solvency(vault: Address, admin: Address, b0: Balances, now: nat, invs: seq<Invocation>, t: Token)
    requires NonNegative(b0) && VaultNeverSigns(vault, invs)
    ensures var s := Run(Init(vault, admin, b0, now), invs);
            && FundedTotal(s, t) <= Balance(s.balances, t, vault)
            && (FundedTotal(s, t) == Balance(s.balances, t, vault) <==> Balance(b0, t, vault) == 0 == Unsolicited(s, t))
            && Supply(s.balances, t) == Supply(b0, t) + SumSeq(s.journal, MintedIn(t))
  {
    ReachableInv(vault, admin, b0, now, invs);
    UnsolicitedNonNegative(Run(Init(vault, admin, b0, now), invs).journal, vault, t);
    assert 0 <= Balance(b0, t, vault);
  }

  /** A funded intent's amount is always in the vault. */
  lemma FundedIsCovered(b0: Balances, s: State, id: nat)
    requires Inv(b0, s) && id in s.intents && s.intents[id].status == Funded
    ensures CanMove(s.balances, s.intents[id].token, s.vault, s.intents[id].amount)
  {
    var t := s.intents[id].token;
    SumBounds(s.intents, FundedIn(t));
    UnsolicitedNonNegative(s.journal, s.vault, t);
    assert 0 <= Balance(b0, t, s.vault);
    assert FundedIn(t)(id, s.intents[id]) <= FundedTotal(s, t);
  }

  predicate ReleaseDue(s: State, id: nat) {
    id in s.intents && s.intents[id].status == Funded && s.intents[id].attestation == Some(Shipped)
  }

  predicate RefundDue(s: State, id: nat) {
    && id in s.intents && s.intents[id].status == Funded
    && (s.intents[id].attestation == Some(Failed)
        || (s.intents[id].attestation == None && s.intents[id].deadline <= s.now))
  }

  lemma SettlementEnabled(b0: Balances, s: State, id: nat)
    requires Inv(b0, s)
    ensures TryRelease(s, id).Ok? <==> ReleaseDue(s, id)
    ensures TryRefund(s, id).Ok? <==> RefundDue(s, id)
  {
    if id in s.intents && s.intents[id].status == Funded {
      FundedIsCovered(b0, s, id);
    }
  }

  /**
  Release and refund succeed exactly when the escrow's own rules allow them:
  in no reachable state is a legal settlement stopped by a missing balance.
  */
  lemma {:induction false} SettlementNeverShort(vault: Address, admin: Address, b0: Balances, now: nat, invs: seq<Invocation>, id: nat)
    requires NonNegative(b0) && VaultNeverSigns(vault, invs)
    ensures var s := Run(Init(vault, admin, b0, now), invs);
            && (TryRelease(s, id).Ok? <==> ReleaseDue(s, id))
            && (TryRefund(s, id).Ok? <==> RefundDue(s, id))
  {
    ReachableInv(vault, admin, b0, now, invs);
    SettlementEnabled(b0, Run(Init(vault, admin, b0, now), invs), id);
  }

  // ---- Exactly-once settlement to the bound party ----

  /**
  The transfers the vault ever made for intent `id`: none while it is Funded and
  exactly one afterwards, of the full amount, to the supplier bound at creation
  after a Shipped attestation, or to the funding sme after a Failed one or an
  expired deadline.  Ids are exactly 1..counter, and no transfer out of the
  vault happens for any other reason.
  */
  lemma {:induction false} ExactlyOnceSettlement(vault: Address, admin: Address, b0: Balances, now: nat, invs: seq<Invocation>, id: nat)
    requires NonNegative(b0) && VaultNeverSigns(vault, invs)
    ensures var s := Run(Init(vault, admin, b0, now), invs);
            && (id in s.intents <==> 1 <= id <= s.counter)
            && (id !in s.intents ==> Mentions(s.journal, Settlement(id)) == [])
            && (forall e :: e in s.journal && e.Moved? && e.from == vault ==> e.memo.Settlement?)
            && (id in s.intents ==>
                  var x, paid := s.intents[id], Mentions(s.journal, Settlement(id));
                  && |paid| == (if x.status == Funded then 0 else 1)
                  && (x.status == Released ==>
                        paid[0] == Moved(x.token, vault, x.supplier, x.amount, Settlement(id)) && x.attestation == Some(Shipped))
                  && (x.status == Refunded ==>
                        && paid[0] == Moved(x.token, vault, x.sme, x.amount, Settlement(id))
                        && (x.attestation == Some(Failed) || (x.attestation == None && x.deadline <= s.now))))
  {
    ReachableInv(vault, admin, b0, now, invs);
    assert LoggedAt(Run(Init(vault, admin, b0, now), invs), id);
  }
}
