/**
No funds are stuck: once the clock has passed every deadline, anyone can close
every open intent, in any order, and the outcome is the same.
*/
module EscrowDrain {
  import opened Wrappers
  import opened Sums
  import opened Ledger
  import opened Escrow
  import opened EscrowRuns
  import opened EscrowTheorems

  ghost predicate PastDeadlines(s: State) {
    forall i :: i in s.intents && s.intents[i].status == Funded ==> s.intents[i].deadline <= s.now
  }

  ghost function Open(s: State): set<nat> {
    set i | i in s.intents && s.intents[i].status == Funded
  }

  /** Close one intent along the only path its attestation leaves; nobody's signature is needed. */
  function Settle(s: State, id: nat): State {
    if id in s.intents && s.intents[id].attestation == Some(Shipped) then Apply(s, Invocation({}, Release(id)))
    else Apply(s, Invocation({}, Refund(id)))
  }

  function SettleAll(s: State, order: seq<nat>): State
    decreases |order|
  {
    if order == [] then s else SettleAll(Settle(s, order[0]), order[1..])
  }

  /** Who is paid when `x` closes, and how `x` looks afterwards. */
  function Beneficiary(x: Intent): Address {
    if x.attestation == Some(Shipped) then x.supplier else x.sme
  }

  function Closed(x: Intent): Intent {
    if x.status != Funded then x
    else x.(status := if x.attestation == Some(Shipped) then Released else Refunded)
  }

  function AllClosed(intents: map<nat, Intent>): map<nat, Intent> {
    map i | i in intents :: Closed(intents[i])
  }

  function OwedTo(t: Token, a: Address): (nat, Intent) -> int {
    (i: nat, x: Intent) => if x.status == Funded && x.token == t && Beneficiary(x) == a then x.amount else 0
  }

  /** The balance of `a` after everybody has been paid what the open intents owe them. */
  ghost function FinalBalance(s: State, t: Token, a: Address): int {
    Balance(s.balances, t, a) + Sum(s.intents, OwedTo(t, a)) - (if a == s.vault then FundedTotal(s, t) else 0)
  }

  /** Past every deadline each open intent has exactly one way out, and it works. */
  lemma ExactlyOneWayOut(b0: Balances, s: State, id: nat)
    requires Inv(b0, s) && PastDeadlines(s) && id in Open(s)
    ensures TryRelease(s, id).Ok? != TryRefund(s, id).Ok?
    ensures TryRelease(s, id).Ok? <==> s.intents[id].attestation == Some(Shipped)
  {
    SettlementEnabled(b0, s, id);
  }

  /** What closing the open intent `id` does: one payment, one status. */
  function Paid(s: State, id: nat): State
    requires id in s.intents
  {
    var x := s.intents[id];
    Moving(s, x.token, s.vault, Beneficiary(x), x.amount, Settlement(id)).(intents := s.intents[id := Closed(x)])
  }

  lemma SettleIsPaid(b0: Balances, s: State, id: nat)
    requires Inv(b0, s) && PastDeadlines(s)
    ensures if id in Open(s) then Settle(s, id) == Paid(s, id) else Settle(s, id) == s
  {
    SettlementEnabled(b0, s, id);
  }

  /** Closing an open intent pays out money already counted in the final balances. */
  lemma PaidKeepsFinal(s: State, id: nat, t: Token, a: Address)
    requires id in s.intents && s.intents[id].status == Funded
    ensures FinalBalance(Paid(s, id), t, a) == FinalBalance(s, t, a)
  {
    var x := s.intents[id];
    MoveEffect(s.balances, x.token, s.vault, Beneficiary(x), x.amount, Settlement(id));
    SumUpdate(s.intents, OwedTo(t, a), id, Closed(x));
    SumUpdate(s.intents, FundedIn(t), id, Closed(x));
  }

  lemma {:induction false} SettleKeepsInv(b0: Balances, s: State, id: nat)
    requires Inv(b0, s)
    ensures Inv(b0, Settle(s, id))
  {
    ApplyKeeps(b0, s, Invocation({}, Release(id)));
    ApplyKeeps(b0, s, Invocation({}, Refund(id)));
  }

  lemma SettleKeeps(b0: Balances, s: State, id: nat)
    requires Inv(b0, s) && PastDeadlines(s)
    ensures var s' := Settle(s, id);
            && PastDeadlines(s') && s'.vault == s.vault
            && Open(s') == Open(s) - {id}
            && (id in Open(s) ==> |Open(s')| == |Open(s)| - 1)
            && AllClosed(s'.intents) == AllClosed(s.intents)
            && (forall t, a :: FinalBalance(s', t, a) == FinalBalance(s, t, a))
  {
    SettleIsPaid(b0, s, id);
    if id in Open(s) {
      forall t, a ensures FinalBalance(Paid(s, id), t, a) == FinalBalance(s, t, a) {
        PaidKeepsFinal(s, id, t, a);
      }
    }
  }

  function Nothing(): (nat, Intent) -> int {
    (i: nat, x: Intent) => 0
  }

  lemma {:induction false} ZeroSum(m: map<nat, Intent>)
    ensures Sum(m, Nothing()) == 0
    decreases |m|
  {
    if m != map[] {
      var k :| k in m;
      SumRemove(m, Nothing(), k);
      ZeroSum(m - {k});
    }
  }

  lemma NothingOwed(s: State, t: Token, a: Address)
    requires Open(s) == {}
    ensures FundedTotal(s, t) == 0 && FinalBalance(s, t, a) == Balance(s.balances, t, a)
  {
    forall i | i in s.intents ensures s.intents[i].status != Funded {
      assert i !in Open(s);
    }
    SumCongruent(s.intents, OwedTo(t, a), s.intents, Nothing());
    SumCongruent(s.intents, FundedIn(t), s.intents, Nothing());
    ZeroSum(s.intents);
  }

  /**
  Any order that mentions every open intent (repetitions and strangers do no
  harm) closes them all.  Where the money ends up is a function of the state in
  which draining began, and the vault is left with what nobody asked it to hold.
  */
  lemma {:induction false} Drain(b0: Balances, s: State, order: seq<nat>)
    requires Inv(b0, s) && PastDeadlines(s)
    requires forall i :: i in Open(s) ==> i in order
    ensures var f := SettleAll(s, order);
            && Inv(b0, f) && Open(f) == {}
            && f.intents == AllClosed(s.intents)
            && (forall t, a :: Balance(f.balances, t, a) == FinalBalance(s, t, a))
            && (forall t :: Balance(f.balances, t, s.vault) == Balance(b0, t, s.vault) + Unsolicited(f, t))
    decreases |order|
  {
    if order == [] {
      assert forall i :: i !in Open(s);
      forall i | i in s.intents ensures Closed(s.intents[i]) == s.intents[i] {
        assert i !in Open(s);
      }
      assert AllClosed(s.intents) == s.intents;
      forall t, a ensures FundedTotal(s, t) == 0 && Balance(s.balances, t, a) == FinalBalance(s, t, a) {
        NothingOwed(s, t, a);
      }
    } else {
      SettleKeepsInv(b0, s, order[0]);
      SettleKeeps(b0, s, order[0]);
      forall i | i in Open(Settle(s, order[0])) ensures i in order[1..] {
        assert i in order && i != order[0];
      }
      Drain(b0, Settle(s, order[0]), order[1..]);
    }
  }

  /** Two keepers draining in two different orders leave the same intents and the same balances behind. */
  lemma {:induction false} DrainOrderIrrelevant(b0: Balances, s: State, order: seq<nat>, other: seq<nat>)
    requires Inv(b0, s) && PastDeadlines(s)
    requires forall i :: i in Open(s) ==> i in order && i in other
    ensures var f, g := SettleAll(s, order), SettleAll(s, other);
            f.intents == g.intents && forall t, a :: Balance(f.balances, t, a) == Balance(g.balances, t, a)
  {
    Drain(b0, s, order);
    Drain(b0, s, other);
  }

  /**
  From any state the contract can reach, after a wait past the open deadlines,
  every intent can be closed and the vault keeps only unsolicited money.
  */
  lemma NoStuckFunds(
    vault: Address, admin: Address, b0: Balances, now: nat, invs: seq<Invocation>, wait: nat, s: State, order: seq<nat>)
    requires NonNegative(b0) && VaultNeverSigns(vault, invs)
    requires s == Apply(Run(Init(vault, admin, b0, now), invs), Invocation({}, Tick(wait)))
    requires PastDeadlines(s) && (forall i :: i in Open(s) ==> i in order)
    ensures var f := SettleAll(s, order);
            && Open(f) == {}
            && (forall t, a :: Balance(f.balances, t, a) == FinalBalance(s, t, a))
            && (forall t :: Balance(f.balances, t, vault) == Balance(b0, t, vault) + Unsolicited(f, t))
  {
    assert Inv(b0, s) && s.vault == vault by {
      ReachableInv(vault, admin, b0, now, invs);
      ApplyKeeps(b0, Run(Init(vault, admin, b0, now), invs), Invocation({}, Tick(wait)));
    }
    Drain(b0, s, order);
  }
}
