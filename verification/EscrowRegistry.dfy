/**
Who may do what in the escrow, and which refusal they get: the exact outcome of
every entrypoint, who is in the oracle registry over a whole run, and whose
signature stands behind every attestation.
*/
module EscrowRegistry {
  import opened Wrappers
  import opened Ledger
  import opened Escrow

  // ---- Each entrypoint, exactly ----

  /** The registry changes if and only if the admin signed, by the one membership. */
  lemma RegistryExactly(s: State, auth: set<Address>, oracle: Address)
    ensures TryAddOracle(s, auth, oracle).Ok? <==> s.admin in auth
    ensures TryRemoveOracle(s, auth, oracle).Ok? <==> s.admin in auth
    ensures s.admin !in auth ==> TryAddOracle(s, auth, oracle) == Err(AuthMissing) == TryRemoveOracle(s, auth, oracle)
    ensures s.admin in auth ==>
      var added, removed := TryAddOracle(s, auth, oracle).value, TryRemoveOracle(s, auth, oracle).value;
      && added.(oracles := s.oracles) == s == removed.(oracles := s.oracles)
      && (forall a :: a in added.oracles <==> a == oracle || a in s.oracles)
      && (forall a :: a in removed.oracles <==> a != oracle && a in s.oracles)
  {
  }

  /** An attestation needs a registered oracle's own signature and a Funded, unattested intent, and writes one field. */
  lemma AttestExactly(s: State, auth: set<Address>, id: nat, oracle: Address, kind: AttestKind)
    ensures TryAttest(s, auth, id, oracle, kind) ==
      if oracle !in auth then Err(AuthMissing)
      else if oracle !in s.oracles then Err(NotOracle)
      else if id !in s.intents then Err(IntentNotFound)
      else if s.intents[id].status in {Released, Refunded} then Err(AlreadyFinalized)
      else if s.intents[id].attestation.Some? then Err(AlreadyAttested)
      else
        var x := s.intents[id];
        Ok(s.(intents := s.intents[id := Intent(x.sme, x.supplier, x.token, x.amount, x.requestHash, x.deadline, x.status, Some(kind))]))
  {
  }

  /** Funding: only by the sme's own signature, for a covered amount; the intent is stored as asked, under the next id. */
  lemma CreateExactly(
    s: State, auth: set<Address>, sme: Address, supplier: Address, token: Token, amount: int,
    requestHash: string, deadline: nat)
    ensures var r := TryCreate(s, auth, sme, supplier, token, amount, requestHash, deadline);
            && (r.Ok? <==> sme in auth && 0 <= amount <= Balance(s.balances, token, sme) && s.counter < U64_MAX)
            && (sme !in auth ==> r == Err(AuthMissing))
            && (r.Ok? ==>
                  && r.value.counter == s.counter + 1
                  && r.value.intents == s.intents[s.counter + 1 :=
                       Intent(sme, supplier, token, amount, requestHash, deadline, Funded, None)]
                  && r.value.oracles == s.oracles && r.value.admin == s.admin && r.value.now == s.now
                  && r.value.journal == s.journal + [Moved(token, sme, s.vault, amount, Funding(s.counter + 1))])
  {
  }

  predicate Covered(s: State, id: nat)
    requires id in s.intents
  {
    0 <= s.intents[id].amount <= Balance(s.balances, s.intents[id].token, s.vault)
  }

  /** Every refusal of release, in its order; what is left pays the supplier. */
  lemma ReleaseRefusals(s: State, id: nat)
    ensures id !in s.intents ==> TryRelease(s, id) == Err(IntentNotFound)
    ensures id in s.intents && s.intents[id].status != Funded ==> TryRelease(s, id) == Err(AlreadyFinalized)
    ensures id in s.intents && s.intents[id].status == Funded ==>
      match s.intents[id].attestation
      case None => TryRelease(s, id) == Err(NoAttestation)
      case Some(Failed) => TryRelease(s, id) == Err(IntentFailed)
      case Some(Shipped) =>
        if Covered(s, id) then TryRelease(s, id).Ok? && TryRelease(s, id).value.intents[id].status == Released
        else TryRelease(s, id) == Err(TransferFailed)
  {
  }

  /** Every refusal of refund, in its order; what is left pays the sme. */
  lemma RefundRefusals(s: State, id: nat)
    ensures id !in s.intents ==> TryRefund(s, id) == Err(IntentNotFound)
    ensures id in s.intents && s.intents[id].status != Funded ==> TryRefund(s, id) == Err(AlreadyFinalized)
    ensures id in s.intents && s.intents[id].status == Funded ==>
      if s.intents[id].attestation == Some(Shipped) then TryRefund(s, id) == Err(IntentShipped)
      else if s.intents[id].attestation == None && s.now < s.intents[id].deadline then TryRefund(s, id) == Err(NotYetExpired)
      else if Covered(s, id) then TryRefund(s, id).Ok? && TryRefund(s, id).value.intents[id].status == Refunded
      else TryRefund(s, id) == Err(TransferFailed)
  {
  }

  // ---- The registry over a run ----

  predicate Adds(admin: Address, inv: Invocation, a: Address) {
    inv.call == AddOracle(a) && admin in inv.auth
  }

  predicate Removes(admin: Address, inv: Invocation, a: Address) {
    inv.call == RemoveOracle(a) && admin in inv.auth
  }

  /** The admin added `a` at `n` and has not removed it since. */
  ghost predicate AddedAt(admin: Address, invs: seq<Invocation>, a: Address, n: nat) {
    && n < |invs| && Adds(admin, invs[n], a)
    && forall m :: n < m < |invs| ==> !Removes(admin, invs[m], a)
  }

  ghost predicate Standing(admin: Address, invs: seq<Invocation>, a: Address) {
    exists n :: AddedAt(admin, invs, a, n)
  }

  lemma StandingStep(admin: Address, invs: seq<Invocation>, inv: Invocation, a: Address)
    ensures Standing(admin, invs + [inv], a) <==> Adds(admin, inv, a) || (Standing(admin, invs, a) && !Removes(admin, inv, a))
  {
    var all := invs + [inv];
    if Adds(admin, inv, a) {
      assert AddedAt(admin, all, a, |invs|);
    } else {
      if Standing(admin, all, a) {
        var n: nat :| AddedAt(admin, all, a, n);
        assert all[|invs|] == inv && n < |invs|;
        assert forall m :: n < m < |invs| ==> all[m] == invs[m];
        assert AddedAt(admin, invs, a, n);
      }
      if Standing(admin, invs, a) && !Removes(admin, inv, a) {
        var n: nat :| AddedAt(admin, invs, a, n);
        assert AddedAt(admin, all, a, n);
      }
    }
  }

  lemma RegistryStep(s: State, inv: Invocation, a: Address)
    ensures Apply(s, inv).admin == s.admin
    ensures a in Apply(s, inv).oracles <==> Adds(s.admin, inv, a) || (a in s.oracles && !Removes(s.admin, inv, a))
  {
  }

  /** Over every run an address is registered if and only if the admin added it and has not removed it since. */
  lemma {:induction false} RegistryIsHistory(vault: Address, admin: Address, b0: Balances, now: nat, invs: seq<Invocation>, a: Address)
    ensures var s := Run(Init(vault, admin, b0, now), invs);
            s.admin == admin && (a in s.oracles <==> Standing(admin, invs, a))
  {
    if invs == [] {
      assert !Standing(admin, invs, a);
    } else {
      var front, last := invs[..|invs| - 1], invs[|invs| - 1];
      RegistryIsHistory(vault, admin, b0, now, front, a);
      RegistryStep(Run(Init(vault, admin, b0, now), front), last, a);
      StandingStep(admin, front, last, a);
      assert front + [last] == invs;
    }
  }

  // ---- Who attested ----

  /** The invocation at `n` attested intent `id` as `kind`, signed by an oracle registered by then. */
  ghost predicate AttestedAt(
    vault: Address, admin: Address, b0: Balances, now: nat, invs: seq<Invocation>, id: nat, kind: AttestKind, n: nat)
  {
    && n < |invs| && invs[n].call.Attest? && invs[n].call.id == id && invs[n].call.kind == kind
    && invs[n].call.oracle in invs[n].auth
    && invs[n].call.oracle in Run(Init(vault, admin, b0, now), invs[..n]).oracles
    && Standing(admin, invs[..n], invs[n].call.oracle)
  }

  lemma AttestedEarlier(
    vault: Address, admin: Address, b0: Balances, now: nat, invs: seq<Invocation>, id: nat, kind: AttestKind, n: nat)
    requires invs != [] && AttestedAt(vault, admin, b0, now, invs[..|invs| - 1], id, kind, n)
    ensures AttestedAt(vault, admin, b0, now, invs, id, kind, n)
  {
    hide Run, Standing;
    assert invs[..|invs| - 1][..n] == invs[..n];
  }

  /** One call adds an attestation only if it is an accepted attest of that very intent. */
  lemma AttestationStep(s: State, inv: Invocation, id: nat, kind: AttestKind)
    requires id in Apply(s, inv).intents && Apply(s, inv).intents[id].attestation == Some(kind)
    requires !(id in s.intents && s.intents[id].attestation == Some(kind))
    ensures inv.call.Attest? && inv.call.id == id && inv.call.kind == kind
    ensures inv.call.oracle in inv.auth && inv.call.oracle in s.oracles
  {
  }

  /**
  Over every run, every attested intent was attested at some earlier point by a
  call signed by an oracle that the admin had registered by then and not removed.
  */
  lemma {:induction false} EveryAttestationIsSigned(
    vault: Address, admin: Address, b0: Balances, now: nat, invs: seq<Invocation>, id: nat, kind: AttestKind)
    requires var s := Run(Init(vault, admin, b0, now), invs); id in s.intents && s.intents[id].attestation == Some(kind)
    ensures exists n :: AttestedAt(vault, admin, b0, now, invs, id, kind, n)
  {
    if invs != [] {
      hide Apply, Standing;
      var n := |invs| - 1;
      var s := Run(Init(vault, admin, b0, now), invs[..n]);
      if id in s.intents && s.intents[id].attestation == Some(kind) {
        EveryAttestationIsSigned(vault, admin, b0, now, invs[..n], id, kind);
        var m: nat :| AttestedAt(vault, admin, b0, now, invs[..n], id, kind, m);
        AttestedEarlier(vault, admin, b0, now, invs, id, kind, m);
      } else {
        AttestationStep(s, invs[n], id, kind);
        RegistryIsHistory(vault, admin, b0, now, invs[..n], invs[n].call.oracle);
        assert AttestedAt(vault, admin, b0, now, invs, id, kind, n);
      }
    }
  }
}
