/**
The contract as it is written: an object whose entrypoints update its storage
and call the token.  Each entrypoint is proved to take the storage to exactly
the state the specification gives, or to leave everything alone and return
exactly the specification's error.
*/
module EscrowContract {
  import opened Wrappers
  import opened Ledger
  import opened Escrow

  class TokenLedger {
    var balances: Balances
    ghost var journal: seq<Entry>

    constructor (initial: Balances)
      ensures balances == initial && journal == []
    {
      balances := initial;
      journal := [];
    }

    method Transfer(token: Token, from: Address, to: Address, amount: int, ghost memo: Memo) returns (ok: bool)
      modifies this
      ensures ok == CanMove(old(balances), token, from, amount)
      ensures balances == if ok then Move(old(balances), token, from, to, amount) else old(balances)
      ensures journal == old(journal) + (if ok then [Moved(token, from, to, amount, memo)] else [])
    {
      var held := Balance(balances, token, from);
      ok := 0 <= amount <= held;
      if ok {
        balances := balances[(token, from) := held - amount];
        balances := balances[(token, to) := Balance(balances, token, to) + amount];
        journal := journal + [Moved(token, from, to, amount, memo)];
      }
    }
  }

  /** What a call that returns nothing reports, and where it takes the storage. */
  predicate Reports(r: Option<Error>, before: State, spec: Result<State, Error>, after: State) {
    match spec
    case Ok(s') => r == None && after == s'
    case Err(e) => r == Some(e) && after == before
  }

  class LumoEscrow {
    const vault: Address
    const ledger: TokenLedger
    var admin: Address
    var counter: nat
    var oracles: set<Address>
    var intents: map<nat, Intent>

    /** The specification state this object stands for when the ledger clock shows `now`. */
    ghost function View(now: nat): State
      reads this, ledger
    {
      State(vault, admin, counter, oracles, intents, ledger.balances, ledger.journal, now)
    }

    constructor (vault: Address, admin: Address, ledger: TokenLedger)
      requires ledger.journal == []
      ensures this.ledger == ledger
      ensures forall now :: View(now) == Init(vault, admin, ledger.balances, now)
      ensures oracles == {} && intents == map[] && counter == 0 && this.admin == admin && this.vault == vault
    {
      this.vault := vault;
      this.ledger := ledger;
      this.admin := admin;
      counter := 0;
      oracles := {};
      intents := map[];
    }

    method AddOracle(auth: set<Address>, ghost now: nat, oracle: Address) returns (r: Option<Error>)
      modifies this
      ensures Reports(r, old(View(now)), TryAddOracle(old(View(now)), auth, oracle), View(now))
      ensures r == None <==> old(admin) in auth
      ensures forall a :: a in oracles <==> a in old(oracles) || (r == None && a == oracle)
    {
      if admin !in auth { return Some(AuthMissing); }
      oracles := oracles + {oracle};
      return None;
    }

    method RemoveOracle(auth: set<Address>, ghost now: nat, oracle: Address) returns (r: Option<Error>)
      modifies this
      ensures Reports(r, old(View(now)), TryRemoveOracle(old(View(now)), auth, oracle), View(now))
      ensures r == None <==> old(admin) in auth
      ensures forall a :: a in oracles <==> a in old(oracles) && !(r == None && a == oracle)
    {
      if admin !in auth { return Some(AuthMissing); }
      oracles := oracles - {oracle};
      return None;
    }

    /** The host rolls a trapped call back, so the counter is checked before the transfer is made. */
    method CreateIntent(
      auth: set<Address>, ghost now: nat, sme: Address, supplier: Address, token: Token, amount: int,
      requestHash: string, deadline: nat) returns (r: Result<nat, Error>)
      modifies this, ledger
      ensures match TryCreate(old(View(now)), auth, sme, supplier, token, amount, requestHash, deadline)
              case Ok(s') => r == Ok(counter) && View(now) == s'
              case Err(e) => r == Err(e) && View(now) == old(View(now))
    {
      if sme !in auth { return Err(AuthMissing); }
      if !CanMove(ledger.balances, token, sme, amount) { return Err(TransferFailed); }
      if counter + 1 > U64_MAX { return Err(CounterOverflow); }
      var paid := ledger.Transfer(token, sme, vault, amount, Funding(counter + 1));
      counter := counter + 1;
      intents := intents[counter := Intent(sme, supplier, token, amount, requestHash, deadline, Funded, None)];
      return Ok(counter);
    }

    method Attest(auth: set<Address>, ghost now: nat, id: nat, oracle: Address, kind: AttestKind) returns (r: Option<Error>)
      modifies this
      ensures Reports(r, old(View(now)), TryAttest(old(View(now)), auth, id, oracle, kind), View(now))
      ensures r == None <==>
        && oracle in auth && oracle in oracles && id in old(intents)
        && old(intents)[id].status == Funded && old(intents)[id].attestation == None
      ensures intents == if r == None then old(intents)[id := old(intents)[id].(attestation := Some(kind))] else old(intents)
    {
      if oracle !in auth { return Some(AuthMissing); }
      if oracle !in oracles { return Some(NotOracle); }
      if id !in intents { return Some(IntentNotFound); }
      var intent := intents[id];
      if intent.status != Funded { return Some(AlreadyFinalized); }
      if intent.attestation != None { return Some(AlreadyAttested); }
      intents := intents[id := intent.(attestation := Some(kind))];
      return None;
    }

    method Release(ghost now: nat, id: nat) returns (r: Option<Error>)
      modifies this, ledger
      ensures Reports(r, old(View(now)), TryRelease(old(View(now)), id), View(now))
    {
      if id !in intents { return Some(IntentNotFound); }
      var intent := intents[id];
      if intent.status != Funded { return Some(AlreadyFinalized); }
      match intent.attestation {
        case Some(Shipped) =>
        case Some(Failed) => return Some(IntentFailed);
        case None => return Some(NoAttestation);
      }
      var paid := ledger.Transfer(intent.token, vault, intent.supplier, intent.amount, Settlement(id));
      if !paid { return Some(TransferFailed); }
      intents := intents[id := intent.(status := Released)];
      return None;
    }

    method Refund(now: nat, id: nat) returns (r: Option<Error>)
      modifies this, ledger
      ensures Reports(r, old(View(now)), TryRefund(old(View(now)), id), View(now))
    {
      if id !in intents { return Some(IntentNotFound); }
      var intent := intents[id];
      if intent.status != Funded { return Some(AlreadyFinalized); }
      match intent.attestation {
        case Some(Shipped) => return Some(IntentShipped);
        case Some(Failed) =>
        case None => if now < intent.deadline { return Some(NotYetExpired); }
      }
      var paid := ledger.Transfer(intent.token, vault, intent.sme, intent.amount, Settlement(id));
      if !paid { return Some(TransferFailed); }
      intents := intents[id := intent.(status := Refunded)];
      return None;
    }
  }
}
