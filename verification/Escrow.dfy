/**
The escrow contract as a state machine: the persistent storage of the
contract (admin, oracle registry, counter, intents), the ledger clock and the
token ledger it sits on.  Every entrypoint is a function from a state to a new
state or an error; an error leaves no trace, as a reverted transaction does.
*/
module Escrow {
  import opened Wrappers
  import opened Ledger

  const U64_MAX: nat := 0xFFFF_FFFF_FFFF_FFFF

  datatype Status = Funded | Released | Refunded

  datatype AttestKind = Shipped | Failed

  datatype Intent = Intent(
    sme: Address,
    supplier: Address,
    token: Token,
    amount: int,
    requestHash: string,
    deadline: nat,
    status: Status,
    attestation: Option<AttestKind>)

  /** The contract's typed errors, then the three ways the host traps a call. */
  datatype Error =
    | IntentNotFound
    | NotOracle
    | AlreadyAttested
    | NoAttestation
    | IntentFailed
    | IntentShipped
    | NotYetExpired
    | AlreadyFinalized
    | AuthMissing
    | TransferFailed
    | CounterOverflow

  datatype State = State(
    vault: Address,
    admin: Address,
    counter: nat,
    oracles: set<Address>,
    intents: map<nat, Intent>,
    balances: Balances,
    journal: seq<Entry>,
    now: nat)

  datatype Call =
    | AddOracle(oracle: Address)
    | RemoveOracle(oracle: Address)
    | CreateIntent(sme: Address, supplier: Address, token: Token, amount: int, requestHash: string, deadline: nat)
    | Attest(id: nat, oracle: Address, kind: AttestKind)
    | Release(id: nat)
    | Refund(id: nat)
    // What the rest of the world can do to the ledger and the clock:
    | Transfer(token: Token, from: Address, to: Address, amount: int)
    | Mint(token: Token, to: Address, amount: int)
    | Tick(seconds: nat)

  /** A call together with the addresses whose authorisation it carries. */
  datatype Invocation = Invocation(auth: set<Address>, call: Call)

  function Init(vault: Address, admin: Address, balances: Balances, now: nat): State {
    State(vault, admin, 0, {}, map[], balances, [], now)
  }

  function Moving(s: State, t: Token, from: Address, to: Address, amount: int, memo: Memo): State {
    s.(balances := Move(s.balances, t, from, to, amount),
       journal := s.journal + [Moved(t, from, to, amount, memo)])
  }

  function TryAddOracle(s: State, auth: set<Address>, oracle: Address): Result<State, Error> {
    if s.admin !in auth then Err(AuthMissing)
    else Ok(s.(oracles := s.oracles + {oracle}))
  }

  function TryRemoveOracle(s: State, auth: set<Address>, oracle: Address): Result<State, Error> {
    if s.admin !in auth then Err(AuthMissing)
    else Ok(s.(oracles := s.oracles - {oracle}))
  }

  /** The id of a created intent is the counter of the new state. */
  function TryCreate(
    s: State, auth: set<Address>, sme: Address, supplier: Address, token: Token, amount: int,
    requestHash: string, deadline: nat): Result<State, Error>
  {
    if sme !in auth then Err(AuthMissing)
    else if !CanMove(s.balances, token, sme, amount) then Err(TransferFailed)
    else if s.counter + 1 > U64_MAX then Err(CounterOverflow)
    else
      var id := s.counter + 1;
      var intent := Intent(sme, supplier, token, amount, requestHash, deadline, Funded, None);
      var paid := Moving(s, token, sme, s.vault, amount, Funding(id));
      Ok(paid.(counter := id, intents := s.intents[id := intent]))
  }

  function TryAttest(s: State, auth: set<Address>, id: nat, oracle: Address, kind: AttestKind): Result<State, Error> {
    if oracle !in auth then Err(AuthMissing)
    else if oracle !in s.oracles then Err(NotOracle)
    else if id !in s.intents then Err(IntentNotFound)
    else if s.intents[id].status != Funded then Err(AlreadyFinalized)
    else if s.intents[id].attestation != None then Err(AlreadyAttested)
    else Ok(s.(intents := s.intents[id := s.intents[id].(attestation := Some(kind))]))
  }

  /** Pays the full amount of intent `id` out of the vault and closes it. */
  function PayOut(s: State, id: nat, to: Address, status: Status): Result<State, Error>
    requires id in s.intents
  {
    var intent := s.intents[id];
    if !CanMove(s.balances, intent.token, s.vault, intent.amount) then Err(TransferFailed)
    else
      var paid := Moving(s, intent.token, s.vault, to, intent.amount, Settlement(id));
      Ok(paid.(intents := s.intents[id := intent.(status := status)]))
  }

  function TryRelease(s: State, id: nat): Result<State, Error> {
    if id !in s.intents then Err(IntentNotFound)
    else if s.intents[id].status != Funded then Err(AlreadyFinalized)
    else match s.intents[id].attestation
      case Some(Shipped) => PayOut(s, id, s.intents[id].supplier, Released)
      case Some(Failed) => Err(IntentFailed)
      case None => Err(NoAttestation)
  }

  function TryRefund(s: State, id: nat): Result<State, Error> {
    if id !in s.intents then Err(IntentNotFound)
    else if s.intents[id].status != Funded then Err(AlreadyFinalized)
    else match s.intents[id].attestation
      case Some(Shipped) => Err(IntentShipped)
      case Some(Failed) => PayOut(s, id, s.intents[id].sme, Refunded)
      case None =>
        if s.now < s.intents[id].deadline then Err(NotYetExpired)
        else PayOut(s, id, s.intents[id].sme, Refunded)
  }

  /** A token transfer made by its owner, outside the escrow. */
  function TryTransfer(s: State, auth: set<Address>, token: Token, from: Address, to: Address, amount: int): Result<State, Error> {
    if from !in auth then Err(AuthMissing)
    else if !CanMove(s.balances, token, from, amount) then Err(TransferFailed)
    else Ok(Moving(s, token, from, to, amount, Direct))
  }

  function TryMint(s: State, token: Token, to: Address, amount: int): Result<State, Error> {
    if amount < 0 then Err(TransferFailed)
    else Ok(s.(balances := Credit(s.balances, token, to, amount), journal := s.journal + [Minted(token, to, amount)]))
  }

  function Try(s: State, inv: Invocation): Result<State, Error> {
    match inv.call
    case AddOracle(oracle) => TryAddOracle(s, inv.auth, oracle)
    case RemoveOracle(oracle) => TryRemoveOracle(s, inv.auth, oracle)
    case CreateIntent(sme, supplier, token, amount, requestHash, deadline) =>
      TryCreate(s, inv.auth, sme, supplier, token, amount, requestHash, deadline)
    case Attest(id, oracle, kind) => TryAttest(s, inv.auth, id, oracle, kind)
    case Release(id) => TryRelease(s, id)
    case Refund(id) => TryRefund(s, id)
    case Transfer(token, from, to, amount) => TryTransfer(s, inv.auth, token, from, to, amount)
    case Mint(token, to, amount) => TryMint(s, token, to, amount)
    case Tick(seconds) => Ok(s.(now := s.now + seconds))
  }

  /** A failed call changes nothing. */
  function Apply(s: State, inv: Invocation): State {
    match Try(s, inv)
    case Ok(s') => s'
    case Err(_) => s
  }

  function Run(s: State, invs: seq<Invocation>): State {
    if invs == [] then s else Apply(Run(s, invs[..|invs| - 1]), invs[|invs| - 1])
  }

  /** The contract never authorises anything as itself: it is nobody's sme and makes no transfer of its own accord. */
  ghost predicate VaultNeverSigns(vault: Address, invs: seq<Invocation>) {
    forall i :: 0 <= i < |invs| ==> vault !in invs[i].auth
  }
}
