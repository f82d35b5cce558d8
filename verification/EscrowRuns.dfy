/**
What every run of the escrow contract keeps: solvency and conservation,
exactly-once settlement to the bound party, and the ways an intent may change.
*/
module EscrowRuns {
  import opened Wrappers
  import opened Sums
  import opened Ledger
  import opened Escrow

  // ---- Money owed and money that arrived unasked ----

  function FundedIn(t: Token): (nat, Intent) -> int {
    (i: nat, x: Intent) => if x.status == Funded && x.token == t then x.amount else 0
  }

  /** What the vault owes in token `t`: the amounts of all Funded intents. */
  ghost function FundedTotal(s: State, t: Token): int {
    Sum(s.intents, FundedIn(t))
  }

  /** Entries that put money in the vault without opening an intent. */
  function UnsolicitedIn(vault: Address, t: Token): Entry -> int {
    (e: Entry) => if e.token == t && e.to == vault && !(e.Moved? && e.memo.Funding?) then e.amount else 0
  }

  ghost function Unsolicited(s: State, t: Token): int {
    SumSeq(s.journal, UnsolicitedIn(s.vault, t))
  }

  // ---- The settlement log of one intent ----

  predicate Concerns(e: Entry, memo: Memo) {
    e.Moved? && e.memo == memo
  }

  function Mentions(journal: seq<Entry>, memo: Memo): seq<Entry> {
    if journal == [] then []
    else
      var rest := Mentions(journal[..|journal| - 1], memo);
      var e := journal[|journal| - 1];
      if Concerns(e, memo) then rest + [e] else rest
  }

  /** The transfers an intent in its present status must have caused, no more and no fewer. */
  function DuePayments(vault: Address, i: nat, x: Intent): seq<Entry> {
    match x.status
    case Funded => []
    case Released => [Moved(x.token, vault, x.supplier, x.amount, Settlement(i))]
    case Refunded => [Moved(x.token, vault, x.sme, x.amount, Settlement(i))]
  }

  function FundingPayment(vault: Address, i: nat, x: Intent): Entry {
    Moved(x.token, x.sme, vault, x.amount, Funding(i))
  }

  /** A status other than Funded was reached along an allowed path. */
  predicate Justified(x: Intent, now: nat) {
    match x.status
    case Funded => true
    case Released => x.attestation == Some(Shipped)
    case Refunded => x.attestation == Some(Failed) || (x.attestation == None && x.deadline <= now)
  }

  // ---- The invariant ----

  ghost predicate TableInv(s: State) {
    && (forall i :: i in s.intents <==> 1 <= i <= s.counter)
    && (forall i :: i in s.intents ==>
          0 <= s.intents[i].amount && s.intents[i].sme != s.vault && Justified(s.intents[i], s.now))
  }

  /** Balances are the replay of the journal, and never negative. */
  ghost predicate ReplayInv(b0: Balances, s: State) {
    && NonNegative(b0) && NonNegative(s.balances)
    && (forall t, a :: Balance(s.balances, t, a) == Balance(b0, t, a) + SumSeq(s.journal, NetFlow(t, a)))
  }

  /** Only the token issuer changes the supply. */
  ghost predicate SupplyInv(b0: Balances, s: State) {
    forall t :: Supply(s.balances, t) == Supply(b0, t) + SumSeq(s.journal, MintedIn(t))
  }

  /** The vault holds what it started with, what it owes, and what nobody asked it to hold. */
  ghost predicate BackedInv(b0: Balances, s: State) {
    forall t :: Balance(s.balances, t, s.vault) == Balance(b0, t, s.vault) + FundedTotal(s, t) + Unsolicited(s, t)
  }

  /** The journal shows exactly the transfers that the present status of intent `i` accounts for. */
  ghost predicate LoggedAt(s: State, i: nat) {
    if i in s.intents then
      && Mentions(s.journal, Settlement(i)) == DuePayments(s.vault, i, s.intents[i])
      && Mentions(s.journal, Funding(i)) == [FundingPayment(s.vault, i, s.intents[i])]
    else
      && Mentions(s.journal, Settlement(i)) == []
      && Mentions(s.journal, Funding(i)) == []
  }

  ghost predicate LoggedInv(s: State) {
    forall i: nat :: LoggedAt(s, i)
  }

  /** Amounts are never negative, and nothing leaves the vault except as a settlement. */
  ghost predicate SealedInv(s: State) {
    forall e :: e in s.journal ==> 0 <= e.amount && (e.Moved? && e.from == s.vault ==> e.memo.Settlement?)
  }

  ghost predicate Inv(b0: Balances, s: State) {
    TableInv(s) && ReplayInv(b0, s) && SupplyInv(b0, s) && BackedInv(b0, s) && LoggedInv(s) && SealedInv(s)
  }

  // ---- How one journal entry moves each part of the invariant ----

  lemma ReplayKept(b0: Balances, s: State, s': State, e: Entry)
    requires ReplayInv(b0, s) && NonNegative(s'.balances)
    requires s'.journal == s.journal + [e]
    requires forall t, a :: Balance(s'.balances, t, a) == Balance(s.balances, t, a) + Net(e, t, a)
    ensures ReplayInv(b0, s')
  {
    forall t, a ensures Balance(s'.balances, t, a) == Balance(b0, t, a) + SumSeq(s'.journal, NetFlow(t, a)) {
      SumSeqAppend(s.journal, e, NetFlow(t, a));
    }
  }

  lemma SupplyKept(b0: Balances, s: State, s': State, e: Entry)
    requires SupplyInv(b0, s)
    requires s'.journal == s.journal + [e]
    requires forall t :: Supply(s'.balances, t) == Supply(s.balances, t) + MintedIn(t)(e)
    ensures SupplyInv(b0, s')
  {
    forall t ensures Supply(s'.balances, t) == Supply(b0, t) + SumSeq(s'.journal, MintedIn(t)) {
      SumSeqAppend(s.journal, e, MintedIn(t));
    }
  }

  /** How much the Funded total in token `t` grows when intent `id` becomes `x`. */
  ghost function FundedGrowth(s: State, id: nat, x: Intent, t: Token): int {
    FundedIn(t)(id, x) - (if id in s.intents then FundedIn(t)(id, s.intents[id]) else 0)
  }

  lemma BackedKept(b0: Balances, s: State, s': State, e: Entry, id: nat, x: Intent)
    requires BackedInv(b0, s) && s'.vault == s.vault
    requires s'.journal == s.journal + [e] && s'.intents == s.intents[id := x]
    requires forall t :: Balance(s'.balances, t, s.vault) == Balance(s.balances, t, s.vault) + Net(e, t, s.vault)
    requires forall t :: Net(e, t, s.vault) == FundedGrowth(s, id, x, t) + UnsolicitedIn(s.vault, t)(e)
    ensures BackedInv(b0, s')
  {
    forall t
      ensures Balance(s'.balances, t, s'.vault) == Balance(b0, t, s'.vault) + FundedTotal(s', t) + Unsolicited(s', t)
    {
      SumUpdate(s.intents, FundedIn(t), id, x);
      SumSeqAppend(s.journal, e, UnsolicitedIn(s.vault, t));
    }
  }

  /** The same for an entry that touches no intent. */
  lemma BackedKeptAside(b0: Balances, s: State, s': State, e: Entry)
    requires BackedInv(b0, s) && s'.vault == s.vault
    requires s'.journal == s.journal + [e] && s'.intents == s.intents
    requires forall t :: Balance(s'.balances, t, s.vault) == Balance(s.balances, t, s.vault) + Net(e, t, s.vault)
    requires forall t :: Net(e, t, s.vault) == UnsolicitedIn(s.vault, t)(e)
    ensures BackedInv(b0, s')
  {
    forall t
      ensures Balance(s'.balances, t, s'.vault) == Balance(b0, t, s'.vault) + FundedTotal(s', t) + Unsolicited(s', t)
    {
      SumSeqAppend(s.journal, e, UnsolicitedIn(s.vault, t));
    }
  }

  lemma MentionsAppend(journal: seq<Entry>, e: Entry, m: Memo)
    ensures Mentions(journal + [e], m) == Mentions(journal, m) + (if Concerns(e, m) then [e] else [])
  {
    assert (journal + [e])[..|journal|] == journal;
  }

  /** An entry about intent `id` alone leaves every other intent's log as it was. */
  lemma LoggedKept(s: State, s': State, e: Entry, id: nat)
    requires LoggedInv(s) && s'.vault == s.vault && s'.journal == s.journal + [e]
    requires forall i: nat :: i != id ==> (i in s'.intents <==> i in s.intents)
    requires forall i: nat :: i != id && i in s.intents ==> s'.intents[i] == s.intents[i]
    requires e.Moved? ==> e.memo in {Settlement(id), Funding(id), Direct}
    requires LoggedAt(s', id)
    ensures LoggedInv(s')
  {
    forall i: nat ensures LoggedAt(s', i) {
      assert LoggedAt(s, i);
      MentionsAppend(s.journal, e, Settlement(i));
      MentionsAppend(s.journal, e, Funding(i));
    }
  }

  // ---- Each kind of step keeps the invariant ----

  lemma CreateKeepsBooks(b0: Balances, s: State, auth: set<Address>, c: Call, s': State)
    requires Inv(b0, s) && c.CreateIntent? && s.vault !in auth
    requires TryCreate(s, auth, c.sme, c.supplier, c.token, c.amount, c.requestHash, c.deadline) == Ok(s')
    ensures ReplayInv(b0, s') && SupplyInv(b0, s') && BackedInv(b0, s')
  {
    var id := s'.counter;
    var e := Moved(c.token, c.sme, s.vault, c.amount, Funding(id));
    MoveEffect(s.balances, c.token, c.sme, s.vault, c.amount, Funding(id));
    ReplayKept(b0, s, s', e);
    SupplyKept(b0, s, s', e);
    BackedKept(b0, s, s', e, id, s'.intents[id]);
  }

  lemma CreateKeepsLog(b0: Balances, s: State, auth: set<Address>, c: Call, s': State)
    requires Inv(b0, s) && c.CreateIntent? && s.vault !in auth
    requires TryCreate(s, auth, c.sme, c.supplier, c.token, c.amount, c.requestHash, c.deadline) == Ok(s')
    ensures LoggedInv(s') && SealedInv(s')
  {
    var id := s'.counter;
    var e := Moved(c.token, c.sme, s.vault, c.amount, Funding(id));
    assert LoggedAt(s, id);
    MentionsAppend(s.journal, e, Settlement(id));
    MentionsAppend(s.journal, e, Funding(id));
    LoggedKept(s, s', e, id);
  }

  lemma CreateKeeps(b0: Balances, s: State, auth: set<Address>, c: Call, s': State)
    requires Inv(b0, s) && c.CreateIntent? && s.vault !in auth
    requires TryCreate(s, auth, c.sme, c.supplier, c.token, c.amount, c.requestHash, c.deadline) == Ok(s')
    ensures Inv(b0, s')
  {
    CreateKeepsBooks(b0, s, auth, c, s');
    CreateKeepsLog(b0, s, auth, c, s');
  }

  lemma PayOutKeepsBooks(b0: Balances, s: State, id: nat, to: Address, status: Status, s': State)
    requires Inv(b0, s) && id in s.intents && s.intents[id].status == Funded && status != Funded
    requires PayOut(s, id, to, status) == Ok(s')
    ensures ReplayInv(b0, s') && SupplyInv(b0, s') && BackedInv(b0, s')
  {
    var x := s.intents[id];
    var e := Moved(x.token, s.vault, to, x.amount, Settlement(id));
    MoveEffect(s.balances, x.token, s.vault, to, x.amount, Settlement(id));
    ReplayKept(b0, s, s', e);
    SupplyKept(b0, s, s', e);
    BackedKept(b0, s, s', e, id, s'.intents[id]);
  }

  lemma PayOutKeepsLog(b0: Balances, s: State, id: nat, to: Address, status: Status, s': State)
    requires Inv(b0, s) && id in s.intents && s.intents[id].status == Funded && status != Funded
    requires to == if status == Released then s.intents[id].supplier else s.intents[id].sme
    requires PayOut(s, id, to, status) == Ok(s')
    ensures LoggedInv(s') && SealedInv(s')
  {
    var x := s.intents[id];
    var e := Moved(x.token, s.vault, to, x.amount, Settlement(id));
    assert LoggedAt(s, id);
    MentionsAppend(s.journal, e, Settlement(id));
    MentionsAppend(s.journal, e, Funding(id));
    LoggedKept(s, s', e, id);
  }

  lemma PayOutKeeps(b0: Balances, s: State, id: nat, to: Address, status: Status, s': State)
    requires Inv(b0, s) && id in s.intents && s.intents[id].status == Funded && status != Funded
    requires Justified(s.intents[id].(status := status), s.now)
    requires to == if status == Released then s.intents[id].supplier else s.intents[id].sme
    requires PayOut(s, id, to, status) == Ok(s')
    ensures Inv(b0, s')
  {
    PayOutKeepsBooks(b0, s, id, to, status, s');
    PayOutKeepsLog(b0, s, id, to, status, s');
  }

  lemma AttestKeeps(b0: Balances, s: State, auth: set<Address>, id: nat, oracle: Address, kind: AttestKind)
    requires Inv(b0, s) && TryAttest(s, auth, id, oracle, kind).Ok?
    ensures Inv(b0, TryAttest(s, auth, id, oracle, kind).value)
  {
    var s' := TryAttest(s, auth, id, oracle, kind).value;
    forall t ensures FundedTotal(s', t) == FundedTotal(s, t) {
      SumUpdate(s.intents, FundedIn(t), id, s'.intents[id]);
    }
    assert forall i: nat :: LoggedAt(s, i) ==> LoggedAt(s', i);
  }

  lemma OutsideKeepsLog(s: State, s': State, e: Entry)
    requires LoggedInv(s) && s'.vault == s.vault && s'.intents == s.intents && s'.journal == s.journal + [e]
    requires e.Moved? ==> e.memo == Direct
    ensures LoggedInv(s')
  {
    assert LoggedAt(s, 0);
    MentionsAppend(s.journal, e, Settlement(0));
    MentionsAppend(s.journal, e, Funding(0));
    LoggedKept(s, s', e, 0);
  }

  /** Registry and clock changes. */
  lemma QuietKeeps(b0: Balances, s: State, s': State)
    requires Inv(b0, s) && s.now <= s'.now
    requires s' == s.(oracles := s'.oracles, now := s'.now)
    ensures Inv(b0, s')
  {
    assert forall t :: FundedTotal(s', t) == FundedTotal(s, t) && Unsolicited(s', t) == Unsolicited(s, t);
    assert forall i: nat :: LoggedAt(s, i) ==> LoggedAt(s', i);
  }

  lemma OutsideKeeps(b0: Balances, s: State, s': State, e: Entry)
    requires Inv(b0, s) && NonNegative(s'.balances)
    requires s' == s.(balances := s'.balances, journal := s.journal + [e])
    requires e.Moved? ==> e.memo == Direct && e.from != s.vault
    requires 0 <= e.amount
    requires forall t, a :: Balance(s'.balances, t, a) == Balance(s.balances, t, a) + Net(e, t, a)
    requires forall t :: Supply(s'.balances, t) == Supply(s.balances, t) + MintedIn(t)(e)
    ensures Inv(b0, s')
  {
    ReplayKept(b0, s, s', e);
    SupplyKept(b0, s, s', e);
    BackedKeptAside(b0, s, s', e);
    OutsideKeepsLog(s, s', e);
  }

  lemma TransferKeeps(b0: Balances, s: State, auth: set<Address>, t: Token, from: Address, to: Address, amount: int, s': State)
    requires Inv(b0, s) && s.vault !in auth && TryTransfer(s, auth, t, from, to, amount) == Ok(s')
    ensures Inv(b0, s')
  {
    MoveEffect(s.balances, t, from, to, amount, Direct);
    OutsideKeeps(b0, s, s', Moved(t, from, to, amount, Direct));
  }

  lemma MintKeeps(b0: Balances, s: State, t: Token, to: Address, amount: int, s': State)
    requires Inv(b0, s) && TryMint(s, t, to, amount) == Ok(s')
    ensures Inv(b0, s')
  {
    CreditEffect(s.balances, t, to, amount);
    OutsideKeeps(b0, s, s', Minted(t, to, amount));
  }

  lemma ReleaseKeeps(b0: Balances, s: State, id: nat, s': State)
    requires Inv(b0, s) && TryRelease(s, id) == Ok(s')
    ensures Inv(b0, s')
  {
    PayOutKeeps(b0, s, id, s.intents[id].supplier, Released, s');
  }

  lemma RefundKeeps(b0: Balances, s: State, id: nat, s': State)
    requires Inv(b0, s) && TryRefund(s, id) == Ok(s')
    ensures Inv(b0, s')
  {
    PayOutKeeps(b0, s, id, s.intents[id].sme, Refunded, s');
  }

  lemma EntrypointKeeps(b0: Balances, s: State, inv: Invocation, s': State)
    requires Inv(b0, s) && s.vault !in inv.auth && Try(s, inv) == Ok(s')
    requires inv.call.CreateIntent? || inv.call.Attest? || inv.call.Release? || inv.call.Refund?
    ensures Inv(b0, s')
  {
    match inv.call
    case CreateIntent(_, _, _, _, _, _) => CreateKeeps(b0, s, inv.auth, inv.call, s');
    case Attest(id, oracle, kind) => AttestKeeps(b0, s, inv.auth, id, oracle, kind);
    case Release(id) => ReleaseKeeps(b0, s, id, s');
    case Refund(id) => RefundKeeps(b0, s, id, s');
  }

  lemma TryKeeps(b0: Balances, s: State, inv: Invocation, s': State)
    requires Inv(b0, s) && s.vault !in inv.auth && Try(s, inv) == Ok(s')
    ensures Inv(b0, s')
  {
    match inv.call
    case Transfer(t, from, to, amount) => TransferKeeps(b0, s, inv.auth, t, from, to, amount, s');
    case Mint(t, to, amount) => MintKeeps(b0, s, t, to, amount, s');
    case AddOracle(_) => QuietKeeps(b0, s, s');
    case RemoveOracle(_) => QuietKeeps(b0, s, s');
    case Tick(_) => QuietKeeps(b0, s, s');
    case _ => EntrypointKeeps(b0, s, inv, s');
  }

  lemma ApplyKeeps(b0: Balances, s: State, inv: Invocation)
    requires Inv(b0, s) && s.vault !in inv.auth
    ensures Inv(b0, Apply(s, inv))
  {
    match Try(s, inv)
    case Ok(s') => TryKeeps(b0, s, inv, s');
    case Err(_) =>
  }
}
