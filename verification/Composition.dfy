/**
The policy account, the escrow and the tokens as one system: where the
account's money can go over a whole run in which the account's owner key signs
anything whatever and everybody else does what they like.
*/
module Composition {
  import opened Wrappers
  import opened Sums
  import opened Ledger
  import Escrow
  import EscrowRuns
  import EscrowTheorems
  import opened PolicyAccount

  datatype World = World(escrow: Escrow.State, account: Account)

  /** What an owner-signed transaction may try to make the account do. */
  datatype Action =
    // the bound escrow's create_intent with the account as sme, and the funding transfer nested in it
    | Fund(supplier: Address, token: Token, amount: int, requestHash: string, deadline: nat)
    // a token transfer out of the account, asked for directly or by some other contract
    | Pay(token: Token, to: Address, amount: int)
    // any other token function, which may leave the account with any balance
    | TokenCall(token: Token, fnName: string, args: seq<Val>, leaves: int)
    | Admin(op: AdminOp)

  /** The account submits actions under one signature, or somebody else acts. */
  datatype Step =
    | Signed(payload: string, signature: Signature, actions: seq<Action>)
    | Outside(inv: Escrow.Invocation)

  function AdminName(op: AdminOp): string {
    match op
    case AddSupplier(_) => "add_supplier"
    case RemoveSupplier(_) => "remove_supplier"
    case SetCap(_) => "set_cap"
    case SetEscrow(_) => "set_escrow"
  }

  /** The authorisations the host asks the account for. */
  function Contexts(w: World, a: Action): seq<Context> {
    match a
    case Fund(supplier, token, amount, requestHash, deadline) =>
      [ContractCall(w.escrow.vault, "create_intent",
                    [AddressVal(w.account.self), AddressVal(supplier), AddressVal(token), I128Val(amount),
                     BytesVal(requestHash), U64Val(deadline)]),
       ContractCall(token, "transfer", [AddressVal(w.account.self), AddressVal(w.escrow.vault), I128Val(amount)])]
    case Pay(token, to, amount) =>
      [ContractCall(token, "transfer", [AddressVal(w.account.self), AddressVal(to), I128Val(amount)])]
    case TokenCall(token, fnName, args, _) => [ContractCall(token, fnName, args)]
    case Admin(op) => [ContractCall(w.account.self, AdminName(op), [])]
  }

  function AllContexts(w: World, actions: seq<Action>): seq<Context> {
    if actions == [] then [] else Contexts(w, actions[0]) + AllContexts(w, actions[1..])
  }

  /** An administrative action is a call of the account to itself, by the setter's name. */
  lemma AdminAsks(w: World, op: AdminOp)
    ensures var asked := Contexts(w, Admin(op));
            && |asked| == 1 && asked[0] == ContractCall(w.account.self, asked[0].fnName, [])
            && (asked[0].fnName == "add_supplier" <==> op.AddSupplier?)
            && (asked[0].fnName == "remove_supplier" <==> op.RemoveSupplier?)
            && (asked[0].fnName == "set_cap" <==> op.SetCap?) && (asked[0].fnName == "set_escrow" <==> op.SetEscrow?)
  {
    assert |"add_supplier"| == 12 && |"remove_supplier"| == 15 && |"set_cap"| == 7 && |"set_escrow"| == 10;
  }

  /** Tokens are contracts other than the account and the escrow, and create no intents. */
  predicate WellFormed(w: World, a: Action) {
    match a
    case Fund(_, token, _, _, _) => token != w.account.self
    case Pay(token, _, _) => token != w.account.self
    case TokenCall(token, fnName, _, _) => token != w.account.self && fnName != "transfer" && fnName != "create_intent"
    case Admin(_) => true
  }

  /** The effect of an authorised action, or an error that rolls the transaction back. */
  function Perform(w: World, a: Action): Result<World, Escrow.Error> {
    match a
    case Fund(supplier, token, amount, requestHash, deadline) =>
      (match Escrow.TryCreate(w.escrow, {w.account.self}, w.account.self, supplier, token, amount, requestHash, deadline)
       case Ok(s) => Ok(w.(escrow := s))
       case Err(e) => Err(e))
    case Pay(token, to, amount) =>
      (match Escrow.TryTransfer(w.escrow, {w.account.self}, token, w.account.self, to, amount)
       case Ok(s) => Ok(w.(escrow := s))
       case Err(e) => Err(e))
    case TokenCall(token, _, _, leaves) =>
      Ok(w.(escrow := w.escrow.(balances := w.escrow.balances[(token, w.account.self) := leaves])))
    case Admin(op) => Ok(w.(account := Administer(w.account, op)))
  }

  function PerformAll(w: World, actions: seq<Action>): Result<World, Escrow.Error>
    decreases |actions|
  {
    if actions == [] then Ok(w)
    else
      match Perform(w, actions[0])
      case Ok(w') => PerformAll(w', actions[1..])
      case Err(e) => Err(e)
  }

  ghost predicate Authorizes(verify: (string, string, string) -> bool, w: World, step: Step)
    requires step.Signed?
  {
    Answers(w.account, verify, step.payload, step.signature, AllContexts(w, step.actions), Authorized)
  }

  /** A refused or failed transaction changes nothing. */
  ghost function Do(verify: (string, string, string) -> bool, w: World, step: Step): World {
    match step
    case Outside(inv) => w.(escrow := Escrow.Apply(w.escrow, inv))
    case Signed(_, _, actions) =>
      if !Authorizes(verify, w, step) then w
      else
        match PerformAll(w, actions)
        case Ok(w') => w'
        case Err(_) => w
  }

  ghost function Run(verify: (string, string, string) -> bool, w: World, steps: seq<Step>): World {
    if steps == [] then w else Do(verify, Run(verify, w, steps[..|steps| - 1]), steps[|steps| - 1])
  }

  /** Nobody else signs for the account or the vault, and the escrow binding is left alone. */
  ghost predicate Allowed(w: World, step: Step) {
    match step
    case Outside(inv) => w.escrow.vault !in inv.auth && w.account.self !in inv.auth
    case Signed(_, _, actions) =>
      forall i :: 0 <= i < |actions| ==>
        WellFormed(w, actions[i]) && (actions[i].Admin? ==> !actions[i].op.SetEscrow?)
  }

  ghost predicate AllAllowedSteps(w: World, steps: seq<Step>) {
    forall i :: 0 <= i < |steps| ==> Allowed(w, steps[i])
  }

  // ---- The account's books ----

  function OwnIn(self: Address, t: Token, status: Escrow.Status): (nat, Escrow.Intent) -> int {
    (i: nat, x: Escrow.Intent) => if x.sme == self && x.token == t && x.status == status then x.amount else 0
  }

  /** Intents that were released to the account as their supplier. */
  function EarnedIn(self: Address, t: Token): (nat, Escrow.Intent) -> int {
    (i: nat, x: Escrow.Intent) => if x.supplier == self && x.token == t && x.status == Escrow.Released then x.amount else 0
  }

  function DepositIn(self: Address, t: Token): Entry -> int {
    (e: Entry) => if e.token == t && e.to == self && !(e.Moved? && e.memo.Settlement?) then e.amount else 0
  }

  function DirectIn(self: Address, vault: Address, t: Token): Entry -> int {
    (e: Entry) => if e.Moved? && e.token == t && e.from == self && e.to == vault && e.memo == Direct then e.amount else 0
  }

  ghost function Own(w: World, t: Token, status: Escrow.Status): int {
    Sum(w.escrow.intents, OwnIn(w.account.self, t, status))
  }

  ghost function Earned(w: World, t: Token): int {
    Sum(w.escrow.intents, EarnedIn(w.account.self, t))
  }

  ghost function Deposits(w: World, t: Token): int {
    SumSeq(w.escrow.journal, DepositIn(w.account.self, t))
  }

  ghost function DirectToVault(w: World, t: Token): int {
    SumSeq(w.escrow.journal, DirectIn(w.account.self, w.escrow.vault, t))
  }

  /** Every unit the account ever had is on hand, in an open intent, paid out by a release, or given to the vault. */
  ghost predicate BooksBalance(b0: Balances, w: World, t: Token) {
    Balance(w.escrow.balances, t, w.account.self)
      + Own(w, t, Escrow.Funded) + Own(w, t, Escrow.Released) + DirectToVault(w, t)
    == Balance(b0, t, w.account.self) + Deposits(w, t) + Earned(w, t)
  }

  ghost predicate PaysOnlyVault(w: World) {
    forall e :: e in w.escrow.journal && e.Moved? && e.from == w.account.self ==> e.to == w.escrow.vault
  }

  ghost predicate Inv(b0: Balances, w: World) {
    && EscrowRuns.Inv(b0, w.escrow)
    && w.account.self != w.escrow.vault
    && w.account.escrow == Some(w.escrow.vault)
    && (forall t :: BooksBalance(b0, w, t))
    && PaysOnlyVault(w)
  }

  // ---- One escrow step keeps the books, if the account only pays the vault ----

  function Change(w: World, weight: (nat, Escrow.Intent) -> int, id: nat, x: Escrow.Intent): int {
    weight(id, x) - (if id in w.escrow.intents then weight(id, w.escrow.intents[id]) else 0)
  }

  /** An entry together with the write of intent `id`. */
  lemma BooksKept(b0: Balances, w: World, s': Escrow.State, e: Entry, id: nat, x: Escrow.Intent, t: Token)
    requires BooksBalance(b0, w, t)
    requires s'.vault == w.escrow.vault && s'.journal == w.escrow.journal + [e] && s'.intents == w.escrow.intents[id := x]
    requires Balance(s'.balances, t, w.account.self)
          == Balance(w.escrow.balances, t, w.account.self) + Net(e, t, w.account.self)
    requires var self := w.account.self;
             Net(e, t, self)
               + Change(w, OwnIn(self, t, Escrow.Funded), id, x) + Change(w, OwnIn(self, t, Escrow.Released), id, x)
               + DirectIn(self, w.escrow.vault, t)(e)
             == DepositIn(self, t)(e) + Change(w, EarnedIn(self, t), id, x)
    ensures BooksBalance(b0, w.(escrow := s'), t)
  {
    var self := w.account.self;
    SumUpdate(w.escrow.intents, OwnIn(self, t, Escrow.Funded), id, x);
    SumUpdate(w.escrow.intents, OwnIn(self, t, Escrow.Released), id, x);
    SumUpdate(w.escrow.intents, EarnedIn(self, t), id, x);
    SumSeqAppend(w.escrow.journal, e, DepositIn(self, t));
    SumSeqAppend(w.escrow.journal, e, DirectIn(self, w.escrow.vault, t));
  }

  lemma BooksKeptAside(b0: Balances, w: World, s': Escrow.State, e: Entry, t: Token)
    requires BooksBalance(b0, w, t)
    requires s'.vault == w.escrow.vault && s'.journal == w.escrow.journal + [e] && s'.intents == w.escrow.intents
    requires Balance(s'.balances, t, w.account.self)
          == Balance(w.escrow.balances, t, w.account.self) + Net(e, t, w.account.self)
    requires Net(e, t, w.account.self) + DirectIn(w.account.self, w.escrow.vault, t)(e) == DepositIn(w.account.self, t)(e)
    ensures BooksBalance(b0, w.(escrow := s'), t)
  {
    SumSeqAppend(w.escrow.journal, e, DepositIn(w.account.self, t));
    SumSeqAppend(w.escrow.journal, e, DirectIn(w.account.self, w.escrow.vault, t));
  }

  /** The transfers that may appear: the account pays nobody but the vault. */
  predicate OnlyPaysVault(w: World, inv: Escrow.Invocation) {
    inv.call.Transfer? && inv.call.from == w.account.self && w.account.self in inv.auth ==> inv.call.to == w.escrow.vault
  }

  ghost predicate Separate(w: World) {
    EscrowRuns.TableInv(w.escrow) && w.account.self != w.escrow.vault
  }

  lemma CreateKeepsBooks(b0: Balances, w: World, inv: Escrow.Invocation, s': Escrow.State, t: Token)
    requires Separate(w) && BooksBalance(b0, w, t)
    requires inv.call.CreateIntent? && w.escrow.vault !in inv.auth && Escrow.Try(w.escrow, inv) == Ok(s')
    ensures BooksBalance(b0, w.(escrow := s'), t)
  {
    var c, id := inv.call, s'.counter;
    MoveEffect(w.escrow.balances, c.token, c.sme, w.escrow.vault, c.amount, Funding(id));
    BooksKept(b0, w, s', Moved(c.token, c.sme, w.escrow.vault, c.amount, Funding(id)), id, s'.intents[id], t);
  }

  lemma {:induction false} SettlementKeepsBooks(
    b0: Balances, w: World, id: nat, to: Address, status: Escrow.Status, s': Escrow.State, t: Token)
    requires Separate(w) && BooksBalance(b0, w, t)
    requires id in w.escrow.intents && w.escrow.intents[id].status == Escrow.Funded && status != Escrow.Funded
    requires to == if status == Escrow.Released then w.escrow.intents[id].supplier else w.escrow.intents[id].sme
    requires Escrow.PayOut(w.escrow, id, to, status) == Ok(s')
    ensures BooksBalance(b0, w.(escrow := s'), t)
  {
    var x := w.escrow.intents[id];
    MoveEffect(w.escrow.balances, x.token, w.escrow.vault, to, x.amount, Settlement(id));
    BooksKept(b0, w, s', Moved(x.token, w.escrow.vault, to, x.amount, Settlement(id)), id, s'.intents[id], t);
  }

  lemma AttestKeepsBooks(b0: Balances, w: World, inv: Escrow.Invocation, s': Escrow.State, t: Token)
    requires BooksBalance(b0, w, t) && inv.call.Attest? && Escrow.Try(w.escrow, inv) == Ok(s')
    ensures BooksBalance(b0, w.(escrow := s'), t)
  {
    var id, self, x := inv.call.id, w.account.self, s'.intents[inv.call.id];
    assert s'.intents == w.escrow.intents[id := x];
    SumUpdate(w.escrow.intents, OwnIn(self, t, Escrow.Funded), id, x);
    SumUpdate(w.escrow.intents, OwnIn(self, t, Escrow.Released), id, x);
    SumUpdate(w.escrow.intents, EarnedIn(self, t), id, x);
  }

  lemma AsideKeepsBooks(b0: Balances, w: World, inv: Escrow.Invocation, s': Escrow.State, t: Token)
    requires Separate(w) && BooksBalance(b0, w, t)
    requires (inv.call.Transfer? || inv.call.Mint?) && Escrow.Try(w.escrow, inv) == Ok(s')
    requires w.escrow.vault !in inv.auth && OnlyPaysVault(w, inv)
    ensures BooksBalance(b0, w.(escrow := s'), t)
  {
    var c := inv.call;
    if c.Transfer? {
      MoveEffect(w.escrow.balances, c.token, c.from, c.to, c.amount, Direct);
      BooksKeptAside(b0, w, s', Moved(c.token, c.from, c.to, c.amount, Direct), t);
    } else {
      CreditEffect(w.escrow.balances, c.token, c.to, c.amount);
      BooksKeptAside(b0, w, s', Minted(c.token, c.to, c.amount), t);
    }
  }

  lemma TryKeepsBooks(b0: Balances, w: World, inv: Escrow.Invocation, s': Escrow.State, t: Token)
    requires Separate(w) && BooksBalance(b0, w, t) && Escrow.Try(w.escrow, inv) == Ok(s')
    requires w.escrow.vault !in inv.auth && OnlyPaysVault(w, inv)
    ensures BooksBalance(b0, w.(escrow := s'), t)
  {
    match inv.call
    case CreateIntent(_, _, _, _, _, _) => CreateKeepsBooks(b0, w, inv, s', t);
    case Release(id) => SettlementKeepsBooks(b0, w, id, w.escrow.intents[id].supplier, Escrow.Released, s', t);
    case Refund(id) => SettlementKeepsBooks(b0, w, id, w.escrow.intents[id].sme, Escrow.Refunded, s', t);
    case Attest(_, _, _) => AttestKeepsBooks(b0, w, inv, s', t);
    case Transfer(_, _, _, _) => AsideKeepsBooks(b0, w, inv, s', t);
    case Mint(_, _, _) => AsideKeepsBooks(b0, w, inv, s', t);
    case AddOracle(_) =>
    case RemoveOracle(_) =>
    case Tick(_) =>
  }

  lemma TryOutflow(w: World, inv: Escrow.Invocation, s': Escrow.State)
    requires Separate(w) && Escrow.Try(w.escrow, inv) == Ok(s')
    requires w.escrow.vault !in inv.auth && OnlyPaysVault(w, inv)
    requires PaysOnlyVault(w)
    ensures PaysOnlyVault(w.(escrow := s'))
  {
    match inv.call
    case Release(id) =>
    case Refund(id) =>
    case _ =>
  }

  lemma ApplyKeepsBooks(b0: Balances, w: World, inv: Escrow.Invocation)
    requires Separate(w) && PaysOnlyVault(w) && (forall t :: BooksBalance(b0, w, t))
    requires w.escrow.vault !in inv.auth && OnlyPaysVault(w, inv)
    ensures var w' := w.(escrow := Escrow.Apply(w.escrow, inv));
            PaysOnlyVault(w') && forall t :: BooksBalance(b0, w', t)
  {
    match Escrow.Try(w.escrow, inv)
    case Err(_) =>
    case Ok(s') =>
      TryOutflow(w, inv, s');
      forall t ensures BooksBalance(b0, w.(escrow := s'), t) {
        TryKeepsBooks(b0, w, inv, s', t);
      }
  }

  lemma EscrowStepKeeps(b0: Balances, w: World, inv: Escrow.Invocation, w': World)
    requires Inv(b0, w) && w.escrow.vault !in inv.auth && OnlyPaysVault(w, inv)
    requires w' == w.(escrow := Escrow.Apply(w.escrow, inv))
    ensures Inv(b0, w')
  {
    EscrowRuns.ApplyKeeps(b0, w.escrow, inv);
    ApplyKeepsBooks(b0, w, inv);
    assert w'.escrow.vault == w.escrow.vault by {
      EscrowTheorems.ApplyEvolves(w.escrow, inv);
    }
  }

  // ---- Signed transactions ----

  predicate ActionAllowed(w: World, a: Action) {
    forall c :: c in Contexts(w, a) ==> ContextError(w.account, c) == None
  }

  lemma {:induction false} ContextsOfEach(w: World, actions: seq<Action>)
    requires AllAllowed(w.account, AllContexts(w, actions))
    ensures forall i :: 0 <= i < |actions| ==> ActionAllowed(w, actions[i])
  {
    if actions != [] {
      var here, rest := Contexts(w, actions[0]), AllContexts(w, actions[1..]);
      forall c | c in here ensures ContextError(w.account, c) == None {
        var k :| 0 <= k < |here| && here[k] == c;
        assert (here + rest)[k] == c;
      }
      forall k | 0 <= k < |rest| ensures ContextError(w.account, rest[k]) == None {
        assert (here + rest)[|here| + k] == rest[k];
      }
      ContextsOfEach(w, actions[1..]);
    }
  }

  /** What authorisation under `acct` lets a step add to the world: capped funding of approved suppliers. */
  ghost predicate Within(acct: Account, w: World, w': World) {
    && w'.escrow.vault == w.escrow.vault && w'.account.self == w.account.self
    && w.escrow.journal <= w'.escrow.journal
    && (forall j :: |w.escrow.journal| <= j < |w'.escrow.journal| ==> MoveWithin(acct, w.escrow.vault, w'.escrow.journal[j]))
    && (forall i :: i in w.escrow.intents ==>
          i in w'.escrow.intents && EscrowTheorems.SameCreation(w.escrow.intents[i], w'.escrow.intents[i]))
    && (forall i :: i in w'.escrow.intents && i !in w.escrow.intents ==> IntentWithin(acct, w'.escrow.intents[i]))
  }

  predicate MoveWithin(acct: Account, vault: Address, e: Entry) {
    e.Moved? && e.from == acct.self ==> e.to == vault && 0 <= e.amount <= acct.cap
  }

  predicate IntentWithin(acct: Account, x: Escrow.Intent) {
    x.sme == acct.self ==> x.supplier in acct.suppliers && x.amount <= acct.cap
  }

  lemma WithinTransitive(acct: Account, a: World, b: World, c: World)
    requires Within(acct, a, b) && Within(acct, b, c)
    ensures Within(acct, a, c)
  {
    forall j | |a.escrow.journal| <= j < |c.escrow.journal| ensures MoveWithin(acct, a.escrow.vault, c.escrow.journal[j]) {
      if j < |b.escrow.journal| {
        assert b.escrow.journal[j] == c.escrow.journal[j];
      }
    }
    forall i | i in c.escrow.intents && i !in a.escrow.intents ensures IntentWithin(acct, c.escrow.intents[i]) {
      assert i in b.escrow.intents ==> IntentWithin(acct, b.escrow.intents[i]);
    }
  }

  lemma EntryWithin(acct: Account, w: World, w': World, e: Entry)
    requires w'.escrow.vault == w.escrow.vault && w'.account.self == w.account.self
    requires w'.escrow.journal == w.escrow.journal + [e] && MoveWithin(acct, w.escrow.vault, e)
    requires forall i :: i in w.escrow.intents ==>
               i in w'.escrow.intents && EscrowTheorems.SameCreation(w.escrow.intents[i], w'.escrow.intents[i])
    requires forall i :: i in w'.escrow.intents && i !in w.escrow.intents ==> IntentWithin(acct, w'.escrow.intents[i])
    ensures Within(acct, w, w')
  {
  }

  /** Nobody but the account can add to what it is answerable for. */
  lemma {:induction false} OutsideWithin(acct: Account, w: World, inv: Escrow.Invocation, s': Escrow.State)
    requires Separate(w) && acct.self == w.account.self
    requires w.account.self !in inv.auth && Escrow.Try(w.escrow, inv) == Ok(s')
    ensures Within(acct, w, w.(escrow := s'))
  {
    var v, c, w' := w.escrow.vault, inv.call, w.(escrow := s');
    EscrowTheorems.TryEvolves(w.escrow, inv, s');
    match c
    case CreateIntent(_, _, _, _, _, _) => EntryWithin(acct, w, w', Moved(c.token, c.sme, v, c.amount, Funding(s'.counter)));
    case Release(id) =>
      var x := w.escrow.intents[id];
      EntryWithin(acct, w, w', Moved(x.token, v, x.supplier, x.amount, Settlement(id)));
    case Refund(id) =>
      var x := w.escrow.intents[id];
      EntryWithin(acct, w, w', Moved(x.token, v, x.sme, x.amount, Settlement(id)));
    case Transfer(t, from, to, amount) => EntryWithin(acct, w, w', Moved(t, from, to, amount, Direct));
    case Mint(t, to, amount) => EntryWithin(acct, w, w', Minted(t, to, amount));
    case _ =>
  }

  /** The two payments an authorised transaction can make are within policy. */
  lemma PaymentWithin(w0: World, w: World, a: Action, w': World)
    requires Separate(w) && w0.account.self == w.account.self && w0.escrow.vault == w.escrow.vault
    requires w0.account.escrow == Some(w0.escrow.vault) && (a.Fund? || a.Pay?)
    requires WellFormed(w0, a) && ActionAllowed(w0, a) && Perform(w, a) == Ok(w')
    ensures Within(w0.account, w, w') && (a.Pay? ==> a.to == w.escrow.vault)
  {
    assert ContextError(w0.account, Contexts(w0, a)[0]) == None;
    if a.Fund? {
      EntryWithin(w0.account, w, w', Moved(a.token, w.account.self, w.escrow.vault, a.amount, Funding(w'.escrow.counter)));
    } else {
      EntryWithin(w0.account, w, w', Moved(a.token, w.account.self, a.to, a.amount, Direct));
    }
  }

  lemma PaymentKeeps(b0: Balances, w0: World, w: World, a: Action, w': World)
    requires Inv(b0, w) && w0.account.self == w.account.self && w0.escrow.vault == w.escrow.vault
    requires w0.account.escrow == Some(w0.escrow.vault) && (a.Fund? || a.Pay?)
    requires WellFormed(w0, a) && ActionAllowed(w0, a) && Perform(w, a) == Ok(w')
    ensures Inv(b0, w') && Within(w0.account, w, w')
  {
    PaymentWithin(w0, w, a, w');
    var call := if a.Fund? then Escrow.CreateIntent(w.account.self, a.supplier, a.token, a.amount, a.requestHash, a.deadline)
                else Escrow.Transfer(a.token, w.account.self, a.to, a.amount);
    EscrowStepKeeps(b0, w, Escrow.Invocation({w.account.self}, call), w');
  }

  /** Approvals, burns, mints and anything else a token may offer are refused outright. */
  lemma TokenCallRefused(w: World, a: Action)
    requires a.TokenCall? && WellFormed(w, a)
    ensures !ActionAllowed(w, a)
  {
    assert ContextError(w.account, Contexts(w, a)[0]) == Some(FnNotAllowed);
  }

  lemma PerformKeeps(b0: Balances, w0: World, w: World, a: Action, w': World)
    requires Inv(b0, w) && w0.account.self == w.account.self && w0.escrow.vault == w.escrow.vault
    requires w0.account.escrow == Some(w0.escrow.vault)
    requires WellFormed(w0, a) && ActionAllowed(w0, a) && (a.Admin? ==> !a.op.SetEscrow?)
    requires Perform(w, a) == Ok(w')
    ensures Inv(b0, w') && Within(w0.account, w, w')
  {
    match a
    case Fund(_, _, _, _, _) => PaymentKeeps(b0, w0, w, a, w');
    case Pay(_, _, _) => PaymentKeeps(b0, w0, w, a, w');
    case TokenCall(_, _, _, _) =>
      TokenCallRefused(w0, a);
      assert false;
    case Admin(_) =>
      assert forall t :: BooksBalance(b0, w, t) ==> BooksBalance(b0, w', t);
  }

  lemma {:induction false} PerformAllKeeps(b0: Balances, w0: World, w: World, actions: seq<Action>, w': World)
    requires Inv(b0, w) && w0.account.self == w.account.self && w0.escrow.vault == w.escrow.vault
    requires w0.account.escrow == Some(w0.escrow.vault)
    requires forall i :: 0 <= i < |actions| ==> WellFormed(w0, actions[i]) && ActionAllowed(w0, actions[i])
    requires forall i :: 0 <= i < |actions| && actions[i].Admin? ==> !actions[i].op.SetEscrow?
    requires PerformAll(w, actions) == Ok(w')
    ensures Inv(b0, w') && Within(w0.account, w, w')
    decreases |actions|
  {
    if actions != [] {
      var mid := Perform(w, actions[0]).value;
      PerformKeeps(b0, w0, w, actions[0], mid);
      PerformAllKeeps(b0, w0, mid, actions[1..], w');
      WithinTransitive(w0.account, w, mid, w');
    }
  }

  lemma DoKeeps(verify: (string, string, string) -> bool, b0: Balances, w: World, step: Step)
    requires Inv(b0, w) && Allowed(w, step)
    ensures Inv(b0, Do(verify, w, step)) && Within(w.account, w, Do(verify, w, step))
  {
    match step
    case Outside(inv) =>
      EscrowStepKeeps(b0, w, inv, Do(verify, w, step));
      if Escrow.Try(w.escrow, inv).Ok? {
        OutsideWithin(w.account, w, inv, Escrow.Try(w.escrow, inv).value);
      }
    case Signed(_, _, actions) =>
      if Authorizes(verify, w, step) && PerformAll(w, actions).Ok? {
        ContextsOfEach(w, actions);
        PerformAllKeeps(b0, w, w, actions, PerformAll(w, actions).value);
      }
  }

  ghost function Start(vault: Address, admin: Address, b0: Balances, now: nat, account: Account): World {
    World(Escrow.Init(vault, admin, b0, now), account)
  }

  lemma StartInv(vault: Address, admin: Address, b0: Balances, now: nat, account: Account)
    requires NonNegative(b0) && account.self != vault && account.escrow == Some(vault)
    ensures Inv(b0, Start(vault, admin, b0, now, account))
  {
    EscrowTheorems.InitInv(vault, admin, b0, now);
  }

  lemma {:induction false} RunKeeps(verify: (string, string, string) -> bool, b0: Balances, w: World, steps: seq<Step>)
    requires Inv(b0, w) && AllAllowedSteps(w, steps)
    ensures var r := Run(verify, w, steps);
            Inv(b0, r) && r.escrow.vault == w.escrow.vault && r.account.self == w.account.self
  {
    if steps != [] {
      var front := steps[..|steps| - 1];
      RunKeeps(verify, b0, w, front);
      assert Allowed(w, steps[|steps| - 1]);
      DoKeeps(verify, b0, Run(verify, w, front), steps[|steps| - 1]);
    }
  }

  /**
  Over any run in which the owner key may sign anything and everybody else acts
  freely: whatever leaves the account goes to the bound escrow, each step moves
  at most the cap in force when it began and funds only suppliers approved
  then, and in every token the account's money is accounted for to the unit.
  */
  lemma {:induction false} AccountMoneyOnlyToEscrow(
    verify: (string, string, string) -> bool, vault: Address, admin: Address, b0: Balances, now: nat,
    account: Account, steps: seq<Step>)
    requires NonNegative(b0) && account.self != vault && account.escrow == Some(vault)
    requires AllAllowedSteps(Start(vault, admin, b0, now, account), steps)
    ensures var w := Start(vault, admin, b0, now, account);
            var r := Run(verify, w, steps);
            && (forall e :: e in r.escrow.journal && e.Moved? && e.from == account.self ==> e.to == vault)
            && (forall t :: BooksBalance(b0, r, t))
            && (forall n :: 0 <= n < |steps| ==>
                  var before, after := Run(verify, w, steps[..n]), Run(verify, w, steps[..n + 1]);
                  Within(before.account, before, after))
  {
    var w := Start(vault, admin, b0, now, account);
    StartInv(vault, admin, b0, now, account);
    RunKeeps(verify, b0, w, steps);
    forall n | 0 <= n < |steps|
      ensures Within(Run(verify, w, steps[..n]).account, Run(verify, w, steps[..n]), Run(verify, w, steps[..n + 1]))
    {
      RunKeeps(verify, b0, w, steps[..n]);
      assert steps[..n + 1][..n] == steps[..n];
      assert Allowed(w, steps[n]);
      DoKeeps(verify, b0, Run(verify, w, steps[..n]), steps[n]);
    }
  }
}
