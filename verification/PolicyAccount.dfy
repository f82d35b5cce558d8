/**
The policy account: a smart account whose authorisation hook refuses every
invocation it has not been told to allow.  The signature check is a parameter,
since the account only relies on its verdict.
*/
module PolicyAccount {
  import opened Wrappers
  import opened Ledger

  datatype Val = AddressVal(address: Address) | I128Val(amount: int) | U64Val(number: nat) | BytesVal(bytes: string) | OtherVal

  /** One invocation the account is asked to authorise. */
  datatype Context = ContractCall(contract: Address, fnName: string, args: seq<Val>) | NonContract

  datatype Error =
    | FnNotAllowed
    | OverCap
    | SupplierNotApproved
    | BadSignature
    | InvalidArgs
    | RecipientNotAllowed

  datatype Account = Account(self: Address, owner: string, cap: int, escrow: Option<Address>, suppliers: set<Address>)

  datatype Signature = Signature(publicKey: string, bytes: string)

  /** A bad signature traps inside the host; the other refusals are typed. */
  datatype Verdict = Authorized | Denied(error: Error) | Trapped

  const CREATE_INTENT_SUPPLIER: nat := 1
  const CREATE_INTENT_AMOUNT: nat := 3
  const TRANSFER_TO: nat := 1
  const TRANSFER_AMOUNT: nat := 2

  const ADMIN_FUNCTIONS: set<string> := {"add_supplier", "remove_supplier", "set_cap", "set_escrow"}

  function AddressArg(args: seq<Val>, i: nat): Result<Address, Error> {
    if i < |args| && args[i].AddressVal? then Ok(args[i].address) else Err(InvalidArgs)
  }

  function AmountArg(args: seq<Val>, i: nat): Result<int, Error> {
    if i < |args| && args[i].I128Val? then Ok(args[i].amount) else Err(InvalidArgs)
  }

  function CapError(amount: Result<int, Error>, cap: int): Option<Error> {
    match amount
    case Err(e) => Some(e)
    case Ok(n) => if n < 0 then Some(InvalidArgs) else if n > cap then Some(OverCap) else None
  }

  /** The first reason, if any, to refuse `ctx`. */
  function ContextError(acct: Account, ctx: Context): Option<Error> {
    match ctx
    case NonContract => Some(FnNotAllowed)
    case ContractCall(contract, fnName, args) =>
      if contract == acct.self then
        if fnName in ADMIN_FUNCTIONS then None else Some(FnNotAllowed)
      else if fnName == "create_intent" then
        match AddressArg(args, CREATE_INTENT_SUPPLIER)
        case Err(e) => Some(e)
        case Ok(supplier) =>
          if supplier !in acct.suppliers then Some(SupplierNotApproved)
          else CapError(AmountArg(args, CREATE_INTENT_AMOUNT), acct.cap)
      else if fnName == "transfer" then
        if acct.escrow == None then Some(RecipientNotAllowed)
        else
          match AddressArg(args, TRANSFER_TO)
          case Err(e) => Some(e)
          case Ok(to) =>
            if to != acct.escrow.value then Some(RecipientNotAllowed)
            else CapError(AmountArg(args, TRANSFER_AMOUNT), acct.cap)
      else Some(FnNotAllowed)
  }

  ghost predicate AllAllowed(acct: Account, contexts: seq<Context>) {
    forall i :: 0 <= i < |contexts| ==> ContextError(acct, contexts[i]) == None
  }

  /** The contexts are all allowed, or `error` is the complaint about the first one that is not. */
  ghost predicate FirstError(acct: Account, contexts: seq<Context>, error: Option<Error>) {
    match error
    case None => AllAllowed(acct, contexts)
    case Some(e) =>
      exists i :: 0 <= i < |contexts| && AllAllowed(acct, contexts[..i]) && ContextError(acct, contexts[i]) == Some(e)
  }

  /** What a given combination of key, signature and contexts must be answered. */
  ghost predicate Answers(
    acct: Account, verify: (string, string, string) -> bool, payload: string, signature: Signature,
    contexts: seq<Context>, verdict: Verdict)
  {
    match verdict
    case Trapped => signature.publicKey == acct.owner && !verify(signature.publicKey, payload, signature.bytes)
    case Denied(e) =>
      if signature.publicKey != acct.owner then e == BadSignature
      else verify(signature.publicKey, payload, signature.bytes) && FirstError(acct, contexts, Some(e))
    case Authorized =>
      && signature.publicKey == acct.owner
      && verify(signature.publicKey, payload, signature.bytes)
      && AllAllowed(acct, contexts)
  }

  lemma PrefixAllowed(acct: Account, contexts: seq<Context>, i: nat, j: nat)
    requires i < j <= |contexts| && AllAllowed(acct, contexts[..j])
    ensures ContextError(acct, contexts[i]) == None
  {
    assert contexts[..j][i] == contexts[i];
  }

  /** The hook has exactly one right answer. */
  lemma AnswerUnique(
    acct: Account, verify: (string, string, string) -> bool, payload: string, signature: Signature,
    contexts: seq<Context>, v: Verdict, w: Verdict)
    requires Answers(acct, verify, payload, signature, contexts, v)
    requires Answers(acct, verify, payload, signature, contexts, w)
    ensures v == w
  {
    if v.Denied? && w.Denied? && signature.publicKey == acct.owner {
      var i :| 0 <= i < |contexts| && AllAllowed(acct, contexts[..i]) && ContextError(acct, contexts[i]) == Some(v.error);
      var j :| 0 <= j < |contexts| && AllAllowed(acct, contexts[..j]) && ContextError(acct, contexts[j]) == Some(w.error);
      if i < j {
        PrefixAllowed(acct, contexts, i, j);
      } else if j < i {
        PrefixAllowed(acct, contexts, j, i);
      }
    }
  }

  datatype AdminOp = AddSupplier(supplier: Address) | RemoveSupplier(supplier: Address) | SetCap(cap: int) | SetEscrow(escrow: Address)

  function Administer(acct: Account, op: AdminOp): Account {
    match op
    case AddSupplier(a) => acct.(suppliers := acct.suppliers + {a})
    case RemoveSupplier(a) => acct.(suppliers := acct.suppliers - {a})
    case SetCap(cap) => acct.(cap := cap)
    case SetEscrow(a) => acct.(escrow := Some(a))
  }

  /** Each setter does its one thing. */
  lemma AdministerExactly(acct: Account, a: Address, cap: int)
    ensures var added, removed := Administer(acct, AddSupplier(a)), Administer(acct, RemoveSupplier(a));
            && added.(suppliers := acct.suppliers) == acct == removed.(suppliers := acct.suppliers)
            && (forall b :: b in added.suppliers <==> b == a || b in acct.suppliers)
            && (forall b :: b in removed.suppliers <==> b != a && b in acct.suppliers)
    ensures Administer(acct, SetCap(cap)) == Account(acct.self, acct.owner, cap, acct.escrow, acct.suppliers)
    ensures Administer(acct, SetEscrow(a)) == Account(acct.self, acct.owner, acct.cap, Some(a), acct.suppliers)
  {
  }

  /** Of itself the account allows the four setters and nothing else. */
  lemma SelfCallExactly(acct: Account, fnName: string, args: seq<Val>)
    ensures ContextError(acct, ContractCall(acct.self, fnName, args)) ==
      if fnName == "add_supplier" || fnName == "remove_supplier" || fnName == "set_cap" || fnName == "set_escrow" then None
      else Some(FnNotAllowed)
  {
  }

  /** The complaint about an amount argument: absent or of another type, negative, or over the cap. */
  function AmountComplaint(args: seq<Val>, i: nat, cap: int): Option<Error> {
    if i >= |args| || !args[i].I128Val? || args[i].amount < 0 then Some(InvalidArgs)
    else if args[i].amount > cap then Some(OverCap)
    else None
  }

  /** Of other contracts it allows funding an approved supplier and paying the bound escrow, within the cap; each refusal has its reason. */
  lemma ForeignCallExactly(acct: Account, contract: Address, fnName: string, args: seq<Val>)
    requires contract != acct.self
    ensures fnName == "create_intent" ==>
      ContextError(acct, ContractCall(contract, fnName, args)) ==
        (if |args| < 2 || !args[1].AddressVal? then Some(InvalidArgs)
         else if args[1].address !in acct.suppliers then Some(SupplierNotApproved)
         else AmountComplaint(args, 3, acct.cap))
    ensures fnName == "transfer" ==>
      ContextError(acct, ContractCall(contract, fnName, args)) ==
        (if acct.escrow == None then Some(RecipientNotAllowed)
         else if |args| < 2 || !args[1].AddressVal? then Some(InvalidArgs)
         else if args[1].address != acct.escrow.value then Some(RecipientNotAllowed)
         else AmountComplaint(args, 2, acct.cap))
    ensures fnName != "create_intent" && fnName != "transfer" ==>
      ContextError(acct, ContractCall(contract, fnName, args)) == Some(FnNotAllowed)
    ensures ContextError(acct, NonContract) == Some(FnNotAllowed)
  {
  }

  class PolicyAccountContract {
    const self: Address
    var owner: string
    var cap: int
    var escrow: Option<Address>
    var suppliers: set<Address>

    function View(): Account
      reads this
    {
      Account(self, owner, cap, escrow, suppliers)
    }

    constructor (self: Address, owner: string, capPerTx: int)
      ensures View() == Account(self, owner, capPerTx, None, {})
    {
      this.self := self;
      this.owner := owner;
      cap := capPerTx;
      escrow := None;
      suppliers := {};
    }

    /** Every setter demands the account's own authorisation; without it nothing changes. */
    method AddSupplier(auth: set<Address>, supplier: Address) returns (ok: bool)
      modifies this
      ensures ok == (self in auth)
      ensures View() == if ok then Administer(old(View()), AdminOp.AddSupplier(supplier)) else old(View())
      ensures forall a :: a in suppliers <==> a in old(suppliers) || (ok && a == supplier)
      ensures owner == old(owner) && cap == old(cap) && escrow == old(escrow)
    {
      ok := self in auth;
      if ok { suppliers := suppliers + {supplier}; }
    }

    method RemoveSupplier(auth: set<Address>, supplier: Address) returns (ok: bool)
      modifies this
      ensures ok == (self in auth)
      ensures View() == if ok then Administer(old(View()), AdminOp.RemoveSupplier(supplier)) else old(View())
      ensures forall a :: a in suppliers <==> a in old(suppliers) && !(ok && a == supplier)
      ensures owner == old(owner) && cap == old(cap) && escrow == old(escrow)
    {
      ok := self in auth;
      if ok { suppliers := suppliers - {supplier}; }
    }

    method SetCap(auth: set<Address>, capPerTx: int) returns (ok: bool)
      modifies this
      ensures ok == (self in auth)
      ensures View() == if ok then Administer(old(View()), AdminOp.SetCap(capPerTx)) else old(View())
      ensures cap == (if ok then capPerTx else old(cap))
      ensures owner == old(owner) && suppliers == old(suppliers) && escrow == old(escrow)
    {
      ok := self in auth;
      if ok { cap := capPerTx; }
    }

    method SetEscrow(auth: set<Address>, address: Address) returns (ok: bool)
      modifies this
      ensures ok == (self in auth)
      ensures View() == if ok then Administer(old(View()), AdminOp.SetEscrow(address)) else old(View())
      ensures escrow == (if ok then Some(address) else old(escrow))
      ensures owner == old(owner) && suppliers == old(suppliers) && cap == old(cap)
    {
      ok := self in auth;
      if ok { escrow := Some(address); }
    }

    /** The authorisation hook: key, signature, then each context in turn. */
    method CheckAuth(
      verify: (string, string, string) -> bool, payload: string, signature: Signature, contexts: seq<Context>)
      returns (verdict: Verdict)
      ensures Answers(View(), verify, payload, signature, contexts, verdict)
      ensures verdict.Authorized? <==>
        && signature.publicKey == owner && verify(signature.publicKey, payload, signature.bytes)
        && forall i :: 0 <= i < |contexts| ==> ContextError(View(), contexts[i]) == None
      ensures signature.publicKey != owner ==> verdict == Denied(BadSignature)
      ensures signature.publicKey == owner && !verify(signature.publicKey, payload, signature.bytes) ==> verdict == Trapped
      ensures signature.publicKey == owner && verdict.Denied? ==>
        exists i :: 0 <= i < |contexts| && ContextError(View(), contexts[i]) == Some(verdict.error)
          && forall j :: 0 <= j < i ==> ContextError(View(), contexts[j]) == None
    {
      if signature.publicKey != owner { return Denied(BadSignature); }
      if !verify(signature.publicKey, payload, signature.bytes) { return Trapped; }
      for i := 0 to |contexts|
        invariant AllAllowed(View(), contexts[..i])
      {
        var error := ContextError(View(), contexts[i]);
        if error.Some? {
          assert FirstError(View(), contexts, error);
          forall j | 0 <= j < i ensures ContextError(View(), contexts[j]) == None { PrefixAllowed(View(), contexts, j, i); }
          return Denied(error.value);
        }
      }
      assert contexts[..|contexts|] == contexts;
      return Authorized;
    }
  }
}
