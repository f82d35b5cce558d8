/**
A multi-token ledger and the journal of everything that ever moved on it.
Tokens are conserving ledgers: a transfer fails only on a negative amount or
an insufficient balance.
*/
module Ledger {
  import opened Sums

  type Address = string
  type Token = string
  type Balances = map<(Token, Address), int>

  /** Why tokens moved: the funding leg of an escrow intent, its settlement, or anything else. */
  datatype Memo = Funding(id: nat) | Settlement(id: nat) | Direct

  datatype Entry =
    | Moved(token: Token, from: Address, to: Address, amount: int, memo: Memo)
    | Minted(token: Token, to: Address, amount: int)

  function Balance(b: Balances, t: Token, a: Address): int {
    if (t, a) in b then b[(t, a)] else 0
  }

  ghost predicate NonNegative(b: Balances) {
    forall t, a :: 0 <= Balance(b, t, a)
  }

  predicate CanMove(b: Balances, t: Token, from: Address, amount: int) {
    0 <= amount <= Balance(b, t, from)
  }

  function Credit(b: Balances, t: Token, a: Address, amount: int): Balances {
    b[(t, a) := Balance(b, t, a) + amount]
  }

  /** Debit, then credit: the same address may be on both ends. */
  function Move(b: Balances, t: Token, from: Address, to: Address, amount: int): Balances {
    Credit(Credit(b, t, from, -amount), t, to, amount)
  }

  /** What an entry does to the balance of `a` in token `t`. */
  function Net(e: Entry, t: Token, a: Address): int {
    if e.token != t then 0
    else (if e.to == a then e.amount else 0) - (if e.Moved? && e.from == a then e.amount else 0)
  }

  function NetFlow(t: Token, a: Address): Entry -> int {
    (e: Entry) => Net(e, t, a)
  }

  function MintedIn(t: Token): Entry -> int {
    (e: Entry) => if e.Minted? && e.token == t then e.amount else 0
  }

  function HoldingIn(t: Token): ((Token, Address), int) -> int {
    (k: (Token, Address), v) => if k.0 == t then v else 0
  }

  /** Everything held in token `t`, over all addresses. */
  ghost function Supply(b: Balances, t: Token): int {
    Sum(b, HoldingIn(t))
  }

  lemma CreditEffect(b: Balances, t: Token, a: Address, amount: int)
    ensures forall t', a' :: Balance(Credit(b, t, a, amount), t', a')
                          == Balance(b, t', a') + (if t' == t && a' == a then amount else 0)
    ensures forall t' :: Supply(Credit(b, t, a, amount), t') == Supply(b, t') + (if t' == t then amount else 0)
  {
    forall t' ensures Supply(Credit(b, t, a, amount), t') == Supply(b, t') + (if t' == t then amount else 0) {
      SumUpdate(b, HoldingIn(t'), (t, a), Balance(b, t, a) + amount);
    }
  }

  /** A transfer moves exactly `amount` from one end to the other and creates or destroys nothing. */
  lemma MoveEffect(b: Balances, t: Token, from: Address, to: Address, amount: int, memo: Memo)
    ensures var b' := Move(b, t, from, to, amount);
            && (forall t', a' :: Balance(b', t', a') == Balance(b, t', a') + Net(Moved(t, from, to, amount, memo), t', a'))
            && (forall t' :: Supply(b', t') == Supply(b, t'))
    ensures NonNegative(b) && CanMove(b, t, from, amount) ==> NonNegative(Move(b, t, from, to, amount))
  {
    CreditEffect(b, t, from, -amount);
    CreditEffect(Credit(b, t, from, -amount), t, to, amount);
  }
}
