/**
The repository object over the local database: every method is one committed
change, proved against the pure operation of the same name on the whole
database, so the table it does not write is the table it found.  The log tables refer to
the intents table by a foreign key.
*/
module Repository {
  import opened Engine
  import opened Ledger
  import opened LocalDb
  import opened Sums
  import opened Wrappers
  import Escrow

  datatype Rules = Rules(sme: Address, token: Token, capPerTx: int, capDaily: int)

  datatype Draft = Draft(
    requestHash: string, supplier: Address, token: Token, amount: int, deadline: nat, invoiceRef: Option<string>)

  datatype RecordError = DraftMissing | IntentMissing | UnexpectedIntent | UniqueViolation | ForeignKeyViolation

  function RowOf(draft: Draft, status: Status, day: nat): Row {
    Row(draft.requestHash, draft.supplier, draft.token, draft.amount, draft.deadline, draft.invoiceRef, day, status, None)
  }

  /** What recording a decision does to the database, or the error that leaves it as it was. */
  ghost function TryRecord(
    db: Db, kind: DecisionKind, codes: seq<string>, requestHash: string,
    draft: Option<Draft>, r: Option<RowId>, newId: RowId, day: nat): Result<Db, RecordError>
  {
    if (kind.WasProposed? || kind.WasHeld?) && draft == None then Err(DraftMissing)
    else if (kind.Approved? || kind.WasReverted?) && r == None then Err(IntentMissing)
    else if kind.Refused? && (draft.Some? || r.Some?) then Err(UnexpectedIntent)
    else if (kind.Approved? || kind.WasReverted?) && r.value !in db.rows then Err(ForeignKeyViolation)
    else
      match kind
      case Approved => Ok(RecordApproved(db, r.value, codes, requestHash))
      case WasReverted => Ok(RecordReverted(db, r.value, codes, requestHash))
      case Refused => Ok(RecordRefused(db, codes, requestHash))
      case _ =>
        var row := RowOf(draft.value, if kind.WasHeld? then Held else Proposed, day);
        if CanInsert(db, newId, row)
        then Ok(AddDecision(db.(rows := db.rows[newId := row]), Decision(kind, codes, requestHash, Some(newId))))
        else Err(UniqueViolation)
  }

  /** How much a row counts towards the daily cap of `day`. */
  function DayWeight(day: nat): (RowId, Row) -> int {
    (r: RowId, row: Row) => if row.day == day && row.status in {Proposed, Escrowed, Released} then row.amount else 0
  }

  ghost function DayTotal(db: Db, day: nat): int {
    Sum(db.rows, DayWeight(day))
  }

  /** The rows of `day` that read as `p`. */
  ghost function Matching(rows: map<RowId, Row>, day: nat, p: Prior): set<RowId> {
    set r | r in rows && rows[r].day == day && Prior(rows[r].amount, rows[r].status) == p
  }

  lemma MatchingWithout(rows: map<RowId, Row>, day: nat, p: Prior, r: RowId)
    requires r in rows
    ensures |Matching(rows, day, p)| == |Matching(rows - {r}, day, p)|
      + if rows[r].day == day && Prior(rows[r].amount, rows[r].status) == p then 1 else 0
  {
    var one := if rows[r].day == day && Prior(rows[r].amount, rows[r].status) == p then {r} else {};
    assert Matching(rows, day, p) == Matching(rows - {r}, day, p) + one;
  }

  lemma PriorAdded(priors: seq<Prior>, p: Prior)
    ensures Committed(priors + [p]) == Committed(priors) + if Counted(p.status) then p.amount else 0
  {
    assert (priors + [p])[..|priors|] == priors;
  }

  class Repo {
    var rows: map<RowId, Row>
    var decisions: seq<Decision>
    var chainTxs: seq<ChainTx>
    var payouts: seq<Payout>
    var votes: seq<OracleVote>
    var suppliers: map<string, Address>
    var rules: Rules

    ghost function View(): Db
      reads this`rows, this`decisions, this`chainTxs, this`payouts, this`votes
    {
      Db(rows, decisions, chainTxs, payouts, votes)
    }

    constructor (rules: Rules)
      ensures View() == EMPTY && suppliers == map[] && this.rules == rules
    {
      this.rows := map[];
      this.decisions, this.chainTxs, this.payouts, this.votes := [], [], [], [];
      this.suppliers := map[];
      this.rules := rules;
    }

    /** The suppliers of the registry: the table the off-chain allowlist is read from. */
    function SupplierAddresses(): set<Address>
      reads this`suppliers
    {
      set name | name in suppliers :: suppliers[name]
    }

    /** The amounts and statuses of the intents created on `day`, one for each; their committed part is the day's total. */
    method IntentsToday(day: nat) returns (priors: seq<Prior>)
      ensures Committed(priors) == DayTotal(View(), day)
      ensures forall p :: multiset(priors)[p] == |Matching(rows, day, p)|
    {
      priors := [];
      var rest := rows;
      while rest != map[]
        invariant forall r :: r in rest ==> r in rows && rest[r] == rows[r]
        invariant Committed(priors) + Sum(rest, DayWeight(day)) == DayTotal(View(), day)
        invariant forall p :: multiset(priors)[p] + |Matching(rest, day, p)| == |Matching(rows, day, p)|
        decreases |rest|
      {
        var r :| r in rest;
        SumRemove(rest, DayWeight(day), r);
        ghost var before, left := priors, rest;
        if rest[r].day == day {
          PriorAdded(priors, Prior(rest[r].amount, rest[r].status));
          priors := priors + [Prior(rest[r].amount, rest[r].status)];
        }
        rest := rest - {r};
        forall p ensures multiset(priors)[p] + |Matching(rest, day, p)| == multiset(before)[p] + |Matching(left, day, p)| {
          MatchingWithout(left, day, p, r);
        }
      }
    }

    method KnownRequestHashes() returns (hashes: set<string>)
      ensures forall h :: h in hashes <==> KnownHash(View(), h)
    {
      hashes := set r | r in rows :: rows[r].requestHash;
    }

    /** The conditional update, and whether this very call made it. */
    method ClaimEscrow(r: RowId) returns (claimed: bool)
      modifies this`rows
      ensures claimed <==> Claimable(old(View()), r)
      ensures View() == LocalDb.ClaimEscrow(old(View()), r)
      ensures claimed <==> r in old(rows) && old(rows)[r].status == Proposed
      ensures rows == if claimed then old(rows)[r := old(rows)[r].(status := Escrowed)] else old(rows)
    {
      claimed := r in rows && rows[r].status == Proposed;
      if claimed { rows := rows[r := rows[r].(status := Escrowed)]; }
    }

    method ReleaseEscrowClaim(r: RowId)
      modifies this`rows
      ensures View() == LocalDb.ReleaseEscrowClaim(old(View()), r)
      ensures r in old(rows) && old(rows)[r].status == Escrowed && old(rows)[r].chainId == None ==>
        rows == old(rows)[r := old(rows)[r].(status := Proposed)]
      ensures r !in old(rows) || old(rows)[r].status != Escrowed || old(rows)[r].chainId.Some? ==> rows == old(rows)
    {
      if r in rows && rows[r].status == Escrowed && rows[r].chainId == None {
        rows := rows[r := rows[r].(status := Proposed)];
      }
    }

    method SetChainIntent(r: RowId, id: nat)
      modifies this`rows
      ensures View() == LocalDb.SetChainIntent(old(View()), r, id)
      ensures rows == if r in old(rows) then old(rows)[r := old(rows)[r].(chainId := Some(id))] else old(rows)
    {
      if r in rows { rows := rows[r := rows[r].(chainId := Some(id))]; }
    }

    method MarkReleased(r: RowId)
      modifies this`rows
      ensures View() == LocalDb.MarkReleased(old(View()), r)
      ensures rows == if r in old(rows) then old(rows)[r := old(rows)[r].(status := LocalDb.Released)] else old(rows)
    {
      if r in rows { rows := rows[r := rows[r].(status := LocalDb.Released)]; }
    }

    method AddChainTx(r: RowId, action: string, txHash: Option<TxHash>) returns (ok: bool)
      modifies this`chainTxs
      ensures ok <==> r in rows
      ensures View() == if ok then LocalDb.AddChainTx(old(View()), r, action, txHash) else old(View())
      ensures chainTxs == old(chainTxs) + if ok then [ChainTx(r, action, txHash)] else []
    {
      ok := r in rows;
      if ok { chainTxs := chainTxs + [ChainTx(r, action, txHash)]; }
    }

    method AddAnchorPayout(r: RowId, amount: int, address: Address) returns (ok: bool)
      modifies this`payouts
      ensures ok <==> r in rows
      ensures View() == if ok then AddPayout(old(View()), r, amount, address) else old(View())
      ensures payouts == old(payouts) + if ok then [Payout(r, amount, address)] else []
    {
      ok := r in rows;
      if ok { payouts := payouts + [Payout(r, amount, address)]; }
    }

    method AddAttestation(r: RowId, oracle: Address, kind: Escrow.AttestKind, requestHash: string) returns (ok: bool)
      modifies this`votes
      ensures ok <==> r in rows
      ensures View() == if ok then AddVote(old(View()), OracleVote(r, oracle, kind, requestHash)) else old(View())
      ensures votes == old(votes) + if ok then [OracleVote(r, oracle, kind, requestHash)] else []
    {
      ok := r in rows;
      if ok { votes := votes + [OracleVote(r, oracle, kind, requestHash)]; }
    }

    /** One transaction: the intents table and the decision log change together or not at all. */
    method RecordDecision(
      kind: DecisionKind, codes: seq<string>, requestHash: string,
      draft: Option<Draft>, r: Option<RowId>, newId: RowId, day: nat)
      returns (result: Result<Option<RowId>, RecordError>)
      modifies this`rows, this`decisions
      ensures match TryRecord(old(View()), kind, codes, requestHash, draft, r, newId, day)
              case Ok(db) =>
                && View() == db
                && result == Ok(if kind.WasProposed? || kind.WasHeld? then Some(newId) else if kind.Refused? then None else r)
              case Err(e) => View() == old(View()) && result == Err(e)
      ensures result == Err(DraftMissing) <==> (kind.WasProposed? || kind.WasHeld?) && draft == None
      ensures result == Err(IntentMissing) <==> (kind.Approved? || kind.WasReverted?) && r == None
      ensures result == Err(UnexpectedIntent) <==> kind.Refused? && (draft.Some? || r.Some?)
      ensures result == Err(ForeignKeyViolation) <==> (kind.Approved? || kind.WasReverted?) && r.Some? && r.value !in old(rows)
      ensures result == Err(UniqueViolation) <==>
        && (kind.WasProposed? || kind.WasHeld?) && draft.Some?
        && (newId in old(rows) || exists q :: q in old(rows) && old(rows)[q].requestHash == draft.value.requestHash)
      ensures result.Err? ==> rows == old(rows) && decisions == old(decisions)
      ensures result.Ok? ==> decisions == old(decisions) + [Decision(kind, codes, requestHash, result.value)]
      ensures result.Ok? ==>
        match kind
        case Refused => result.value == None && rows == old(rows)
        case Approved => result.value == r && rows == old(rows)[r.value := old(rows)[r.value].(status := Escrowed)]
        case WasReverted => result.value == r && rows == old(rows)[r.value := old(rows)[r.value].(status := Reverted)]
        case _ =>
          var d := draft.value;
          && result.value == Some(newId)
          && rows == old(rows)[newId := Row(d.requestHash, d.supplier, d.token, d.amount, d.deadline, d.invoiceRef, day,
                                            if kind.WasHeld? then Held else Proposed, None)]
    {
      if (kind.WasProposed? || kind.WasHeld?) && draft == None { return Err(DraftMissing); }
      if (kind.Approved? || kind.WasReverted?) && r == None { return Err(IntentMissing); }
      if kind.Refused? && (draft.Some? || r.Some?) { return Err(UnexpectedIntent); }
      var id := r;
      if kind.WasProposed? || kind.WasHeld? {
        var row := RowOf(draft.value, if kind.WasHeld? then Held else Proposed, day);
        if newId in rows || exists q :: q in rows && rows[q].requestHash == row.requestHash {
          return Err(UniqueViolation);
        }
        rows := rows[newId := row];
        id := Some(newId);
      } else if kind.Approved? || kind.WasReverted? {
        if r.value !in rows { return Err(ForeignKeyViolation); }
        rows := rows[r.value := rows[r.value].(status := if kind.Approved? then Escrowed else Reverted)];
      }
      decisions := decisions + [Decision(kind, codes, requestHash, id)];
      return Ok(id);
    }
  }
}
