/**
The agent's local database: the intents table and the append-only tables
around it.  Each operation of the repository that commits on its own is one
function here, so it is one atomic step of every protocol built on it.
*/
module LocalDb {
  import opened Wrappers
  import opened Ledger
  import Escrow

  type RowId = string
  type TxHash = string

  datatype Status = Proposed | Held | Escrowed | Released | Reverted

  /** The supplier column is kept resolved to its registered address, which nothing ever updates. */
  datatype Row = Row(
    requestHash: string,
    supplier: Address,
    token: Token,
    amount: int,
    deadline: nat,
    invoiceRef: Option<string>,
    day: nat,
    status: Status,
    chainId: Option<nat>)

  datatype DecisionKind = WasProposed | WasHeld | Approved | Refused | WasReverted

  datatype Decision = Decision(kind: DecisionKind, codes: seq<string>, requestHash: string, row: Option<RowId>)

  datatype ChainTx = ChainTx(row: RowId, action: string, txHash: Option<TxHash>)

  datatype Payout = Payout(row: RowId, amount: int, address: Address)

  datatype OracleVote = OracleVote(row: RowId, oracle: Address, kind: Escrow.AttestKind, requestHash: string)

  datatype Db = Db(
    rows: map<RowId, Row>,
    decisions: seq<Decision>,
    chainTxs: seq<ChainTx>,
    payouts: seq<Payout>,
    votes: seq<OracleVote>)

  const EMPTY: Db := Db(map[], [], [], [], [])

  function SetStatus(db: Db, r: RowId, status: Status): Db {
    if r !in db.rows then db else db.(rows := db.rows[r := db.rows[r].(status := status)])
  }

  predicate Claimable(db: Db, r: RowId) {
    r in db.rows && db.rows[r].status == Proposed
  }

  /** The conditional update that reserves a proposed intent. */
  function ClaimEscrow(db: Db, r: RowId): Db {
    if Claimable(db, r) then SetStatus(db, r, Escrowed) else db
  }

  /** Reopens a claimed intent, but never one that has an escrow on chain. */
  function ReleaseEscrowClaim(db: Db, r: RowId): Db {
    if r in db.rows && db.rows[r].status == Escrowed && db.rows[r].chainId == None then SetStatus(db, r, Proposed) else db
  }

  function SetChainIntent(db: Db, r: RowId, id: nat): Db {
    if r !in db.rows then db else db.(rows := db.rows[r := db.rows[r].(chainId := Some(id))])
  }

  function MarkReleased(db: Db, r: RowId): Db {
    SetStatus(db, r, Released)
  }

  function AddDecision(db: Db, d: Decision): Db {
    db.(decisions := db.decisions + [d])
  }

  /** Unlike the claim, this update has no condition on the present status. */
  function RecordApproved(db: Db, r: RowId, codes: seq<string>, requestHash: string): Db {
    AddDecision(SetStatus(db, r, Escrowed), Decision(Approved, codes, requestHash, Some(r)))
  }

  function RecordReverted(db: Db, r: RowId, codes: seq<string>, requestHash: string): Db {
    AddDecision(SetStatus(db, r, Reverted), Decision(WasReverted, codes, requestHash, Some(r)))
  }

  function RecordRefused(db: Db, codes: seq<string>, requestHash: string): Db {
    AddDecision(db, Decision(Refused, codes, requestHash, None))
  }

  ghost predicate KnownHash(db: Db, requestHash: string) {
    exists r :: r in db.rows && db.rows[r].requestHash == requestHash
  }

  /** A new row needs a fresh id and, by the UNIQUE constraint, an unused request hash. */
  ghost predicate CanInsert(db: Db, r: RowId, row: Row) {
    r !in db.rows && !KnownHash(db, row.requestHash)
  }

  function RecordIntent(db: Db, r: RowId, row: Row, codes: seq<string>): Db {
    AddDecision(db.(rows := db.rows[r := row]),
                Decision(if row.status == Held then WasHeld else WasProposed, codes, row.requestHash, Some(r)))
  }

  function AddChainTx(db: Db, r: RowId, action: string, txHash: Option<TxHash>): Db {
    db.(chainTxs := db.chainTxs + [ChainTx(r, action, txHash)])
  }

  function AddPayout(db: Db, r: RowId, amount: int, address: Address): Db {
    db.(payouts := db.payouts + [Payout(r, amount, address)])
  }

  function AddVote(db: Db, v: OracleVote): Db {
    db.(votes := db.votes + [v])
  }

  /** The local status a chain status stands for. */
  function FromChain(status: Escrow.Status): Status {
    match status
    case Funded => Escrowed
    case Released => Released
    case Refunded => Reverted
  }
}
