# Lumo, modelled and proved

Lumo turns an invoice into a guarded stablecoin payment: an extractor reads the
invoice, a chain of guards decides, a proposed intent is stored, an escrow is
funded on chain, an oracle attests delivery, and the money goes to the supplier
or back. This project models that money path and proves what it promises over
every input, every run and every interleaving.

The model has four layers, and the strongest results join them.

**On chain.** `Escrow` is the escrow contract as a state machine over an
unbounded table of intents, an oracle registry, a 64-bit counter, a deadline
clock and a multi-token ledger with a journal. `EscrowRuns`, `EscrowTheorems`
and `EscrowDrain` prove solvency, conservation, exactly-once settlement and that
nothing is ever stuck; `EscrowRegistry` says who may do what, which refusal they
get, and whose signature stands behind every attestation. `EscrowContract` is the contract in its own imperative
form, proved equal to the state machine call by call. `MockChain` is the
in-memory adapter, in its own form, and a simulation of the contract.
`PolicyAccount` is the smart account's authorisation hook; `Composition` joins
account, escrow and tokens and says where the account's money can go, and
`AccountHistory` what its policy is after any run of changes.

**Two ledgers.** `LocalDb` is the local database as a value, `Repository` the
repository object over it. `Protocol` is the step relation of any number of
callers of execute, release, revert and sync over one database and one chain,
with a program counter each, a pool of submitted transactions that may land
late or never, crashes between any two steps, and anybody else acting on chain.
`ProtocolInv`, `ProtocolSteps` and `ProtocolTheorems` hold its invariant and
what follows; `StatusLaws` says how the local status moves and what becomes of a
claim nobody holds; `ProtocolRegression` holds the run in which the local status
steps back. `Flow` is `execute`, `attest`, `release`, `revert` and
`sync_status` as methods over the repository and a chain client. Apart from
`Attest`, which is not a step of the protocol, each is proved to be a run of the
protocol (`Flow.Led`), so that every protocol result is a result about them.
`Serial` and `FlowTheorems` treat sessions in which calls come one at a time.

**Decisions.** `Engine` and `Guards` are the policy engine and the guard chain,
`GuardTheorems` their laws; `Pipeline` is the whole proposal, from whatever the
extractor answered to a recorded decision; `PipelineTheorems` says what a stored
proposal is worth. `RequestHash` is the canonical JSON key.

**Numbers and names.** `Decimals` is decimal arithmetic with a 28-digit context;
`AmountText` and `AmountTheorems` are the amount parser, the scanner and the
cross-check; `Ulid` is the identifier codec; `Metrics` the counters and the
gauge. `Sums`, `Ledger`, `Arithmetic` and `Wrappers` carry the shared laws.

`Sessions` closes the loop: a session is any sequence of pipeline runs, flow
calls that may stop midway, restarts and outside events, and keeps the protocol invariant, the caps, the audit
log and the dedupe key together.

## Findings

- The 28-digit decimal context is exact just where the product drops no non-zero
  digit (`Decimals.StroopsExactly`). Beyond that `to_stroops` silently alters an
  amount: `1000000000000000000000.0000001` comes out one stroop short
  (`AmountTheorems.LongTextIsAltered`). An amount below the smallest exponent is
  read as zero rather than refused, as is `1E-2000000`
  (`AmountTheorems.TinyTextIsZero`).
- `record_decision("approved")` sets `escrowed` without looking. Under full
  interleaving a released or reverted row changes its status exactly when a
  caller makes that write on it (`StatusLaws.ClosedReopensExactly`); over every
  serialised run it keeps its status for good (`StatusLaws.SerialKeepsClosed`,
  and `Sessions.SessionKeepsClosed` for whole sessions); and a fair run from an
  empty database in which it does step back is
  `ProtocolRegression.StepBackHappens`. The write agrees with the chain exactly
  when the escrow is still Funded (`ProtocolTheorems.ApprovalAgreesExactly`), and
  it is the only step that can commit an amount anew
  (`FlowTheorems.OnlyApprovalRecommits`).
- A claim whose holder crashes before linking, or gives up on a submission it has
  not seen the end of, is stranded, and in no other way
  (`StatusLaws.StrandedExactly`). It stays escrowed and unlinked over every run
  (`StatusLaws.StrandedForGood`): never claimed, linked, synced or paid again,
  and counted to its day for ever.
- While rows are linked only by execute, the crash-recovery branch of
  `sync_status` that records an approval is never taken, in any interleaving
  (`ProtocolTheorems.SyncOnlyCloses`): the claim has already set `escrowed`.
- The mock adapter and the contract disagree on non-positive amounts, exactly as
  `MockChain.CreateAgreesExactly` says; `MockChain.NegativeFundingDiffers` is an
  input.

## Model

| member | source | states |
|---|---|---|
| EscrowTheorems.Solvency | contracts/escrow/src/lib.rs:126-243 | Over every run, per token: the vault holds at least the Funded total, with equality if and only if it started empty and got nothing unasked; the supply changes only by minting. |
| EscrowTheorems.SettlementNeverShort | contracts/escrow/src/lib.rs:187-243 | In every reachable state release succeeds exactly for a Funded intent attested Shipped, refund exactly for one attested Failed or unattested at its deadline: no legal settlement fails for lack of balance. |
| EscrowTheorems.FundedIsCovered | contracts/escrow/src/lib.rs:198-234 | The amount of each Funded intent can be moved out of the vault. |
| EscrowTheorems.ExactlyOnceSettlement | contracts/escrow/src/lib.rs:138-271 | Ids are exactly 1..counter; the journal shows no payment for a Funded intent and exactly one, of the full amount to the bound party, for a closed one; Released implies Shipped, Refunded implies Failed or an expired unattested deadline; nothing else leaves the vault. |
| EscrowTheorems.RunEvolves | contracts/escrow/src/lib.rs:138-243 | Over any run the creation fields never change, the attestation is written once, a closed status stays, and the invariant holds. |
| EscrowTheorems.ReachableInv | contracts/escrow/src/lib.rs:109-271 | The full invariant (table, replay of the journal, supply, backing, settlement log, sealed vault) holds of every reachable state. |
| EscrowRuns.ApplyKeeps | contracts/escrow/src/lib.rs:109-243 | Each call, successful or not, keeps that invariant. |
| EscrowDrain.ExactlyOneWayOut | contracts/escrow/src/lib.rs:187-243 | Past its deadline a Funded intent has exactly one of release and refund open. |
| EscrowDrain.Drain | contracts/escrow/src/lib.rs:187-243 | Settling in any order that mentions every open intent closes them all and leaves each address with a balance fixed by the starting state, the vault with unsolicited money only. |
| EscrowDrain.DrainOrderIrrelevant | contracts/escrow/src/lib.rs:187-243 | Two settlement orders leave the same intents and the same balances. |
| EscrowDrain.NoStuckFunds | contracts/escrow/src/lib.rs:187-243 | From every reachable state, after the deadlines, everything can be drained. |
| EscrowDrain.PaidKeepsFinal | contracts/escrow/src/lib.rs:198-234 | One payment moves no address's final balance. |
| EscrowRegistry.RegistryExactly | contracts/escrow/src/lib.rs:109-120 | The oracle registry changes if and only if the admin signed, by the one membership, and nothing else does. |
| EscrowRegistry.AttestExactly | contracts/escrow/src/lib.rs:164-185 | An attestation succeeds if and only if the oracle signed and is registered and the intent exists, is Funded and unattested; it writes that one field; each refusal has its error. |
| EscrowRegistry.CreateExactly | contracts/escrow/src/lib.rs:126-162 | Funding succeeds if and only if the sme signed for a covered amount below the last id; the intent is stored as asked. |
| EscrowRegistry.ReleaseRefusals | contracts/escrow/src/lib.rs:187-212 | Every refusal of release, with its error, in the contract's order. |
| EscrowRegistry.RefundRefusals | contracts/escrow/src/lib.rs:214-243 | Every refusal of refund, with its error, in the contract's order. |
| EscrowRegistry.RegistryIsHistory | contracts/escrow/src/lib.rs:109-120 | Over every run an address is registered if and only if the admin added it and has not removed it since. |
| EscrowRegistry.EveryAttestationIsSigned | contracts/escrow/src/lib.rs:164-185 | Over every run each attested intent was attested at some earlier call, of that kind, signed by an oracle registered at that point. |
| EscrowContract.TokenLedger.Transfer | contracts/escrow/src/lib.rs:136-136 | A transfer succeeds exactly on a non-negative covered amount, also to oneself, and logs itself. |
| EscrowContract.LumoEscrow.constructor | contracts/escrow/src/lib.rs:105-107 | A fresh contract is the initial state. |
| EscrowContract.LumoEscrow.AddOracle | contracts/escrow/src/lib.rs:109-115 | Under the admin's signature the oracle joins the registry and nobody else does; without it nothing changes. |
| EscrowContract.LumoEscrow.RemoveOracle | contracts/escrow/src/lib.rs:117-120 | Under the admin's signature the oracle leaves the registry and nobody else does; without it nothing changes. |
| EscrowContract.LumoEscrow.CreateIntent | contracts/escrow/src/lib.rs:126-162 | Takes the storage to the specified state, or leaves it with the specified error; the id returned is the new counter, and a trapped call leaves balances and journal alone. |
| EscrowContract.LumoEscrow.Attest | contracts/escrow/src/lib.rs:164-185 | Succeeds exactly for a registered oracle's own signature on a Funded, unattested intent and writes that field alone; errors in the contract's order. |
| EscrowContract.LumoEscrow.Release | contracts/escrow/src/lib.rs:187-212 | The specified state or error: the full amount to the bound supplier. |
| EscrowContract.LumoEscrow.Refund | contracts/escrow/src/lib.rs:214-243 | The specified state or error: the full amount to the funding sme, by attestation or deadline. |
| MockChain.RunSimulates | lumo/chain/mock_chain.py:34-119 | Over any sequence of proper calls the mock and the contract keep equal tables, ids, clocks and balances. |
| MockChain.CallSimulates | lumo/chain/mock_chain.py:58-105 | A mock success is the contract's call or a repeated attest that the contract refuses; a mock failure is a contract error. |
| MockChain.CreateAgreesExactly | lumo/chain/mock_chain.py:40-79 | For any amount, mock and contract agree on funding if and only if the amount is positive, or zero just when the payer has an entry. |
| MockChain.NegativeFundingDiffers | lumo/chain/mock_chain.py:40-44 | A negative amount that the mock pays out to the payer and the token refuses. |
| MockChain.CreateExactly | lumo/chain/mock_chain.py:58-79 | Funding succeeds exactly on a covered amount from a known payer; the stored intent, the id, the balances and the call count. |
| MockChain.AttestExactly | lumo/chain/mock_chain.py:81-87 | Attesting fails exactly on an unknown or closed intent; the first kind stays and nothing else moves. |
| MockChain.ReleaseExactly | lumo/chain/mock_chain.py:89-95 | Each refusal of release and when it is given; a success pays the supplier of that intent alone. |
| MockChain.RefundExactly | lumo/chain/mock_chain.py:97-105 | Each refusal of refund and when it is given; a success pays the sme of that intent alone. |
| MockChain.MockChainAdapter.Fund | lumo/chain/mock_chain.py:34-35 | Credits one balance and nothing else. |
| MockChain.MockChainAdapter.MoveTokens | lumo/chain/mock_chain.py:40-44 | Moves, or fails on a short or missing balance and changes nothing. |
| MockChain.MockChainAdapter.CreateIntent | lumo/chain/mock_chain.py:58-79 | The whole new adapter state, or the error and the old one. |
| MockChain.MockChainAdapter.Attest | lumo/chain/mock_chain.py:81-87 | A second attestation is counted but not stored. |
| MockChain.MockChainAdapter.Release | lumo/chain/mock_chain.py:89-95 | The whole new adapter state, or the error and the old one. |
| MockChain.MockChainAdapter.Refund | lumo/chain/mock_chain.py:97-105 | The whole new adapter state, or the error and the old one. |
| PolicyAccount.AnswerUnique | contracts/policy-account/src/lib.rs:108-174 | Key, signature and contexts determine the hook's answer: authorised only if all contexts pass, else the complaint about the first that does not. |
| PolicyAccount.AdministerExactly | contracts/policy-account/src/lib.rs:60-83 | Adding and removing change one membership, setting the cap and the escrow that one field. |
| PolicyAccount.SelfCallExactly | contracts/policy-account/src/lib.rs:131-147 | Of itself the account allows the four setters and nothing else. |
| PolicyAccount.ForeignCallExactly | contracts/policy-account/src/lib.rs:148-194 | Of other contracts it allows exactly funding an approved supplier and paying the bound escrow, by the arguments in their places and within the cap; each refusal has its reason. |
| PolicyAccount.PolicyAccountContract.CheckAuth | contracts/policy-account/src/lib.rs:108-128 | Authorised if and only if the key is the owner's, the signature verifies and every context is allowed; else the answer for that failure. |
| PolicyAccount.PolicyAccountContract.AddSupplier | contracts/policy-account/src/lib.rs:60-66 | Under the account's own authorisation that supplier is approved and every other address is as before; without it nothing changes. |
| PolicyAccount.PolicyAccountContract.RemoveSupplier | contracts/policy-account/src/lib.rs:68-71 | Under the account's own authorisation that supplier is no longer approved and every other address is as before; without it nothing changes. |
| PolicyAccount.PolicyAccountContract.SetCap | contracts/policy-account/src/lib.rs:73-76 | Under the account's own authorisation the cap is the given one, and nothing else changes. |
| PolicyAccount.PolicyAccountContract.SetEscrow | contracts/policy-account/src/lib.rs:80-83 | Under the account's own authorisation the bound escrow is the given one, and nothing else changes. |
| Composition.AccountMoneyOnlyToEscrow | contracts/policy-account/src/lib.rs:108-194 | Over any run signed by the owner key, with everybody else free: the account's tokens go to the bound escrow only, each step moves at most the cap in force and funds only suppliers approved then, and the books balance to the unit in every token. |
| Composition.DoKeeps | contracts/policy-account/src/lib.rs:131-174 | Each transaction, authorised, refused or failed, keeps the books and those bounds. |
| Composition.AdminAsks | contracts/policy-account/src/lib.rs:60-83 | A setter asks for the account's own authorisation under that setter's name. |
| AccountHistory.RemovalTakesEffect | contracts/policy-account/src/lib.rs:68-71 | A transaction that went through, removed a supplier and did not add it back leaves it unapproved, whatever else it did. |
| AccountHistory.CapTakesEffect | contracts/policy-account/src/lib.rs:73-76 | A transaction that went through leaves the cap it set last. |
| AccountHistory.RemovedStaysOut | contracts/policy-account/src/lib.rs:131-174 | Over any run from an unapproved supplier that does not add it: it stays unapproved and no new intent on the account's money names it. |
| AccountHistory.LastCapHolds | contracts/policy-account/src/lib.rs:131-194 | Over any run that sets no cap: the cap stays and no move of the account's money exceeds it. |
| Repository.Repo.IntentsToday | lumo/db/repo.py:78-82 | Each amount and status as often as the day's rows show it, and so the day's committed total over the whole table. |
| Repository.Repo.KnownRequestHashes | lumo/db/repo.py:84-86 | Exactly the stored hashes. |
| Repository.Repo.ClaimEscrow | lumo/db/repo.py:98-113 | True exactly when this call moved a proposed row to escrowed; else nothing changed. |
| Repository.Repo.ReleaseEscrowClaim | lumo/db/repo.py:115-125 | Reopens an escrowed row only while it has no chain id. |
| Repository.Repo.SetChainIntent | lumo/db/repo.py:127-132 | Links one row, and nothing else. |
| Repository.Repo.MarkReleased | lumo/db/repo.py:134-139 | Sets one status, and nothing else. |
| Repository.Repo.AddChainTx | lumo/db/repo.py:141-146 | Appends one line, only for an existing row. |
| Repository.Repo.AddAnchorPayout | lumo/db/repo.py:154-162 | Appends one payout, only for an existing row. |
| Repository.Repo.AddAttestation | lumo/db/repo.py:173-181 | Appends one vote, only for an existing row. |
| Repository.Repo.RecordDecision | lumo/db/repo.py:195-253 | Table and log change together or not at all; each malformed call and the UNIQUE violation leave both alone. |
| ProtocolTheorems.AtMostOneEscrow | lumo/flow.py:22-60 | Over every interleaving with crashes, rejections and late landings: at most one escrow per row, pending included; a proposed or held row has none, no link, and no claim holder; no two callers hold one claim. |
| ProtocolTheorems.LocalNeverAhead | lumo/db/repo.py:98-139 | Local released or reverted means Released or Refunded on chain; a chain id belongs to one row, names an intent with the row's hash, supplier, token, amount and deadline, and its transaction hash is on record. |
| ProtocolTheorems.AtMostOnePayout | lumo/flow.py:108-119 | Over every interleaving: one payout per row at most, of the amount and to the supplier of an intent Released on chain. |
| ProtocolTheorems.RunEvolves | lumo/db/repo.py:98-253 | No run changes a row's terms or its link, unholds a held row, or takes anything out of a log. |
| ProtocolTheorems.RunKeeps | lumo/flow.py:11-126 | The protocol invariant survives every run. |
| ProtocolSteps.DoKeeps | lumo/chain/__init__.py:5-14 | Every step of every caller, landing, loss and outside call keeps the invariant. |
| ProtocolTheorems.SyncReconciles | lumo/chain/mapper.py:12-49 | One undisturbed sync makes a linked row say what the chain says and changes no other row; a second changes nothing. |
| ProtocolTheorems.SyncOnlyCloses | lumo/chain/mapper.py:26-43 | In no interleaving does a sync record an approval: it only ever writes released or reverted, to a row past proposed. |
| ProtocolTheorems.ApprovalAgreesExactly | lumo/flow.py:72-79 | execute's last write agrees with the chain if and only if the escrow is still Funded. |
| ProtocolTheorems.VerifiesExactly | lumo/flow.py:64-70 | The read back passes exactly for a readable, Funded intent with the row's hash up to letter case. |
| ProtocolRegression.ExecuteSucceeds | lumo/flow.py:11-79 | Left alone with a network that lands it, execute links a proposed row to a Funded escrow of its terms and approves it once. |
| ProtocolRegression.LocalStatusCanStepBack | lumo/db/repo.py:233-236 | Wherever execute's last write is due and a release is legal: released, then escrowed again, while the chain says Released. |
| ProtocolRegression.OvertakingIsReached | lumo/flow.py:56-79 | Such a state is reached from an empty database by a fair run, for any proposal and parties. |
| ProtocolRegression.StepBackHappens | lumo/db/repo.py:233-236 | The whole run, from the empty database to the step back. |
| StatusLaws.ClosedReopensExactly | lumo/db/repo.py:233-236 | Under full interleaving a closed row changes its status if and only if a caller makes execute's last write on it, and then reads escrowed. |
| StatusLaws.StatusFallsExactly | lumo/db/repo.py:98-139 | The status of any row falls exactly there and where a failed submission gives its claim back. |
| StatusLaws.SerialKeepsClosed | lumo/flow.py:11-126 | Over every serial run a closed row keeps its status. |
| StatusLaws.StrandedExactly | lumo/flow.py:22-54 | A claim is stranded by a step if and only if its holder crashes or gives up waiting there. |
| StatusLaws.StrandedForGood | lumo/db/repo.py:98-132 | Over every run a stranded claim stays escrowed and unlinked, even if its transaction lands. |
| Flow.Client.CreateIntent | lumo/chain/__init__.py:5-14 | The adapter contract: a confirmed escrow, an unknown outcome with the transaction still pending, or no escrow now or ever. |
| Flow.Client.Settle | lumo/chain/mock_chain.py:89-105 | A settlement happens exactly when it is reached and legal. |
| Flow.SubmissionRuns | lumo/flow.py:31-54 | Each way a submission can end is a run of the protocol. |
| Flow.Confirm | lumo/flow.py:56-79 | Hash, then chain id, then read back, then approval; a failed read back keeps the first two. |
| Flow.Submit | lumo/flow.py:31-79 | The three outcomes: reopened, kept with the hash, or confirmed. |
| Flow.Execute | lumo/flow.py:11-79 | A run of the protocol by its one caller; unknown, dry-run and unclaimable rows change nothing; otherwise the exact new database, chain, pool and answer, and the answer is true (`Flow.AnswerIsTrue`). |
| Flow.AnswerIsTrue | lumo/flow.py:31-79 | Unconfirmed is answered if and only if a new transaction of the row is pending, the row then claimed and unlinked; not submitted if and only if none is alive, the database then as before; an id if and only if the row is linked to that new, Funded escrow of its hash and approved once; a failed read back if and only if it is linked and not approved. The hash is on record. |
| Flow.Reconcile | lumo/chain/mapper.py:12-49 | The answer is the chain's status when linked and readable, else the row's; the write is the one that answer asks for, or none. |
| Flow.SyncStatus | lumo/chain/mapper.py:12-49 | A run of the protocol: the row's own status when the chain cannot be read, else what the chain status stands for, written to that row alone with the decision it asks for. |
| Flow.CashOut | lumo/anchor/mock_anchor.py:10-17 | Exactly one payout of the row's amount to its supplier if it is released, else none. |
| Flow.SettleOnChain | lumo/flow.py:82-88 | The refusals in order, unchanged state on each; else the chain settles and the line is logged. |
| Flow.ReleaseCheck | lumo/pipeline.py:265-269 | Refuses with the codes that `Flow.ReleaseRefusalExactly` characterises, or lets through. |
| Flow.ReleaseRefusalExactly | lumo/pipeline.py:265-269 | Over database and configuration alone: a release is let through if and only if a required vote is there and, above one of n, k different oracles vouch; else ATTESTATION_MISSING is among the codes exactly when the first part fails, KOFN_UNMET exactly when the second does, and nothing else is. |
| Flow.SettledExactly | lumo/flow.py:82-88 | The refusals of a settlement in order; past them it is the chain's answer. |
| Flow.Release | lumo/flow.py:108-119 | A linked row reaches the chain if and only if it is vouched for; otherwise it is refused with its complaints, database and chain unchanged. A run of the protocol: the exact new database, with a payout exactly when the answer is released. |
| Flow.Revert | lumo/flow.py:122-126 | A run of the protocol: the exact new database, or the error and no change. |
| Flow.RecordVotes | lumo/oracle/adapter.py:21-24 | One vote per signer, in order: this row, that signer, this kind, this hash. |
| Flow.Attest | lumo/flow.py:91-105 | Chain first, then the log line and one vote per signer of that kind and the row's hash; a refused attestation leaves no trace. |
| FlowTheorems.FlowKeeps | lumo/flow.py:11-126 | Whatever a flow call came to, the invariant, the caps, the audit log and everything already recorded are kept. |
| FlowTheorems.AnswersAreTrue | lumo/flow.py:22-79 | After every fair run, in any interleaving, what execute answers about a row it claimed is true of pool, chain and row. |
| FlowTheorems.RejectedLeavesNoTrace | lumo/flow.py:49-54 | A claim that could not be submitted returns the database exactly as it was. |
| FlowTheorems.SubmittedIsNotRetried | lumo/flow.py:40-48 | After any other outcome the row can no longer be claimed. |
| FlowTheorems.SettledOnce | contracts/escrow/src/lib.rs:187-243 | After one settlement neither kind is possible. |
| FlowTheorems.OnlyApprovalRecommits | lumo/db/repo.py:233-236 | Under full interleaving a caller's step adds to a day's total if and only if it is the approval of an intent refunded meanwhile. |
| FlowTheorems.EngineAdmits | lumo/policy/engine.py:40-49 | A stored proposal under the engine is one admitted insert of the serial session. |
| Serial.DailyCapHolds | lumo/policy/engine.py:40-49 | Over any serial session, whatever fails, crashes or lands late: each day's proposed, escrowed and released amounts stay within the daily cap, each intent within the cap per transaction. |
| Serial.AuditSaysOnce | lumo/db/repo.py:214-245 | In such a session each row has one creating decision, at most one approval and only if linked, and one reversal exactly if reverted. |
| Serial.SerialKeeps | lumo/flow.py:11-126 | Every step of a serial session keeps both. |
| Sessions.SessionsAreSafe | lumo/pipeline.py:305-428 | Over any session of pipeline runs, flow calls, crashes with restarts, and outside events: the caps hold, and no payment is stored twice whatever became of it. |
| Sessions.SessionKeepsClosed | lumo/db/repo.py:134-139 | Over any session a released or reverted intent keeps its status. |
| Sessions.SessionSound | lumo/pipeline.py:305-428 | A session keeps the protocol invariant, the caps, the audit log and the dedupe key. |
| Engine.AllowedExactly | lumo/policy/engine.py:26-52 | No code is reported exactly when the request is unflagged, payable, registered, not misdirected, new, and within both caps. |
| Engine.CodesExactly | lumo/policy/engine.py:26-52 | Each of the seven codes, as written, is reported exactly under its own condition. |
| Engine.CommittedExactly | lumo/policy/engine.py:43-45 | A prior counts at its amount if proposed, escrowed or released, and for nothing if held or reverted. |
| Engine.SumCommitted | lumo/policy/engine.py:43-45 | The total over proposed, escrowed and released priors; held and reverted do not count. |
| Engine.Evaluate | lumo/policy/engine.py:26-52 | Allowed with OK, or exactly the codes of the broken rules in their order. |
| Guards.RunGuards | lumo/pipeline.py:237-262 | The strictest verdict of the enabled guards of the stage; codes without repetition in order of first mention, or OK on a pass. |
| Guards.Extend | lumo/pipeline.py:257-257 | Extending the codes skips what was said, also within one result. |
| Guards.DistinctMeans | lumo/pipeline.py:257-257 | The reported codes are what was said, each once. |
| Guards.DistinctPrefix | lumo/pipeline.py:257-257 | First mentions keep their order. |
| GuardTheorems.VerdictIsStrictest | lumo/pipeline.py:237-262 | No guard is stricter than the verdict, and some guard is as strict unless it is a pass. |
| GuardTheorems.OrderIndependent | lumo/pipeline.py:237-262 | Another order of the guards gives the same verdict and the same codes. |
| GuardTheorems.EnablingNeverWeakens | lumo/pipeline.py:237-262 | Switching a guard on never gives a milder verdict. |
| GuardTheorems.StricterNeverWeakens | lumo/pipeline.py:225-262 | A tighter configuration never gives a milder verdict, at either stage. |
| GuardTheorems.ProfilesAreOrdered | lumo/config.py:10-38 | A pass under strict is a pass under balanced is a pass under fast. |
| GuardTheorems.ReleasePassesExactly | lumo/pipeline.py:168-198 | A release passes if and only if a required attestation is there and, above one of n, k different oracles voted Shipped on this intent's hash. |
| GuardTheorems.ReleaseCodesExactly | lumo/pipeline.py:168-198 | Each code of a refused release, as written, exactly when its own condition is unmet, and no others. |
| GuardTheorems.ProfilesAtRelease | lumo/config.py:10-38 | Strict asks for three vouching oracles, balanced for one vote, fast for nothing. |
| GuardTheorems.VotesOnlyHelp | lumo/pipeline.py:168-198 | Further attestations never undo a pass. |
| GuardTheorems.EnginePassImpliesSignerPass | lumo/pipeline.py:147-165 | What the engine allows, the signer's mirror allows. |
| Pipeline.Run | lumo/pipeline.py:305-428 | The guards see the request, field by field as `PipelineTheorems.RequestExactly` says, and the database as it is; the recorded decision, row, plan and answer are those of their verdict. |
| Pipeline.Store | lumo/pipeline.py:381-428 | Held without a plan, proposed with one, or the constraint violation and no change. |
| Pipeline.NotRefusedMatches | lumo/pipeline.py:366-370 | The cross-check cannot be switched off. |
| PipelineTheorems.ProposalVerdictExactly | lumo/pipeline.py:147-222 | A proposal is refused exactly when an enabled check objects or the amount is not the invoice's, else held exactly when it is above the threshold without a second signature, else passed. |
| PipelineTheorems.ProposalCodesExactly | lumo/pipeline.py:147-222 | Which code is said by which check, and when. |
| PipelineTheorems.SignerCodesExactly | lumo/pipeline.py:147-165 | SIGNER_SUPPLIER_NOT_ALLOWED and SIGNER_OVER_CAP, each exactly under its condition. |
| PipelineTheorems.ProfilesAtProposal | lumo/config.py:10-38 | What strict, balanced and fast refuse and hold. |
| PipelineTheorems.RequestExactly | lumo/pipeline.py:313-345 | What the guards are shown, in the invoice's own terms: the scanned flags, the address the supplier's name is registered under, the amount read, the payment's hash, and a foreign address before the extracted one. |
| PipelineTheorems.FlaggedIsRefused | lumo/pipeline.py:313-345 | With the scan on, a flagged invoice ends refused with INJECTION_SUSPECTED among its codes, and nothing is stored. |
| PipelineTheorems.StoredSupplier | lumo/pipeline.py:319-322 | What is stored is for the address registered under the extracted, non-empty supplier name. |
| PipelineTheorems.MisdirectedExactly | lumo/policy/engine.py:34-39 | With the engine on and a registered supplier: ADDRESS_MISMATCH is said if and only if some scanned address, or the extracted one, is not the supplier's; then the proposal is refused. |
| PipelineTheorems.StoredIsDirected | lumo/pipeline.py:337-345 | With the engine on, every address of a stored payment's invoice is its supplier's. |
| PipelineTheorems.StoredRow | lumo/pipeline.py:381-428 | What is stored is one new row, unlinked, of today, keyed by its own payment. |
| PipelineTheorems.PlanMirrorsRow | lumo/pipeline.py:404-414 | A plan exists exactly for a proposed row and says what it says. |
| PipelineTheorems.AmountIntegrity | lumo/pipeline.py:106-144 | Whatever is switched off and whatever the extractor says, a stored amount is non-negative and a number of the invoice to the last stroop, from a payable-labelled line if any has one. |
| PipelineTheorems.EngineBounds | lumo/policy/engine.py:30-49 | With the engine on it is positive, within the cap, and within what is left of the day. |
| PipelineTheorems.UniqueNeverFails | lumo/policy/engine.py:40-41 | With the engine on the UNIQUE insert never fails. |
| PipelineTheorems.PlanPasses | contracts/policy-account/src/lib.rs:148-171 | The account lets both contexts of a plan through if and only if the supplier is approved and the amount within its cap. |
| PipelineTheorems.ApprovedIsAuthorized | lumo/pipeline.py:404-414 | With the local registry and cap no wider than the account's, every proposed plan is authorised on chain. |
| PipelineTheorems.StoringKeepsKeyed | lumo/pipeline.py:327-335 | Every stored row carries the hash of its own payment and no two the same. |
| PipelineTheorems.NoPaymentTwice | lumo/db/migrations/0002_intents_audit.up.sql:3-3 | Two stored rows that are the same payment are one row. |
| PipelineTheorems.KeyIsThePayment | lumo/chain/request_hash.py:5-10 | Under an injective digest a row answers to a payment's hash if and only if it is that payment. |
| PipelineTheorems.DuplicateExactly | lumo/policy/engine.py:40-41 | Then a request is reported as a duplicate if and only if that very payment is stored, in any status. |
| Engine.ReportedExactly | lumo/policy/engine.py:26-52 | A rule's code is reported if and only if the rule is broken. |
| RequestHash.JsonRoundTrips | lumo/chain/request_hash.py:5-6 | A decoder of section 7 of RFC 8259 strings reads the sorted fields back. |
| RequestHash.CanonicalExactly | lumo/chain/request_hash.py:5-6 | Two field lists serialise alike if and only if they hold the same fields, in whatever order. |
| RequestHash.HashesExactly | lumo/pipeline.py:327-335 | Under an injective digest, equal hashes if and only if equal payments. |
| RequestHash.RequestReads | lumo/pipeline.py:327-335 | What a decoder reads under each key of the serialised request. |
| RequestHash.RequestText | lumo/chain/request_hash.py:5-6 | The serialised request to the letter. |
| RequestHash.EscapesExactly | lumo/chain/request_hash.py:5-6 | How each character is written. |
| RequestHash.IntTextSays | lumo/pipeline.py:332-332 | An amount is written as its plain digits, with a minus sign if need be. |
| RequestHash.StringDecodes | lumo/chain/request_hash.py:5-6 | Escaping any string is undone, whatever follows it. |
| RequestHash.SortSorts | lumo/chain/request_hash.py:5-6 | The fields are sorted by key and none is lost. |
| RequestHash.IntTextInjective | lumo/pipeline.py:332-332 | Different amounts are written differently. |
| Decimals.StroopsExactly | lumo/pipeline.py:280-302 | The conversion gives the exact stroops if and only if the 28-digit product is lossless, and refuses what is no whole number of stroops whenever it is. |
| Decimals.FitsIsLossless | lumo/pipeline.py:295-298 | Up to 28 digits nothing is ever lost. |
| Decimals.LongAmountIsAltered | lumo/pipeline.py:295-298 | A 29-digit amount comes out one stroop off. |
| Decimals.TinyAmountBecomesZero | lumo/pipeline.py:295-298 | Everything far below the smallest exponent is read as zero. |
| Decimals.TinyIsZeroExactly | lumo/pipeline.py:295-298 | A power of ten below one stroop is read as zero exactly from 1E-1000034 down, and refused above that. |
| Decimals.HugeIsRefused | lumo/pipeline.py:299-301 | A power of ten is converted exactly up to the greatest exponent. |
| Decimals.RoundsToNearest | lumo/pipeline.py:295-296 | Rounding goes to the nearest, and from the middle to the even one. |
| Decimals.FinalizeKeepsValue | lumo/pipeline.py:295-296 | Rounding changes a value exactly when it drops a non-zero digit, and keeps at most 28. |
| Decimals.ParsedAmountsDivide | lumo/pipeline.py:119-119 | Whatever was parsed, its amount divides back by ten million without loss. |
| Decimals.TargetMeans | lumo/pipeline.py:118-127 | Then a number equals the target exactly when it is worth those stroops. |
| AmountTheorems.HumanAmountExactly | lumo/pipeline.py:272-302 | A human-written amount of up to 28 digits is read as k if and only if it is worth exactly k; a longer one if and only if the product is lossless. |
| AmountTheorems.HumanAmountIsRead | lumo/pipeline.py:272-302 | Spacing, grouping and currency word change nothing about what is read. |
| AmountTheorems.EighthDigitRefused | lumo/pipeline.py:296-297 | A non-zero digit beyond the seventh place makes it unpayable. |
| AmountTheorems.NormalizesOnly | lumo/pipeline.py:272-277 | Only a number with spacing, grouping and a currency word is cleaned up, and to its own digits. |
| AmountTheorems.ParsesOnlySpelled | lumo/pipeline.py:286-292 | The constructor reads only a number with point and exponent, as what it means. |
| AmountTheorems.SpelledParses | lumo/pipeline.py:286-292 | And it reads every such spelling. |
| AmountTheorems.ExponentExactly | lumo/pipeline.py:286-292 | An exponent is a mark, perhaps a sign, and digits, and counts as its number. |
| AmountTheorems.SignIsRead | lumo/pipeline.py:286-292 | Space around, underscores within and a leading sign are read as such. |
| AmountTheorems.RenderingsRoundTrip | lumo/pipeline.py:272-302 | Every rendering of up to 28 digits of stroops reads back; all renderings agree. |
| AmountTheorems.GroupedShows | lumo/pipeline.py:39-39 | Grouped thousands, cut zeros and a currency word are such a rendering. |
| AmountTheorems.OwnRenderingIsFound | lumo/pipeline.py:98-127 | When no payable-labelled line has a number, an amount is found in any text that renders it. |
| AmountTheorems.LabeledRenderingIsFound | lumo/pipeline.py:106-127 | And on any payable-labelled line whose first number renders it, whatever else the invoice says. |
| AmountTheorems.LongTextIsAltered | lumo/pipeline.py:280-302 | A written amount of 29 digits that is read one stroop short. |
| AmountTheorems.TinyTextIsZero | lumo/pipeline.py:280-302 | A written amount that is not zero and is read as zero. |
| AmountTheorems.TokensSplit | lumo/pipeline.py:34-34 | Numbers on two sides of a boundary are scanned apart. |
| AmountTheorems.TokensAreNumbers | lumo/pipeline.py:98-103 | Everything scanned is a number the constructor reads. |
| AmountTheorems.TokensStand | lumo/pipeline.py:98-103 | Everything scanned stands in the text, cut off by no digit on either side. |
| AmountTheorems.CrossCheckIsExact | lumo/pipeline.py:106-144 | For whatever string the extractor gave, the cross-check passes if and only if the invoice names that amount exactly. |
| AmountTheorems.CrossCheckReadsInvoice | lumo/pipeline.py:106-127 | The invoice names the amount by the first number of a payable-labelled line as soon as one of those has a number, else by any number in its text. |
| Ulid.New | lumo/db/ulid.py:7-13 | The 26-character encoding of time above chance, five bits at a time. |
| Ulid.TimestampMs | lumo/db/ulid.py:16-20 | The top of the decoded value, or an error on a foreign character. |
| Ulid.TimestampRoundTrips | lumo/db/ulid.py:7-20 | The time comes back if and only if it is below 2^50, and always modulo that. |
| Ulid.EarlierSortsFirst | lumo/db/ulid.py:7-13 | An earlier time sorts strictly first, whatever the random parts. |
| Ulid.UlidsDiffer | lumo/db/ulid.py:7-13 | Equal identifiers have equal parts. |
| Ulid.SymbolsExactly | lumo/db/ulid.py:4-4 | The symbols are the digits and the capitals other than I, L, O and U, in order. |
| Metrics.CountersInvert | lumo/monitor/metrics.py:5-14 | Events and counters are each other's inverse. |
| Metrics.CountersExactly | lumo/monitor/metrics.py:5-14 | Seven counters, each counting its own event. |
| Metrics.CountsExactly | lumo/monitor/metrics.py:41-44 | A count is how often the name stands in the log. |
| Metrics.Counters.constructor | lumo/monitor/metrics.py:31-33 | All counters start at zero, in agreement with an empty log. |
| Metrics.Counters.OnEvent | lumo/monitor/metrics.py:35-38 | After any events seen from the start the counters are the recount of the log. |
| Metrics.GaugeIsOnChainValue | lumo/monitor/metrics.py:46-49 | With linked rows synced, the gauge is the Funded value of locally linked intents plus what is claimed and not linked. |
| Metrics.Reindex | lumo/monitor/metrics.py:46-49 | Summing linked rows is summing the intents they are linked to. |

## Left out

- HTTP, MCP, command line, dashboard and site: plumbing with no invariant of their own.
- Stellar SDK and command-line calls: only the three-way outcome of a submission is kept. For `lumo/chain/soroban_client.py:91-97` the adapter contract of `lumo/chain/__init__.py:5-14` is a hypothesis; a transaction hash the adapter does not know is the `hashKnown` parameter.
- SHA-256 and Ed25519: an abstract injective digest and an abstract signature check. UTF-8 encoding of the serialised text is not part of the model.
- Unicode: the injection scan, homoglyph folding and the payable-label expression are inputs (flags, text, labelled line tails). Digits, white space and lower-casing are the ASCII ones.
- AmountText.ParseDecimal: does not model exponents beyond 10^18, which the decimal constructor itself rejects.
- Serial.DailyCapHolds: one run of the pipeline is atomic, since its read and its insert are not one transaction in the program; two concurrent runs, and a run that straddles midnight, are not modelled.
- Pipeline.Run: does not model the crash on writing an amount of more than 4300 digits as text, nor the missing-rule errors; prompts and providers are an arbitrary extractor.
- SQLite: every table is a map or a sequence and every committed block one step. The supplier of a row is kept as its address, since suppliers are never renumbered.
- Protocol.DoNext: release and revert read the row twice where the model reads it once; the guards of a release are the choice to fail. The hash recorded for a release or a refund is absent, as on the command-line path.
- Flow.Attest: is stated on its own and is not a step of the protocol; on chain it is covered by the outside calls.
- Flow.Client.CreateIntent: a transaction hash already in the pool is refused, since the network never issues one twice.
- Escrow: storage time-to-live and archival, ledger fees, trustlines, the 128-bit bound on balances, and tokens that do not conserve.
- The gauge of open intents (`lumo/monitor/metrics.py:50-53`): a plain count of three statuses.
- Webhooks, event delivery and the recent-event buffer: side channels. Of the event log only the names matter to the metrics.
