# VaultForge: a verified model of the intent service

VaultForge turns a payment request into an *intent*, has it approved by a policy
engine and a hash-based proof, executes it (simulate, re-evaluate, sign, submit to
Solana) and reconciles it with the chain. This project models, in Dafny, the parts of
it whose correctness spans several functions, and proves what they keep.

* **The intent lifecycle** (`Domain`, `Workflow`, `IntentRoutes`, `Invariants`,
  `Provenance`, `Outcomes`, `Decisions`, `Isolation`, `Discipline`, `Serialised`, `Undisturbed`,
  `Overlap`, `Refusal`, `Journal`, `LiveJournal`, `JournalOverlap`, `Reconciliation`).
  `IntentRoutes` holds the handlers as methods of a class over mutable tables, in the service's
  own form: load a copy of a row, edit it, save it whole. `Workflow` states the same handlers
  as programs of single table accesses and builds a machine that interleaves any number
  of them, with a fault at any access (lost, or applied but reported as failed) and a
  handler stopping anywhere. Each method is proved to have exactly the effect of its
  program, and a handler run alone is one schedule of the machine; the theorems are about
  all runs of the machine. `Outcomes` says in closed form what each handler run alone leaves, column
  by column and event by event, under every fault.
* **The rate limiter** (`RateLimit`): token buckets over whole runs, with eviction.
* **Hashes and bytes** (`Bytes`, `Merkle`, `ZkProof`, `CanonicalTx`, `SimulatedTx`): the
  Merkle root, the proof written once in Rust and once in Go, the canonical transaction
  bytes and the bytes behind the simulated hash. The hash is an arbitrary function to
  32 bytes; a binding theorem names the two byte strings that would have to collide.
* **Policies and amounts** (`PolicyEngine`, `Decimal`): the rule loop and its normal
  form, and decimal parsing with 64-bit wrap-around.
* **The Solana client** (`SolanaClient`): the retry and poll loops over a stream of answers.

The statements spell out columns, constants, offsets and hashed byte strings themselves, so that they
do not depend on how the model's own functions put them together.

What comes from outside the tables is an input of an operation: clock readings, fresh ids
and nonces, policy tables, the hash and the blinding factors of a proof, the signer's and the
chain's answers, and which access fails.

Several promises need handlers of one intent to be kept apart. A *discipline* is a set of pairs of
handler kinds no two of which are at work on one intent at once; `Serialised` proves what holds in
every run that keeps a discipline, whatever else overlaps, fails or stops, and `Overlap` proves that
each condition is the weakest one, with a run from the empty tables for every discipline that lacks
it. That run is free of faults and crashes, except where `Undisturbed` proves that no such run exists.
`Refusal`, `LiveJournal` and `JournalOverlap` do the same for submissions after a rejection and for the
audit log.

Where the code does not keep what is expected of it, the model follows the code:

* `docs/invariants.md` promises that a transaction executes at most once and that
  concurrent workers cannot execute one intent twice (I3, I10). The status check and the
  nonce lookup alone do not give this. `Overlap.AtMostOneSubmissionIff`: it holds under every
  fault and crash exactly when executions are kept apart from each other, and approvals from
  each other or from executions; an approval that read the pending row long ago is enough to
  submit an intent twice, with executions one after the other.
* It forbids signing a rejected intent (I2). A rejection that is carried out while an execution of
  the intent is past its guard, or before a pending approval saves the row, is followed by a
  submission all the same. `Refusal.RejectedNeverSubmittedIff` gives the exact condition.
* It also promises an audit event for every transition (I7). The audit log swallows the
  error of its own insert, a rejection in `ApproveIntent` and a failure in `ExecuteIntent`
  ignore the error of their update, and a checked update can be carried out although it
  reports an error. `Journal.JournalSurvivesIff` says under exactly which faults row and log
  still agree, `Journal.OneLostEventParts` parts them at the very first intent. Without any fault,
  handlers that overlap can log in another order than they save:
  `JournalOverlap.InterleavedJournalIff`.
* `RejectIntent` has no status guard: `rejected` follows every status, and a confirmed
  intent can still be rejected. `Journal.StatusesOnlyAdvance` is stated accordingly.
* A handler that read the row before its reconciliation and saves it afterwards leaves a
  confirmed record with an intent that has no confirmation time, or a record whose signature
  the intent has lost. `Overlap.RecordsAgreeIff` and `Overlap.ConfirmedRecordsAgreeIff` give
  the exact conditions.
* `ValidateAmountString` detects an overflow by the sign of the wrapped accumulator, which
  misses some: `Decimal.ScanAcceptsIff` gives the exact condition,
  `Decimal.LongAmountsCanBeMisread` a family of 2^63 numbers that are misread.
* `merkle_root` pads only before the first level: it reads past the end of a level unless
  the count is 0, 1, a power of two or one less (`Merkle.RootDefinedIff`).
* No route ever records an approver, so where a policy table holds an active signature rule
  asking for at least one, no approval saves and no execution submits, in any run
  (`Provenance.SignatureRulesStopEverything`).

## Model

| member | source | states |
|---|---|---|
| IntentRoutes.IntentHandler.CreateIntent | services/api/routes/intent_routes.go:65-104 | validation, idempotency scan of the tenant's rows, insert, audit: the tables afterwards are those of the machine's creation program run alone, under any fault at any access |
| IntentRoutes.IntentHandler.FindDuplicate | services/api/routes/intent_routes.go:87-93 | the scan finds a duplicate iff the query works and some row of the tenant is the same request |
| IntentRoutes.IntentHandler.ApproveIntent | services/api/routes/intent_routes.go:106-177 | the same for approval: tenant and status guards, policy error, policy denial, proof generation and verification, approval, with the ignored and the checked updates told apart |
| IntentRoutes.IntentHandler.ExecuteIntent | services/api/routes/intent_routes.go:179-222 | the same for execution: guards, expiry, nonce lookup, then everything below |
| IntentRoutes.IntentHandler.StartExecuting | services/api/routes/intent_routes.go:213-220 | `executing` is saved and logged before anything else happens; a reported error stops the handler |
| IntentRoutes.IntentHandler.SimulateAndSign | services/api/routes/intent_routes.go:223-280 | simulation error or denial, policy re-evaluation, signing, each failure saved and logged as its own reason |
| IntentRoutes.IntentHandler.SubmitSigned | services/api/routes/intent_routes.go:282-301 | one submission built from the intent in memory, before its outcome is looked at |
| IntentRoutes.IntentHandler.RecordSubmission | services/api/routes/intent_routes.go:303-323 | signature and time on the row, then the record, the event, and the start of reconciliation, in this order |
| IntentRoutes.IntentHandler.RejectIntent | services/api/routes/intent_routes.go:326-356 | rejects a row of the tenant whatever its status |
| IntentRoutes.IntentHandler.CancelIntent | services/api/routes/intent_routes.go:358-392 | rejects a pending or executing row of the tenant, and no other |
| IntentRoutes.IntentHandler.StartReconciler | services/api/core/reconciler.go:40-90 | skips rows that are not submitted, fails those without a signature, otherwise confirms or fails as the polls end |
| IntentRoutes.IntentHandler.ConfirmIntent | services/api/core/reconciler.go:93-121 | row first, then the query for the intent's first record and, if there is one, its save, then the event; a reported error on the row stops it |
| IntentRoutes.IntentHandler.FailIntent | services/api/core/reconciler.go:124-143 | the failed row with its reason, then the event unless the update reported an error |
| IntentRoutes.Database.Create | services/api/core/stores.go:49-51 | an id or a nonce already taken, or a fault, is reported; otherwise exactly one row is added |
| IntentRoutes.Database.Update | services/api/core/stores.go:61-63 | the whole row is replaced by the given copy, other rows untouched |
| IntentRoutes.Database.ListByTenant | services/api/core/stores.go:65-75 | exactly the tenant's rows, of one status if asked for, newest first |
| IntentRoutes.Database.GetTransactionByNonce | services/api/core/stores.go:77-88 | two queries: found exactly when some stored intent has the nonce and some record belongs to it, and neither query fails |
| IntentRoutes.ConfirmFirstAt | services/api/core/reconciler.go:103-108 | the first record of the intent is confirmed and no other record changes |
| Workflow.TicksFinish | services/api/routes/intent_routes.go:179-324 | running a handler's remaining accesses without interruption is a schedule of the machine with the same result |
| Workflow.AtomicIsASchedule | services/api/routes/intent_routes.go:65-392 | a handler that is not interleaved is one of the machine's schedules |
| Invariants.RowsAlwaysOk | services/api/routes/intent_routes.go:137-310 | in every interleaved run, every row: failure reason set iff rejected, expired or failed; approval time unless pending or rejected; execution time if submitted or confirmed; signature and confirmation time if confirmed; amounts within the approval limit once approved; nonces unique |
| Invariants.CreationColumnsNeverChange | services/api/core/stores.go:61-63 | whole-row saves of stale copies never change id, tenant, wallet, destination, token, amount, chain, nonce, creator, approvers, expiry or creation time |
| Invariants.SubmissionsAreSafe | services/api/routes/intent_routes.go:195-283 | every submission of every run has amount 1 to 100000, an approval, an expiry check within 3600 seconds of the creation, a policy re-evaluation in that execution, and a payload of wallet, token, amount and destination exactly as the intent was created with, each in its place |
| Invariants.RecordsAreSafe | services/api/routes/intent_routes.go:309-316 | every record of every run names a stored intent, its tenant and its wallet, and carries the same payload |
| Invariants.SubmissionsRespectLimits | services/api/routes/intent_routes.go:252-265 | the submitted amount is within every positive limit that an active policy sets in the table that execution read, and none of them asks for a signature |
| Invariants.SimulationAlwaysAllows | services/api/core/transaction_builder.go:32-54 | for every stored row the simulator's parser reads the amount back and finds it positive |
| Invariants.NonceLookupFindsOwnRecord | services/api/core/stores.go:77-88 | the lookup by an intent's nonce finds a record iff that intent owns one |
| Invariants.DuplicatesAreEqualAmounts | services/api/routes/intent_routes.go:89 | in every run the scan's comparison of amount strings is the comparison of the numbers |
| Provenance.SubmissionsAreApprovedAndSigned | services/api/routes/intent_routes.go:126-283 | in every interleaved run, a submission belongs to an intent that an approval saved as approved, whose policies allowed it and whose proof verified, and is made by an execution, started for the same tenant, that the signer signed, with that execution's policies and blockhash |
| Provenance.ApprovalTimesAreEarned | services/api/routes/intent_routes.go:130-173 | no row carries an approval time unless such an approval saved it |
| Provenance.SignatureRulesStopEverything | services/api/core/policy_engine.go:153-156 | in no run did an approval save, or an execution submit, an intent under a policy table with an active signature rule asking for at least one |
| Outcomes.CreationOutcome | services/api/routes/intent_routes.go:65-104 | the tables after a creation under any faults, in closed form: the conditions on the request spelled out, every column of the new row, the event and what a fault makes of each |
| Outcomes.ApprovalOutcome | services/api/routes/intent_routes.go:106-177 | the same for an approval: row and event of each of its endings, whose update stops the handler and whose does not |
| Outcomes.ExecutionOutcome | services/api/routes/intent_routes.go:179-324 | the same for an execution, on every row: guards, lookup, first save, simulation, policies, signature, the submission with its payload, the last save, the record, the call of the reconciler, and each failure with its own reason and event |
| Outcomes.RejectionOutcome | services/api/routes/intent_routes.go:326-392 | the same for a rejection and a cancellation |
| Outcomes.ReconcilerOutcome | services/api/core/reconciler.go:40-143 | the same for a reconciliation: not submitted, without a signature, without a client, confirmed and timed out |
| Decisions.CreationDecision | services/api/routes/intent_routes.go:73-101 | a row with exactly these columns is added, and nothing else but the log changes, iff the request is acceptable, not a duplicate as far as asked for and seen, id and nonce are new and the insertion is not lost |
| Decisions.ApprovalDecision | services/api/routes/intent_routes.go:112-173 | an intent becomes approved iff it is pending and the tenant's, the policies allow it, the amount is at most 100000 and the generated proof verifies, under any faults |
| Decisions.ProofDecision | services/api/routes/intent_routes.go:145-156 | within the limit the proof is the assembled one for this amount, the limit 100000, the intent id and the wallet; it verifies iff the intent has an id and none of its six digests is all zero: when the denial for the proof is reachable |
| Decisions.ExecutionDecision | services/api/routes/intent_routes.go:185-283 | exactly one submission iff approved, the tenant's, unexpired, no record seen by the two queries, policies allow again, signed, row read and saved as executing; none otherwise; the outcome and later faults make no difference |
| Decisions.RejectionDecision | services/api/routes/intent_routes.go:332-392 | a rejection rejects any row of the tenant, a cancellation a pending or executing one; nothing else but the log changes |
| Serialised.SubmittedNeverReturns | services/api/routes/intent_routes.go:126-219 | with approvals apart from each other or from executions, a submitted intent is never pending or approved again, in every run, under all faults and crashes |
| Serialised.AtMostOneSubmission | services/api/routes/intent_routes.go:195-283 | with executions apart from each other as well, no intent is submitted twice, in every run, under all faults and crashes |
| Serialised.RecordsAgree | services/api/routes/intent_routes.go:303-317 | with rejections and cancellations apart from executions as well, an intent has at most one record, which comes from its one submission and carries the row's signature |
| Serialised.ConfirmedRecordsAgree | services/api/core/reconciler.go:93-108 | a confirmed record implies a confirmation time on its intent, in every run in which nothing that read the row before its reconciliation can save it afterwards |
| Overlap.SubmittedNeverReturnsIff | services/api/routes/intent_routes.go:126-173 | a discipline keeps submitted intents from returning iff it keeps approvals apart from each other or from executions; otherwise a fault-free run from the empty tables fails |
| Overlap.AtMostOneSubmissionIff | docs/invariants.md:14-18 | a discipline keeps every intent from a second submission iff it keeps executions apart, and approvals from each other or from executions; otherwise a fault-free run from the empty tables submits twice |
| Overlap.AtMostOneSubmissionForKinds | docs/invariants.md:57-62 | keeping handlers of certain kinds apart from each other does it iff approvals and executions are among those kinds |
| Overlap.RecordsAgreeIff | services/api/routes/intent_routes.go:303-317 | records agree with their intents iff, besides, rejections and cancellations are kept apart from executions |
| Overlap.ConfirmedRecordsAgreeIff | services/api/core/reconciler.go:93-108 | confirmed records agree with their intents iff rejections are kept apart from reconciliations, cancellations, executions and approvals from reconciliations or from what would make them late, and reconciliations from each other unless there can be only one; without faults and crashes, iff the same with executions kept apart in place of there being only one |
| Overlap.ConfirmedRecordsAgreeForRequests | services/api/core/reconciler.go:93-108 | with the requests of an intent serialised, that is iff rejections wait for a reconciliation |
| Undisturbed.OneReconciliation | services/api/routes/intent_routes.go:203-322 | without faults and crashes, executions kept apart are enough for no two reconciliations of an intent ever to overlap, whatever stale approvals do |
| Refusal.RejectedNeverSubmitted | services/api/routes/intent_routes.go:342-352 | once an intent has been saved as rejected it is never submitted again, even if the row is overwritten later, in every run of such a discipline, under all faults and crashes |
| Refusal.RejectedNeverSubmittedIff | docs/invariants.md:9-12 | a discipline ensures this iff it keeps approvals from each other, from rejections and from cancellations, and executions from rejections and cancellations; otherwise a fault-free run from the empty tables submits a rejected intent |
| Overlap.OverlappingExecutionsSubmitTwice | services/api/routes/intent_routes.go:195-219 | from every state with an approved, unexpired, allowed intent without a record, two overlapping executions submit it twice without any fault |
| Overlap.RejectionBesideReconciler | services/api/routes/intent_routes.go:342-352 | wherever a submitted intent with a record waits for its reconciliation, a rejection that read the row before leaves a confirmed record and no confirmation time; that such a state is reachable is part of Overlap.ConfirmedRecordsAgreeIff |
| Isolation.NextProjects | services/api/core/stores.go:65-88 | every step of another tenant leaves a tenant's part of the system unchanged, and its own step depends on that part only |
| Isolation.NonceLookupProjects | services/api/core/stores.go:77-88 | a nonce lookup never crosses tenants |
| Isolation.TenantPurge | services/api/routes/intent_routes.go:87-374 | in every interleaved run, a tenant's rows, records, events, submissions and handlers are those of the run with all other tenants' events deleted |
| Isolation.PartOfOne | services/api/core/stores.go:65-88 | what a tenant's part of rows, records, events, submissions, calls, handlers and runs consists of |
| Journal.AuditLogIsAJournal | services/api/core/audit.go:46-119 | replaying an intent's audit events gives exactly its stored status, after every sequence of handlers each of which leaves its journal balanced |
| Journal.FaultFreeLogIsAJournal | services/api/core/audit.go:21-43 | the same whenever no database access fails |
| LiveJournal.InterleavedLogIsAJournal | services/api/core/audit.go:46-119 | handlers interleaved in any way, without faults, those of one intent kept apart as needed (next row): every intent on which no handler is at work has the status that its events replay to |
| JournalOverlap.InterleavedJournalIff | services/api/routes/intent_routes.go:97-389 | a discipline gives this iff approvals and executions are kept apart from themselves, each other, rejections and cancellations, creations from approvals, rejections and cancellations, and rejections from reconciliations |
| Journal.JournalSurvivesIff | services/api/routes/intent_routes.go:101-389 | for one handler under any faults: row and log still agree afterwards iff the last stage that leaves a trace, its update carried out or its event written, leaves both, or an already rejected intent is rejected again |
| Journal.DeniedApprovalJournalIff | services/api/routes/intent_routes.go:136-144 | after a denied approval they agree iff the update, whose error is ignored, and the event are both lost or both not |
| Journal.CreationJournalIff | services/api/routes/intent_routes.go:97-101 | after a creation they agree iff the insertion is lost, or it works and its event is not lost |
| Journal.OneLostEventParts | services/api/core/audit.go:40-42 | from the empty tables, the first intent's event the only access that fails: row and log disagree |
| Journal.StatusesOnlyAdvance | services/api/routes/intent_routes.go:126-389 | a handler run alone leaves a status or moves it strictly up pending, approved, executing, submitted, confirmed/failed/expired, rejected, under any fault |
| Journal.StatusesOnlyAdvanceInRuns | services/api/core/reconciler.go:51-143 | and so does every sequence of handlers and reconciliations |
| Reconciliation.ReconciliationOutcome | services/api/core/reconciler.go:70-143 | at most 60 * 10 * maxRetries queries and one row update; confirmed iff the last query was answered with confirmed or finalized and no earlier one was, otherwise failed with a timeout after all 60 attempts; a confirmation confirms the first record unless its query or save fails, an event with the verdict is added unless it is lost, nothing else changes |
| Reconciliation.NothingWantedTimesOut | services/api/core/reconciler.go:70-90 | a chain that never answers confirmed or finalized, whatever else it answers, leaves the intent failed with a timeout |
| Reconciliation.NoGoodAnswerIsMissed | services/api/core/reconciler.go:70-90 | with no failure reported on chain, confirmed iff confirmed or finalized appears among the 60 * 10 * maxRetries answers |
| SolanaClient.SubmitTransaction | services/api/core/solana_client.go:84-146 | at most maxRetries + 1 requests; succeeds iff some request within them is accepted after retryable answers only; each error case with the answer that causes it |
| SolanaClient.WaitForConfirmation | services/api/core/solana_client.go:149-176 | the poll loop computes the outcome and the number of queries of `Poll` over 10 * maxRetries queries |
| SolanaClient.PollUntilConfirmed | services/api/core/reconciler.go:70-85 | the attempt loop computes outcome, queries and attempts of `Attempts` |
| SolanaClient.PollOutcome | services/api/core/solana_client.go:149-176 | one poll ends at the first answer that is confirmed, finalized or a failure on chain, and otherwise after all its queries; it confirms iff that answer is confirmed or finalized |
| SolanaClient.AttemptsOutcome | services/api/core/reconciler.go:70-90 | the same over all attempts, within attempts * queries: confirmed iff the last answer is confirmed or finalized, and no earlier one is; without a confirmation every attempt has been made |
| SolanaClient.AttemptsWithoutFailures | services/api/core/reconciler.go:70-90 | with no failure on chain, confirmed iff confirmed or finalized is among all answers of all attempts |
| SolanaClient.FailuresUseUpAttempts | services/api/core/reconciler.go:70-85 | a chain that reports failures uses up one attempt with each, and no later answer is looked at |
| RateLimit.RateLimiter.Allow | services/api/core/ratelimit.go:31-52 | the tenant's bucket, or a full one, gains rate tokens a second up to the burst size; the call is allowed iff that is at least one token, and takes it; other buckets untouched |
| RateLimit.RateLimiter.GetBucket | services/api/core/ratelimit.go:54-64 | the tenant's bucket, or a fresh full one stored for it |
| RateLimit.RateLimiter.Cleanup | services/api/core/ratelimit.go:67-78 | exactly the buckets charged before now - maxAge disappear |
| RateLimit.TokensStayInRange | services/api/core/ratelimit.go:40-50 | tokens stay between zero and the burst size in every run |
| RateLimit.RateBound | services/api/core/ratelimit.go:31-52 | in every window without eviction a tenant is allowed at most burst + rate * T requests, T the seconds from its first call to its last |
| RateLimit.PatientCallIsAllowed | services/api/core/ratelimit.go:40-51 | the lower side: in every run, evictions included, a call is allowed once rate * T is at least 1 for the time since each earlier call of its tenant |
| RateLimit.TenantsDoNotInterfere | services/api/core/ratelimit.go:54-64 | deleting other tenants' calls changes no answer |
| RateLimit.PatientEvictionIsInvisible | services/api/core/ratelimit.go:67-78 | with maxAge * rate >= burst, deleting the cleanups changes no answer of any run |
| RateLimit.EvictionIsInvisibleIff | services/api/core/ratelimit.go:31-78 | deleting the cleanups changes no answer of any run iff maxAge * rate >= burst |
| Merkle.MerkleRoot | crates/crypto/src/lib.rs:200-237 | the padding and level loops compute `Root`, with the out-of-range case as `None` |
| Merkle.RootDefinedIff | crates/crypto/src/lib.rs:205-234 | they finish iff the count is 0, 1, a power of two or one less |
| Merkle.BottomUpIsTopDown | crates/crypto/src/lib.rs:209-236 | wherever they finish on two leaves or more, the result is the recursion over halves of the padded list |
| Merkle.RoundsIsTopDown | crates/crypto/src/lib.rs:215-234 | on 2^k leaves the level loop is the recursion over halves |
| Merkle.RootOfHalves | crates/crypto/src/lib.rs:200-237 | the root in terms of roots and the hash alone: zeros, the leaf itself, an odd list with a zero leaf, and the hash of the left half's root followed by the right half's |
| Merkle.SharedRootIff | crates/crypto/src/lib.rs:200-237 | two lists of any lengths have one root iff the shorter one, padded, is a level of the longer one's tree, unless their trees contain a collision: leaves and nodes are hashed alike |
| Merkle.RootBindsLeaves | crates/crypto/src/lib.rs:200-237 | two lists of equal padded length have one root iff they are one padded list, unless their trees contain a collision |
| Merkle.PaddingIsTransparent | crates/crypto/src/lib.rs:211-213 | an odd list and the same list with a zero leaf have one root |
| Bytes.ConstantTimeEq | crates/zk/src/lib.rs:484-493 | OR-ing the XORs of all bytes decides equality |
| Bytes.BytesEqual | services/api/core/zk_verifier.go:239-249 | so does stopping at the first difference |
| Bytes.ShiftLoopBytes | services/api/core/zk_verifier.go:209-217 | eight shifts fill the buffer with the little-endian encoding |
| Bytes.U64EncodingsAreInjective | crates/zk/src/lib.rs:75 | both eight-byte encodings determine the value |
| Bytes.EightBytes | crates/solana/src/lib.rs:70-104 | the eight bytes of a u64, one by one, and the big-endian order as their reverse |
| Bytes.Utf8CharDecodes | services/api/core/zk_verifier.go:181-187 | the bytes of a character are those of RFC 3629, section 3: their number, the lead and continuation bytes, and the code point they stand for |
| Bytes.Utf8Appends | services/api/core/zk_verifier.go:181-187 | a string is encoded character by character, in order |
| ZkProof.RustVerify | crates/zk/src/lib.rs:314-424 | the Rust verifier's verdict on every proof |
| ZkProof.GoVerify | services/api/core/zk_verifier.go:115-174 | the Go verifier's, an undecodable proof included |
| ZkProof.AcceptedIff | crates/zk/src/lib.rs:314-424 | the exact condition in bytes: challenge over commitments in order, amount and public strings; each response over domain, challenge and its own commitment; nothing all zero; and when each error is returned |
| ZkProof.ResponsesBind | crates/zk/src/lib.rs:433-448 | in an accepted proof two responses are equal iff their commitments are, unless two named byte strings collide |
| ZkProof.VerifiersAgree | services/api/core/zk_verifier.go:115-174 | error, false or true: both verifiers answer alike on every decoded proof |
| ZkProof.RustProve | crates/zk/src/lib.rs:181-266 | a proof iff the amount is positive and within both limits; which error otherwise |
| ZkProof.GoProve | services/api/core/zk_verifier.go:38-111 | a proof iff the string is a positive number whose low 64 bits are within the limit's; which error otherwise; the same proof as the Rust prover's |
| ZkProof.AssembledBytes | services/api/core/zk_verifier.go:57-90 | the assembled proof in bytes: what each commitment, the challenge and each response hashes |
| ZkProof.OneOpening | crates/zk/src/lib.rs:71-83 | a commitment opens to one value, one blinding factor and one domain, unless two named byte strings collide |
| ZkProof.GuardComparesAmounts | services/api/core/zk_verifier.go:39-55 | for int64 amounts that guard is 0 < amount <= limit |
| ZkProof.AssembledProofsVerifyIff | crates/zk/src/lib.rs:202-265 | a proof of either prover is accepted iff amount and intent id are not empty and no commitment or response is all zero |
| ZkProof.Completeness | crates/zk/src/lib.rs:314-424 | hence always, with a hash that is never zero |
| ZkProof.TranscriptDetermines | crates/zk/src/lib.rs:98-118 | the transcript determines commitments, amount and the joined public strings, and nothing more |
| ZkProof.ChallengeBinds | crates/zk/src/lib.rs:333-412 | beside an accepted proof, a proof with its challenge is accepted iff it says the same, unless the two transcripts collide |
| ZkProof.ChangedAmountIsRejected | crates/zk/src/lib.rs:342-344 | changing only the amount of an accepted proof is always noticed |
| CanonicalTx.TransactionBuilder.Build | crates/solana/src/lib.rs:62-109 | 153 bytes laid out field by field |
| CanonicalTx.PadInto | crates/solana/src/lib.rs:77-81 | a string truncated or NUL-padded to 32 bytes |
| CanonicalTx.SlotRoundTripIff | crates/solana/src/lib.rs:76-88 | a slot gives a string back iff it has at most 32 bytes and does not end in NUL |
| CanonicalTx.LayoutBytes | crates/solana/src/lib.rs:62-109 | what stands at each of the 153 offsets |
| CanonicalTx.DecodeLayout | crates/solana/src/lib.rs:62-109 | a fixed-offset decoder recovers every field, strings up to what their slots hold |
| CanonicalTx.DecodeIsFaithfulIff | crates/solana/src/lib.rs:62-109 | exactly the orders whose strings fit are recovered in full |
| CanonicalTx.CanonicalBytesBind | crates/solana/src/lib.rs:62-109 | at one time, two orders whose strings fit have the same bytes iff all fields and blockhash slots agree |
| SimulatedTx.SolanaTransactionBuilder.Simulate | services/api/core/transaction_builder.go:32-54 | error, denial or the hash of the bytes, by the parsed amount |
| SimulatedTx.SolanaTransactionBuilder.Build | services/api/core/transaction_builder.go:57-74 | the hash of the joined strings, the fee's two's-complement bytes and the time |
| SimulatedTx.PreimageBytes | services/api/core/transaction_builder.go:57-74 | the hashed bytes: wallet, token, amount, destination, blockhash, the fee in two's complement, the time |
| SimulatedTx.ShiftedModulus | services/api/core/transaction_builder.go:68-70 | arithmetic shifts of a signed value pick the bytes of its value modulo 256^width |
| SimulatedTx.PreimageDetermines | services/api/core/transaction_builder.go:57-74 | the hashed bytes determine the fee, the second and the joined strings, and nothing more |
| SimulatedTx.OneFieldShows | services/api/core/transaction_builder.go:57-74 | changing a single field always changes the hashed bytes |
| SimulatedTx.SimulatedHashIsSubmittedIff | services/api/core/transaction_builder.go:45-74 | the simulated hash is that of the submitted bytes iff both were built within one clock second, collisions aside |
| PolicyEngine.Evaluate | services/api/core/policy_engine.go:23-94 | allows iff every active policy in the table of the wallet's tenant passes; a denial joins exactly the labelled names of those that do not, in order; when each lookup error is returned |
| PolicyEngine.EvaluateRule | services/api/core/policy_engine.go:96-184 | the verdict of each of the seven rules written out, with its fallback; a name is on a list iff some entry has its length and equals it up to case at every position |
| PolicyEngine.EqualFoldIff | services/api/core/policy_engine.go:114-150 | two names match iff they have one length and fold alike at every position |
| PolicyEngine.ReasonsOfNext | services/api/core/policy_engine.go:42-84 | the text of each reason, and which policies give one |
| PolicyEngine.JoinOfNext | services/api/core/policy_engine.go:91-93 | reasons are joined in order, one separator between two |
| PolicyEngine.DenialsNameAPolicy | services/api/core/policy_engine.go:86-93 | the joined reason is empty iff the verdict is to allow |
| PolicyEngine.NormalForm | services/api/core/policy_engine.go:39-184 | any policy table is seven comparisons: smallest cap, largest signature count, latest start, earliest end, intersected allow-lists, united block-list |
| PolicyEngine.SummaryIsExtreme | services/api/core/policy_engine.go:96-184 | the components are the least positive limit, the greatest count, the latest start, the earliest end, what every allow-list contains and what any block-list contains, over all active policies |
| PolicyEngine.MorePoliciesDenyMore | services/api/core/policy_engine.go:42-84 | only the set of policies matters, and a larger set allows less |
| PolicyEngine.SmallerAmountsStayAllowed | services/api/core/policy_engine.go:96-112 | the verdict is downward closed in the amount |
| PolicyEngine.SignatureRulesDenyUnapproved | services/api/core/policy_engine.go:153-156 | an active signature rule asking for at least one denies every intent without approvers |
| Decimal.ParseIntentAmount | services/api/core/policy_engine.go:222-230 | the loop computes the wrapped value of the digits in the string |
| Decimal.AmountIsValueModulo | services/api/core/policy_engine.go:222-230 | on a digit string, the number modulo 2^64 read as int64; exact iff the number fits |
| Decimal.OnlyDigitsCount | services/api/core/policy_engine.go:222-230 | characters that are no digits make no difference, wherever they stand |
| Decimal.ValueOfNext | services/api/core/validation.go:39-43 | what number a digit string denotes |
| Decimal.DecimalNotation | services/api/core/domain.go:208-216 | how a number is written as a string |
| Decimal.ValidateAmountString | services/api/core/validation.go:34-49 | the loop is the left-to-right scan, errors included |
| Decimal.ScanAcceptsIff | services/api/core/validation.go:38-48 | a digit string is accepted iff no prefix denotes a number with bit 63 set, and otherwise reported as an overflow |
| Decimal.NonDigitsAreRefused | services/api/core/validation.go:34-43 | any other string is refused at its first character that is no digit, or for an overflow before it; the empty one for being empty |
| Decimal.OverflowIsGenuine | services/api/core/validation.go:44-46 | an overflow report implies a number above 2^63 - 1 |
| Decimal.NineteenDigitsAreExact | services/api/core/validation.go:34-49 | up to 19 significant digits: accepted iff the number fits, and then exact |
| Decimal.FittingAmountsAreExact | services/api/core/validation.go:34-49 | at any length, the answer is the number iff the number fits |
| Decimal.AcceptedAmountsAgree | services/api/core/validation.go:34-49 | whatever validation accepts, the policy engine reads as the same value |
| Decimal.LongAmountsCanBeMisread | services/api/core/validation.go:43-46 | every number from 2^64 below 2^64 + 2^63 is accepted as one that is 2^64 smaller |
| Decimal.StoredAmountsReadBack | services/api/core/domain.go:168-216 | a stored amount is read back unchanged by all four parsers |
| Decimal.ParsersReadIff | services/api/core/transaction_builder.go:34-40 | what the two library parsers read: digits with at most one sign, the int64 one only within its range |
| Decimal.ValidateIntentInput | services/api/core/validation.go:58-84 | the list of errors, each with its condition and its limit, in the order of the checks; none iff the request is acceptable |
| Decimal.ValidateChainIff | services/api/core/validation.go:51-55 | solana, ethereum and polygon, letter by letter in either case, and nothing else |

## Left out

- HTTP routing and binding, authentication, JSON, SQL and GORM, webhooks, metrics, logging and response codes: plumbing. Creation accepts every decoded request that the validation function accepts, a superset of what the binding tags let through.
- The listing and lookup routes for wallets, transactions and audit events: single queries.
- SHA-256, AES-GCM, key derivation and random generation: the hash is abstract, blinding factors, ids and nonces are inputs.
- crates/mpc, mpc_signer.go, programs/vault_policy, crates/policy, crates/transaction, crates/types, configuration and health checks: easy members or no logic. Signing is an input that says whether it succeeded.
- The columns updated_at, required_signatures and policy_version, priority fees of records, and ids, times and metadata of audit events: nothing modelled reads them.
- The setters of both transaction builders and compute_idempotency_key have no theorem of their own.
- IntentRoutes.IntentHandler.ExecuteIntent: the outcome of the submission is an input; SolanaClient.SubmitTransaction says which outcomes there are. Times are whole seconds.
- IntentRoutes.IntentHandler.ConfirmIntent: the first record is the one inserted first, and its save is written into the table as it then stands; nothing but a confirmation ever changes a record, so the copy read before differs from it in no other column.
- IntentRoutes.IntentHandler.ApproveIntent: a proof is verified as generated; that its JSON form decodes to the same proof is not modelled.
- Isolation.TenantPurge: assumes that ids and nonces generated for different tenants differ; the service takes both from a nanosecond clock.
- RateLimit.RateBound: tokens and times are reals, not floating-point numbers, and a call of Allow or Cleanup is one step.
- PolicyEngine.Evaluate: a policy configuration is taken after decoding, and all rules of one evaluation read one clock.
- Decimal.ValidateIntentInput: the case mapping of chain names covers ASCII letters; case folding in the policy lists is an arbitrary function of characters.
- SimulatedTx.SolanaTransactionBuilder.Build: the formatted time is an input of 20 bytes, the RFC 3339 form of years up to 9999.
