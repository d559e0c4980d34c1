/** The intent lifecycle as a machine of interleaved handlers: services/api/routes/intent_routes.go
    over the tables of services/api/core/stores.go and audit.go, with reconciler.go as one more
    kind of handler. A handler first reads one row; everything it does afterwards to the tables or
    the chain is a program of single accesses, and every access is one step of the machine. */
module Workflow {
  import opened Wrappers
  import opened Domain
  import Bytes
  import Decimal
  import PolicyEngine
  import SolanaClient
  import ZkProof

  /** What happens to a database access: it works, it fails, or it works and reports a failure. */
  datatype Fault = NoFault | Lost | AppliedButFailed

  /** A call of SubmitTransaction: the intent in the handler's memory, the fields the bytes are
      built from, what the policy re-evaluation before it read, and the clock of the expiry check. */
  datatype Submission = Submission(row: Intent, payload: Payload, policy: PolicyEngine.Env, checkedAt: int)

  datatype World = World(
    rows: map<string, Intent>,
    txs: seq<Transaction>,
    log: seq<AuditEvent>,
    submissions: seq<Submission>,
    spawned: map<(string, string), nat>
  )

  const EMPTY: World := World(map[], [], [], [], map[])

  /** What the proof of an approval is made from besides the row: the hash, the row's policy version
      and the three blinding factors. */
  datatype ProofInputs = ProofInputs(hash: Bytes.Hash, policyVersion: Bytes.Bytes, blinding: ZkProof.Blinding)

  /** A request, or a reconciliation started after a submission, with everything that it will read
      from outside the tables: clocks, fresh identifiers, policy tables, signer and chain answers. */
  datatype Op =
    | Create(tenant: string, requestId: string, walletId: string, destination: string, token: string, chain: string,
             creator: string, amount: int, idempotent: bool, newId: string, newNonce: string, now: int)
    | Approve(tenant: string, requestId: string, id: string, actor: string, policy: PolicyEngine.Env,
              zk: ProofInputs, now: int)
    | Execute(tenant: string, requestId: string, id: string, checkedAt: int, blockhash: Option<string>,
              policy: PolicyEngine.Env, signed: bool,
              submit: Result<SolanaClient.SubmitResult, SolanaClient.SubmitError>, now: int, txId: string)
    | Reject(tenant: string, requestId: string, id: string, actor: string)
    | Cancel(tenant: string, requestId: string, id: string, actor: string)
    | Reconcile(tenant: string, requestId: string, id: string, hasClient: bool, statuses: nat -> SolanaClient.Status,
                maxRetries: int, now: int)

  /** The intent an operation works on. */
  function Target(op: Op): string {
    if op.Create? then op.newId else op.id
  }

  // -------------------------------------------------------------- programs

  /** The accesses a handler still has to make, in order. `checked` says whether the handler stops
      when Update reports an error or ignores it. */
  datatype Prog =
    | Done
    | Insert(row: Intent, next: Prog)
    | FindNonce(nonce: string, next: Prog)
    | NonceGuard(nonce: string, next: Prog)
    | Save(row: Intent, checked: bool, next: Prog)
    | Log(event: AuditEvent, next: Prog)
    | Submit(submission: Submission, next: Prog)
    | InsertTx(tx: Transaction, next: Prog)
    | Spawn(tenant: string, id: string, next: Prog)
    | FindTx(id: string, now: int, next: Prog)
    | ConfirmTx(id: string, now: int, next: Prog)

  function Entry(op: Op, actor: string, action: Action, outcome: Outcome): AuditEvent {
    AuditEvent(op.tenant, actor, action, Target(op), op.requestId, outcome)
  }

  function Created(op: Op): Intent
    requires op.Create?
  {
    NewIntent(op.newId, op.newNonce, op.tenant, op.walletId, op.destination, op.token, op.chain, op.creator, op.amount,
              op.now)
  }

  function CreateBody(op: Op): Prog
    requires op.Create?
  {
    Insert(Created(op), Log(Entry(op, op.creator, IntentCreated, Success), Done))
  }

  function Refused(row: Intent, reason: Reason): Intent {
    row.(status := Rejected, failureReason := Some(reason))
  }

  function FailedRow(row: Intent, reason: Reason): Intent {
    row.(status := Failed, failureReason := Some(reason))
  }

  /** The proof that the generator makes for a row, once its guard has passed. */
  function ProofOf(op: Op, row: Intent): ZkProof.Proof
    requires op.Approve? && ZkProof.CanGenerate(row.amount, APPROVAL_LIMIT)
  {
    ZkProof.Assemble(op.zk.hash, ZkProof.Low64(APPROVAL_LIMIT),
      ZkProof.PublicInputs(ZkProof.Low64(Decimal.ParseBig(row.amount).value), op.zk.policyVersion,
                           Bytes.Utf8(row.id), Bytes.Utf8(row.walletId)),
      op.zk.blinding)
  }

  predicate ProofVerifies(op: Op, row: Intent)
    requires op.Approve?
  {
    && ZkProof.CanGenerate(row.amount, APPROVAL_LIMIT)
    && ZkProof.Verdict(op.zk.hash, ProofOf(op, row)) == Ok(true)
  }

  function ApproveBody(op: Op, row: Intent): Prog
    requires op.Approve?
  {
    if row.tenantId != op.tenant || row.status != Pending then Done
    else if PolicyEngine.Lookup(op.policy, row).Err? then
      Log(Entry(op, op.actor, IntentFailed, Failure), Done)
    else if !PolicyEngine.Allows(op.policy, row) then
      Save(Refused(row, PolicyDenied), false, Log(Entry(op, op.actor, IntentPolicyDenied, Denied), Done))
    else if !ZkProof.CanGenerate(row.amount, APPROVAL_LIMIT) then
      Log(Entry(op, op.actor, IntentFailed, Failure), Done)
    else if !ProofVerifies(op, row) then
      Save(Refused(row, PolicyDenied), false, Log(Entry(op, op.actor, IntentZkDenied, Denied), Done))
    else
      Save(row.(status := Approved, approvedAt := Some(op.now)), true,
           Log(Entry(op, op.actor, IntentApproved, Success), Done))
  }

  const PLACEHOLDER: string := "placeholder-blockhash"

  function BlockhashUsed(op: Op): string
    requires op.Execute?
  {
    if op.blockhash.Some? then op.blockhash.value else PLACEHOLDER
  }

  function PayloadOf(row: Intent, blockhash: string): Payload {
    Payload(row.walletId, row.token, row.amount, row.destination, blockhash)
  }

  function FailAs(op: Op, row: Intent, reason: Reason, action: Action, outcome: Outcome): Prog {
    Save(FailedRow(row, reason), false, Log(Entry(op, "system", action, outcome), Done))
  }

  /** From the submission on. */
  function SubmitBody(op: Op, row: Intent): Prog
    requires op.Execute?
  {
    var payload := PayloadOf(row, BlockhashUsed(op));
    Submit(Submission(row, payload, op.policy, op.checkedAt),
      if op.submit.Err? || !op.submit.value.success then
        FailAs(op, row, SubmissionFailed, IntentFailed, Failure)
      else
        var signature := op.submit.value.signature;
        Save(row.(status := Submitted, executedAt := Some(op.now), txSignature := signature), true,
          InsertTx(Transaction(op.txId, row.id, op.tenant, row.walletId, payload, TxSubmitted, op.now, None, signature),
            Log(Entry(op, "system", IntentSubmittedOnChain, Success), Spawn(op.tenant, row.id, Done)))))
  }

  /** From the simulation on; `row` is the intent in memory, already executing. */
  function ExecutingBody(op: Op, row: Intent): Prog
    requires op.Execute?
  {
    match Decimal.ParseInt64(row.amount)
    case Err(_) => FailAs(op, row, SimulationFailed, IntentFailed, Failure)
    case Ok(v) =>
      if v <= 0 then FailAs(op, row, SimulationFailed, IntentSimulated, SimulationDenied)
      else
        Log(Entry(op, "system", IntentSimulated, Success),
          if !PolicyEngine.Allows(op.policy, row) then FailAs(op, row, PolicyDenied, IntentPolicyDenied, Denied)
          else if !op.signed then FailAs(op, row, SigningFailed, IntentFailed, Failure)
          else Log(Entry(op, "system", IntentSigned, Success), SubmitBody(op, row)))
  }

  function ExecuteBody(op: Op, row: Intent): Prog
    requires op.Execute?
  {
    if row.tenantId != op.tenant || row.status != Approved then Done
    else if op.checkedAt > row.expiry then
      Save(row.(status := Expired, failureReason := Some(IntentExpired)), false,
           Log(Entry(op, "system", IntentExpiredEvent, Success), Done))
    else
      var executing := row.(status := Executing);
      FindNonce(row.nonce,
        Save(executing, true, Log(Entry(op, "user", IntentExecuting, Success), ExecutingBody(op, executing))))
  }

  function RejectBody(op: Op, row: Intent): Prog
    requires op.Reject? || op.Cancel?
  {
    Save(Refused(row, RejectedByUser), true, Log(Entry(op, op.actor, IntentRejected, Success), Done))
  }

  function ConfirmBody(op: Op, row: Intent): Prog
    requires op.Reconcile?
  {
    Save(row.(status := Confirmed, confirmedAt := Some(op.now)), true,
      FindTx(row.id, op.now,
        Log(AuditEvent(row.tenantId, "system", IntentConfirmed, row.id, op.requestId, Success), Done)))
  }

  function ReconcileBody(op: Op, row: Intent): Prog
    requires op.Reconcile?
  {
    if row.status != Submitted then Done
    else if row.txSignature != "" && (op.hasClient ==>
        SolanaClient.Attempts(op.statuses, 0, SolanaClient.MAX_ATTEMPTS, SolanaClient.QueriesPerPoll(op.maxRetries)).0)
    then ConfirmBody(op, row)
    else
      Save(FailedRow(row, if row.txSignature == "" then Reconciliation else ConfirmationTimeout), true,
        Log(AuditEvent(row.tenantId, "system", IntentFailed, row.id, op.requestId, Failure), Done))
  }

  /** What an operation does once it has read its row. */
  function Body(op: Op, row: Intent): Prog
    requires !op.Create?
  {
    match op
    case Approve(_, _, _, _, _, _, _) => ApproveBody(op, row)
    case Execute(_, _, _, _, _, _, _, _, _, _) => ExecuteBody(op, row)
    case Reject(tenant, _, _, _) => if row.tenantId != tenant then Done else RejectBody(op, row)
    case Cancel(tenant, _, _, _) =>
      if row.tenantId != tenant || !(row.status == Pending || row.status == Executing) then Done
      else RejectBody(op, row)
    case Reconcile(_, _, _, _, _, _, _) => ReconcileBody(op, row)
  }

  // ----------------------------------------------------------------- steps

  /** An earlier intent of the tenant that the idempotency scan would call a duplicate. */
  predicate Duplicate(w: World, op: Op)
    requires op.Create?
  {
    exists id :: id in w.rows && SameRequest(w.rows[id], op)
  }

  predicate SameRequest(row: Intent, op: Op)
    requires op.Create?
  {
    && row.tenantId == op.tenant && row.creator == op.creator && row.destination == op.destination
    && row.amount == Decimal.AmountToString(op.amount) && row.token == op.token
  }

  predicate Acceptable(op: Op)
    requires op.Create?
  {
    Decimal.AcceptableInput(op.walletId, op.destination, op.token, op.chain, op.creator, op.amount)
  }

  /** The first access: the row that the request names, or the scan of the tenant's intents. */
  function Begin(w: World, op: Op, fault: Fault): Prog {
    if op.Create? then
      if !Acceptable(op) || (op.idempotent && fault.NoFault? && Duplicate(w, op)) then Done else CreateBody(op)
    else if !fault.NoFault? || op.id !in w.rows then Done
    else Body(op, w.rows[op.id])
  }

  predicate IntentKnown(rows: map<string, Intent>, nonce: string) {
    exists id :: id in rows && rows[id].nonce == nonce
  }

  predicate NonceTaken(w: World, nonce: string) {
    IntentKnown(w.rows, nonce)
  }

  predicate RecordKnown(rows: map<string, Intent>, txs: seq<Transaction>, nonce: string) {
    exists i :: 0 <= i < |txs| && txs[i].intentId in rows && rows[txs[i].intentId].nonce == nonce
  }

  /** The second query of GetTransactionByNonce finds a record of the intent with that nonce. */
  predicate HasTxForNonce(w: World, nonce: string) {
    RecordKnown(w.rows, w.txs, nonce)
  }

  predicate HasTx(w: World, id: string) {
    exists i :: 0 <= i < |w.txs| && w.txs[i].intentId == id
  }

  /** Confirm the first record of an intent, if there is one. */
  function ConfirmFirst(txs: seq<Transaction>, id: string, now: int): (r: seq<Transaction>)
    ensures |r| == |txs|
  {
    if |txs| == 0 then []
    else if txs[0].intentId == id then
      [txs[0].(status := TxConfirmed, confirmedAt := Some(now))] + txs[1..]
    else [txs[0]] + ConfirmFirst(txs[1..], id, now)
  }

  /** How many reconciliations of an intent have been called for and have not started. */
  function Waiting(spawned: map<(string, string), nat>, tenant: string, id: string): nat {
    if (tenant, id) in spawned then spawned[(tenant, id)] else 0
  }

  /** The tables after the next access of a program. */
  function Effect(w: World, p: Prog, fault: Fault): World {
    match p
    case Insert(row, _) =>
      if fault.Lost? || row.id in w.rows || NonceTaken(w, row.nonce) then w else w.(rows := w.rows[row.id := row])
    case Save(row, _, _) => if fault.Lost? then w else w.(rows := w.rows[row.id := row])
    case Log(event, _) => if fault.Lost? then w else w.(log := w.log + [event])
    case Submit(s, _) => w.(submissions := w.submissions + [s])
    case InsertTx(tx, _) => if fault.Lost? then w else w.(txs := w.txs + [tx])
    case Spawn(tenant, id, _) => w.(spawned := w.spawned[(tenant, id) := Waiting(w.spawned, tenant, id) + 1])
    case ConfirmTx(id, now, _) => if fault.Lost? then w else w.(txs := ConfirmFirst(w.txs, id, now))
    case _ => w
  }

  /** What is left of a program after its next access. A lookup that finds what it looks for is
      followed by a second access. */
  function Rest(w: World, p: Prog, fault: Fault): (r: Prog)
    ensures if p.Done? then r.Done? else Size(r) < Size(p)
  {
    match p
    case Done => Done
    case Insert(row, next) =>
      if !fault.NoFault? || row.id in w.rows || NonceTaken(w, row.nonce) then Done else next
    case FindNonce(nonce, next) => if fault.NoFault? && NonceTaken(w, nonce) then NonceGuard(nonce, next) else next
    case NonceGuard(nonce, next) => if fault.NoFault? && HasTxForNonce(w, nonce) then Done else next
    case Save(_, checked, next) => if checked && !fault.NoFault? then Done else next
    case FindTx(id, now, next) => if fault.NoFault? && HasTx(w, id) then ConfirmTx(id, now, next) else next
    case _ => p.next
  }

  function Size(p: Prog): nat {
    if p.Done? then 0 else (if p.FindNonce? || p.FindTx? then 2 else 1) + Size(p.next)
  }

  // --------------------------------------------------- handlers run alone

  /** The database accesses among the next steps: calling the chain or starting a goroutine is none. */
  function Accesses(p: Prog): nat {
    if p.Done? || p.Submit? || p.Spawn? then 0 else 1
  }

  /** Only a creation without idempotency key reads nothing first. */
  predicate Reads(op: Op) {
    op.Create? ==> Acceptable(op) && op.idempotent
  }

  /** Run a program to its end; the k-th database access since the start of time meets the k-th fault. */
  function Finish(w: World, p: Prog, faults: nat -> Fault, k: nat): (World, nat)
    decreases Size(p)
  {
    if p.Done? then (w, k)
    else Finish(Effect(w, p, faults(k)), Rest(w, p, faults(k)), faults, k + Accesses(p))
  }

  lemma FinishDone(w: World, faults: nat -> Fault, k: nat)
    ensures Finish(w, Done, faults, k) == (w, k)
  {
  }

  lemma FinishStep(w: World, p: Prog, faults: nat -> Fault, k: nat)
    requires !p.Done?
    ensures Finish(w, p, faults, k)
         == Finish(Effect(w, p, faults(k)), Rest(w, p, faults(k)), faults, k + Accesses(p))
  {
  }

  /** One operation with nothing in between. */
  function Atomic(w: World, op: Op, faults: nat -> Fault, k: nat): (World, nat) {
    Finish(w, Begin(w, op, faults(k)), faults, if Reads(op) then k + 1 else k)
  }

  // ----------------------------------------------- interleaved handlers

  datatype Tid = Tid(tenant: string, n: nat)

  datatype Thread = Ready(op: Op) | Running(op: Op, prog: Prog)

  datatype Sys = Sys(w: World, threads: map<Tid, Thread>)

  const INITIAL: Sys := Sys(EMPTY, map[])

  /** A handler starts, makes its next access, or stops for good where it is. */
  datatype Event =
    | Start(tid: Tid, op: Op)
    | Tick(tid: Tid, fault: Fault)
    | Crash(tid: Tid)

  predicate Startable(sys: Sys, tid: Tid, op: Op) {
    && tid !in sys.threads && op.tenant == tid.tenant
    && (op.Reconcile? ==> Waiting(sys.w.spawned, op.tenant, op.id) > 0)
  }

  /** A reconciliation that starts does not wait any more. */
  function Launched(w: World, op: Op): World {
    if op.Reconcile? && Waiting(w.spawned, op.tenant, op.id) > 0 then
      w.(spawned := w.spawned[(op.tenant, op.id) := Waiting(w.spawned, op.tenant, op.id) - 1])
    else w
  }

  function Advance(sys: Sys, tid: Tid, fault: Fault): Sys
    requires tid in sys.threads
  {
    match sys.threads[tid]
    case Ready(op) => sys.(threads := sys.threads[tid := Running(op, Begin(sys.w, op, fault))])
    case Running(op, p) => Sys(Effect(sys.w, p, fault), sys.threads[tid := Running(op, Rest(sys.w, p, fault))])
  }

  /** An event that is not possible changes nothing, so that every sequence of events is a run. */
  function Next(sys: Sys, e: Event): Sys {
    match e
    case Start(tid, op) => if Startable(sys, tid, op) then Sys(Launched(sys.w, op), sys.threads[tid := Ready(op)]) else sys
    case Tick(tid, fault) => if tid in sys.threads then Advance(sys, tid, fault) else sys
    case Crash(tid) =>
      if tid in sys.threads then sys.(threads := sys.threads[tid := Running(sys.threads[tid].op, Done)]) else sys
  }

  function Run(sys: Sys, es: seq<Event>): Sys {
    if |es| == 0 then sys else Next(Run(sys, es[..|es| - 1]), es[|es| - 1])
  }

  lemma {:induction false} RunAppend(sys: Sys, a: seq<Event>, b: seq<Event>)
    ensures Run(sys, a + b) == Run(Run(sys, a), b)
    decreases |b|
  {
    if |b| == 0 {
      assert a + b == a;
    } else {
      assert (a + b)[..|a + b| - 1] == a + b[..|b| - 1];
      RunAppend(sys, a, b[..|b| - 1]);
    }
  }

  lemma RunSnoc(sys: Sys, es: seq<Event>, e: Event)
    ensures Run(sys, es + [e]) == Next(Run(sys, es), e)
  {
    assert (es + [e])[..|es|] == es;
  }

  /** One thread taken to its end without interruption. */
  function Ticks(tid: Tid, p: Prog, w: World, faults: nat -> Fault, k: nat): seq<Event>
    decreases Size(p)
  {
    if p.Done? then []
    else [Tick(tid, faults(k))] + Ticks(tid, Rest(w, p, faults(k)), Effect(w, p, faults(k)), faults, k + Accesses(p))
  }

  lemma {:induction false} TicksFinish(sys: Sys, tid: Tid, faults: nat -> Fault, k: nat)
    requires tid in sys.threads && sys.threads[tid].Running?
    ensures var p := sys.threads[tid].prog;
            Run(sys, Ticks(tid, p, sys.w, faults, k))
            == Sys(Finish(sys.w, p, faults, k).0, sys.threads[tid := Running(sys.threads[tid].op, Done)])
    decreases Size(sys.threads[tid].prog)
  {
    var p := sys.threads[tid].prog;
    if p.Done? {
      assert sys.threads[tid := Running(sys.threads[tid].op, Done)] == sys.threads;
    } else {
      var e := Tick(tid, faults(k));
      var sys' := Next(sys, e);
      var rest := Ticks(tid, Rest(sys.w, p, faults(k)), Effect(sys.w, p, faults(k)), faults, k + Accesses(p));
      RunSnoc(sys, [], e);
      assert [] + [e] == [e];
      RunAppend(sys, [e], rest);
      TicksFinish(sys', tid, faults, k + Accesses(p));
      assert sys'.threads[tid := Running(sys.threads[tid].op, Done)]
          == sys.threads[tid := Running(sys.threads[tid].op, Done)];
    }
  }

  /** A handler running alone is one of the machine's schedules: whatever holds of all runs of the
      machine holds of handlers that are never interleaved. */
  lemma AtomicIsASchedule(sys: Sys, tid: Tid, op: Op, faults: nat -> Fault, k: nat) returns (es: seq<Event>)
    requires Startable(sys, tid, op)
    ensures Run(sys, es) == Sys(Atomic(Launched(sys.w, op), op, faults, k).0, sys.threads[tid := Running(op, Done)])
  {
    var a, b := Start(tid, op), Tick(tid, faults(k));
    var s1 := Next(sys, a);
    var s2 := Next(s1, b);
    var k' := if Reads(op) then k + 1 else k;
    var rest := Ticks(tid, Begin(s1.w, op, faults(k)), s1.w, faults, k');
    RunSnoc(sys, [], a);
    assert [] + [a] == [a];
    RunSnoc(sys, [a], b);
    TicksFinish(s2, tid, faults, k');
    RunAppend(sys, [a] + [b], rest);
    es := [a] + [b] + rest;
    assert s2.threads[tid := Running(op, Done)] == sys.threads[tid := Running(op, Done)];
  }
}
