/** What holds of an intent while certain kinds of handlers are kept apart on it: a submitted intent
    never returns, it is submitted once, its record agrees with it, and so does a confirmed record.
    Database faults, crashes and all other overlaps stay arbitrary. That each condition is the
    weakest one is the subject of Overlap. */
module Serialised {
  import opened Wrappers
  import opened Domain
  import opened Workflow
  import opened Invariants
  import opened Discipline
  import Decimal
  import PolicyEngine
  import ZkProof

  // ---------------------------------------------------------- conditions

  /** Approvals are kept apart from each other or from executions. */
  predicate NoStaleApproval(d: Discipline) {
    Apart(d, Approval, Approval) || Apart(d, Approval, Execution)
  }

  predicate SubmitsOnce(d: Discipline) {
    NoStaleApproval(d) && Apart(d, Execution, Execution)
  }

  predicate RecordsStay(d: Discipline) {
    SubmitsOnce(d) && Apart(d, Execution, Rejection) && Apart(d, Execution, Cancellation)
  }

  /** No request that read the row before its reconciliation may save it afterwards. */
  predicate NoLateRequest(d: Discipline) {
    && Apart(d, Rejection, Reconciling)
    && (Apart(d, Cancellation, Reconciling) || Apart(d, Execution, Cancellation))
    && (Apart(d, Execution, Reconciling) || Apart(d, Execution, Execution))
    && (Apart(d, Approval, Reconciling) || NoStaleApproval(d))
  }

  /** Nor may another reconciliation. */
  predicate ConfirmationStays(d: Discipline) {
    NoLateRequest(d) && (Apart(d, Reconciling, Reconciling) || SubmitsOnce(d))
  }

  // ------------------------------------------------------------ programs

  /** What a program still does. */
  datatype Plan = Plan(writes: bool, submits: bool, records: bool, spawns: bool, confirms: bool)

  const NOTHING: Plan := Plan(false, false, false, false, false)

  function Ahead(p: Prog): Plan {
    match p
    case Done => NOTHING
    case Save(_, _, next) => Ahead(next).(writes := true)
    case Submit(_, next) => Ahead(next).(submits := true)
    case InsertTx(_, next) => Ahead(next).(records := true)
    case Spawn(_, _, next) => Ahead(next).(spawns := true)
    case FindTx(_, _, next) => Ahead(next).(confirms := true)
    case ConfirmTx(_, _, next) => Ahead(next).(confirms := true)
    case _ => Ahead(p.next)
  }

  function RowAfter(op: Op): set<Status> {
    match KindOf(op)
    case Creation => {}
    case Approval => {Approved, Rejected}
    case Execution => {Executing, Submitted, Failed, Expired}
    case Rejection => {Rejected}
    case Cancellation => {Rejected}
    case Reconciling => {Confirmed, Failed}
  }

  /** The handler stays on its intent; only an execution saves more than once, first as executing,
      before it submits; its record carries the signature just saved. */
  predicate Fits(op: Op, p: Prog) {
    match p
    case Done => true
    case Insert(row, next) =>
      && op.Create? && row.id == Target(op) && row.status == Pending && row.txSignature == "" && row.confirmedAt.None?
      && Ahead(next) == NOTHING && Fits(op, next)
    case FindNonce(nonce, next) => op.Execute? && LooksUp(nonce, next) && Fits(op, next)
    case NonceGuard(nonce, next) => op.Execute? && LooksUp(nonce, next) && Fits(op, next)
    case Save(row, checked, next) =>
      && row.id == Target(op) && row.status in RowAfter(op) && Fits(op, next)
      && (row.status == Executing ==> checked && !Starting(next) && !next.InsertTx?)
      && (row.status != Executing ==> !Ahead(next).writes && !Ahead(next).submits)
      && (row.status !in {Executing, Submitted} ==> !Ahead(next).records && !Ahead(next).spawns)
      && (row.status == Submitted ==> checked && next.InsertTx? && next.tx.confirmSignature == row.txSignature)
      && (Ahead(next).confirms ==> row.status == Confirmed && row.confirmedAt.Some? && checked)
    case Log(_, next) => (op.Execute? || !Ahead(next).writes) && !Starting(next) && !next.InsertTx? && Fits(op, next)
    case Submit(s, next) =>
      op.Execute? && s.row.id == Target(op) && !Ahead(next).submits && !Starting(next) && !next.InsertTx? && Fits(op, next)
    case InsertTx(tx, next) =>
      && op.Execute? && tx.intentId == Target(op) && tx.status == TxSubmitted
      && !Ahead(next).writes && !Ahead(next).submits && !Ahead(next).records && Fits(op, next)
    case Spawn(_, target, next) => op.Execute? && target == Target(op) && next.Done?
    case FindTx(target, _, next) => op.Reconcile? && target == Target(op) && Ahead(next) == NOTHING && Fits(op, next)
    case ConfirmTx(target, _, next) => op.Reconcile? && target == Target(op) && Ahead(next) == NOTHING && Fits(op, next)
  }

  /** What follows a lookup: the row with that nonce is saved as executing. */
  predicate LooksUp(nonce: string, next: Prog) {
    && next.Save? && next.row.status == Executing && next.row.nonce == nonce
    && (Ahead(next).spawns ==> Ahead(next).records)
  }

  /** An execution that has not saved its row as executing yet. */
  predicate Starting(p: Prog) {
    p.FindNonce? || p.NonceGuard? || (p.Save? && p.row.status == Executing)
  }

  /** Until it saves its own signature, a handler saves the one it has read. */
  predicate KeepsSignature(p: Prog, signature: string) {
    match p
    case Done => true
    case Save(row, _, next) => (row.status != Submitted ==> row.txSignature == signature) && KeepsSignature(next, signature)
    case _ => KeepsSignature(p.next, signature)
  }

  lemma {:induction false} NothingToSave(p: Prog, signature: string)
    requires !Ahead(p).writes
    ensures KeepsSignature(p, signature)
  {
    if p.Done? {
    } else {
      NothingToSave(p.next, signature);
    }
  }

  // ------------------------------------------- what holds of one intent

  predicate Working(t: Thread) {
    t.Running? && !t.prog.Done?
  }

  predicate Writing(t: Thread) {
    t.Running? && Ahead(t.prog).writes
  }

  predicate Early(s: Option<Status>) {
    s.None? || s.value in {Pending, Approved}
  }

  /** Neither read nor written any more by anything but a rejection. */
  predicate Settled(v: View) {
    v.confirmed && v.status in {Some(Confirmed), Some(Failed), Some(Expired), Some(Rejected)}
  }

  /** At most one reconciliation has ever been called for. */
  predicate OneCall(called: map<string, nat>) {
    (forall s, t :: s in called && t in called ==> s == t) && (forall t :: t in called ==> called[t] <= 1)
  }

  predicate IntentFine(d: Discipline, v: View) {
    && (v.records == 0 ==> v.recorded == {} && !v.txConfirmed)
    && (v.status.None? ==> v.signature == "" && !v.confirmed)
    && (NoStaleApproval(d) && v.submitted > 0 ==> !Early(v.status))
    && (SubmitsOnce(d) ==> v.submitted <= 1 && (v.called != map[] ==> v.submitted > 0) && OneCall(v.called))
    && (RecordsStay(d) ==> v.records <= 1 && (v.records > 0 ==> v.submitted > 0) && v.recorded <= {v.signature})
    && (ConfirmationStays(d) && v.txConfirmed ==> Settled(v))
  }

  predicate BaseThread(v: View, t: Thread) {
    && (t.op.Reconcile? ==> t.op.tenant in v.called)
    && (t.Running? ==> Fits(t.op, t.prog) && (Working(t) && !t.op.Create? ==> v.status.Some?))
  }

  /** A stale approval would find an intent not yet submitted, nor approved if approvals are apart. */
  predicate ReturnThread(d: Discipline, v: View, t: Thread) {
    && (t.op.Approve? && Writing(t) ==>
          v.submitted == 0 && (Apart(d, Approval, Approval) ==> v.status != Some(Approved)))
    && (t.op.Execute? && Working(t) ==> v.status != Some(Pending))
    && (t.op.Execute? && Working(t) && Ahead(t.prog).submits && !Starting(t.prog) ==> !Early(v.status))
  }

  predicate OnceThread(v: View, t: Thread) {
    && (t.op.Reconcile? ==> forall s :: s in v.called ==> v.called[s] == 0)
    && (t.op.Execute? && Working(t) ==> v.called == map[] && (Ahead(t.prog).submits ==> v.submitted == 0))
    && (t.op.Execute? && Working(t) && (Ahead(t.prog).records || Ahead(t.prog).spawns) && !Ahead(t.prog).submits ==>
          v.submitted > 0)
  }

  predicate RecordThread(v: View, t: Thread) {
    && (t.Running? ==> KeepsSignature(t.prog, v.signature))
    && (t.op.Execute? && Working(t) && Ahead(t.prog).records ==> v.records == 0)
    && (Working(t) && t.prog.InsertTx? ==> t.prog.tx.confirmSignature == v.signature)
  }

  /** Reconciling: about to save, or to confirm the record after it. */
  predicate Confirming(t: Thread) {
    t.op.Reconcile? && t.Running? && (Ahead(t.prog).writes || Ahead(t.prog).confirms)
  }

  predicate ConfirmThread(d: Discipline, v: View, t: Thread) {
    && (Writing(t) && KindOf(t.op) in {Approval, Execution, Cancellation} && !Apart(d, KindOf(t.op), Reconciling) ==>
          v.status != Some(Submitted))
    && (t.op.Reconcile? && Writing(t) ==> v.status == Some(Submitted))
    && (Confirming(t) && !Writing(t) ==> Settled(v))
    && (v.txConfirmed && Writing(t) ==> t.op.Reject? && t.prog.Save? && t.prog.row.confirmedAt.Some?)
  }

  predicate ThreadFine(d: Discipline, v: View, t: Thread) {
    && BaseThread(v, t)
    && (NoStaleApproval(d) ==> ReturnThread(d, v, t))
    && (SubmitsOnce(d) ==> OnceThread(v, t))
    && (RecordsStay(d) ==> RecordThread(v, t))
    && (ConfirmationStays(d) ==> ConfirmThread(d, v, t))
  }

  /** Of two handlers at work on one intent. */
  predicate PairFine(d: Discipline, t: Thread, u: Thread) {
    && !(Live(t) && Live(u) && Apart(d, KindOf(t.op), KindOf(u.op)))
    && (NoStaleApproval(d) ==> !(t.op.Approve? && Writing(t) && u.op.Execute? && Working(u)))
    && (NoStaleApproval(d) ==> !(u.op.Approve? && Writing(u) && t.op.Execute? && Working(t)))
    && (SubmitsOnce(d) ==> !(t.op.Reconcile? && u.op.Reconcile?))
    && (ConfirmationStays(d) ==> !(Confirming(t) && Writing(u)) && !(Confirming(u) && Writing(t)))
  }

  // ------------------------------------------------ one step on the view

  lemma OwnBase(d: Discipline, v: View, op: Op, p: Prog, fault: Fault, rest: Prog, v': View)
    requires BaseThread(v, Running(op, p)) && IntentFine(d, v) && Steps(v, p, fault, rest, v')
    ensures BaseThread(v', Running(op, rest))
    ensures v'.records == 0 ==> v'.recorded == {} && !v'.txConfirmed
    ensures v'.status.None? ==> v'.signature == "" && !v'.confirmed
  {
  }

  lemma OwnReturn(d: Discipline, v: View, op: Op, p: Prog, fault: Fault, rest: Prog, v': View)
    requires NoStaleApproval(d) && BaseThread(v, Running(op, p)) && ReturnThread(d, v, Running(op, p))
    requires IntentFine(d, v) && Steps(v, p, fault, rest, v')
    ensures ReturnThread(d, v', Running(op, rest)) && (v'.submitted > 0 ==> !Early(v'.status))
  {
  }

  lemma OwnOnce(d: Discipline, v: View, op: Op, p: Prog, fault: Fault, rest: Prog, v': View)
    requires SubmitsOnce(d) && BaseThread(v, Running(op, p)) && OnceThread(v, Running(op, p))
    requires IntentFine(d, v) && Steps(v, p, fault, rest, v')
    ensures OnceThread(v', Running(op, rest)) && v'.submitted <= 1
    ensures (v'.called != map[] ==> v'.submitted > 0) && OneCall(v'.called)
  {
    if p.Spawn? {
      assert Ahead(p) == Ahead(p.next).(spawns := true) && Ahead(p.next) == NOTHING;
    }
  }

  lemma OwnRecord(d: Discipline, v: View, op: Op, p: Prog, fault: Fault, rest: Prog, v': View)
    requires RecordsStay(d) && BaseThread(v, Running(op, p)) && RecordThread(v, Running(op, p))
    requires OnceThread(v, Running(op, p)) && IntentFine(d, v) && Steps(v, p, fault, rest, v')
    ensures RecordThread(v', Running(op, rest))
    ensures v'.records <= 1 && (v'.records > 0 ==> v'.submitted > 0) && v'.recorded <= {v'.signature}
  {
    if p.Save? && !Ahead(p.next).writes {
      NothingToSave(p.next, v'.signature);
    }
  }

  lemma OwnConfirm(d: Discipline, v: View, op: Op, p: Prog, fault: Fault, rest: Prog, v': View)
    requires ConfirmationStays(d) && BaseThread(v, Running(op, p)) && ConfirmThread(d, v, Running(op, p))
    requires IntentFine(d, v) && Steps(v, p, fault, rest, v')
    ensures ConfirmThread(d, v', Running(op, rest)) && (v'.txConfirmed ==> Settled(v'))
  {
  }

  // --------------------------------------- another handler's step on the view

  lemma OtherBase(v: View, p: Prog, fault: Fault, rest: Prog, v': View, u: Thread)
    requires BaseThread(v, u) && Steps(v, p, fault, rest, v')
    ensures BaseThread(v', u)
  {
  }

  lemma PlanShrinks(v: View, p: Prog, fault: Fault, rest: Prog, v': View)
    requires Steps(v, p, fault, rest, v')
    ensures Ahead(rest).writes ==> Ahead(p).writes
    ensures Ahead(rest).confirms ==> Ahead(p).confirms
    ensures Ahead(rest).submits ==> Ahead(p).submits
    ensures p.Done? ==> rest.Done?
  {
  }

  lemma OtherPair(d: Discipline, v: View, op: Op, p: Prog, fault: Fault, rest: Prog, v': View, u: Thread)
    requires PairFine(d, Running(op, p), u) && Steps(v, p, fault, rest, v')
    ensures PairFine(d, Running(op, rest), u) && PairFine(d, u, Running(op, rest))
  {
    hide Ahead, Steps;
    PlanShrinks(v, p, fault, rest, v');
  }

  lemma OtherReturn(d: Discipline, v: View, op: Op, p: Prog, fault: Fault, rest: Prog, v': View, u: Thread)
    requires NoStaleApproval(d) && BaseThread(v, Running(op, p)) && ReturnThread(d, v, Running(op, p))
    requires IntentFine(d, v) && Steps(v, p, fault, rest, v')
    requires BaseThread(v, u) && ReturnThread(d, v, u) && PairFine(d, Running(op, p), u)
    ensures ReturnThread(d, v', u)
  {
  }

  lemma OtherOnce(d: Discipline, v: View, op: Op, p: Prog, fault: Fault, rest: Prog, v': View, u: Thread)
    requires SubmitsOnce(d) && BaseThread(v, Running(op, p)) && OnceThread(v, Running(op, p)) && Steps(v, p, fault, rest, v')
    requires BaseThread(v, u) && OnceThread(v, u) && PairFine(d, Running(op, p), u)
    ensures OnceThread(v', u)
  {
  }

  lemma OtherRecord(d: Discipline, v: View, op: Op, p: Prog, fault: Fault, rest: Prog, v': View, u: Thread)
    requires RecordsStay(d) && BaseThread(v, Running(op, p)) && RecordThread(v, Running(op, p))
    requires IntentFine(d, v) && Steps(v, p, fault, rest, v')
    requires OnceThread(v, Running(op, p)) && BaseThread(v, u) && RecordThread(v, u) && PairFine(d, Running(op, p), u)
    ensures RecordThread(v', u)
  {
    if u.Running? && !Ahead(u.prog).writes {
      NothingToSave(u.prog, v'.signature);
    }
  }

  lemma OtherConfirm(d: Discipline, v: View, op: Op, p: Prog, fault: Fault, rest: Prog, v': View, u: Thread)
    requires ConfirmationStays(d) && BaseThread(v, Running(op, p)) && ConfirmThread(d, v, Running(op, p))
    requires IntentFine(d, v) && Steps(v, p, fault, rest, v')
    requires BaseThread(v, u) && ConfirmThread(d, v, u) && PairFine(d, Running(op, p), u)
    ensures ConfirmThread(d, v', u)
  {
  }

  // ------------------------------------------------------- what handlers do

  /** A program that fits its operation and keeps the signature read, with the given plan. */
  predicate Shaped(op: Op, p: Prog, signature: string, plan: Plan) {
    Fits(op, p) && KeepsSignature(p, signature) && Ahead(p) == plan && !Starting(p) && !p.InsertTx?
  }

  const WRITING: Plan := NOTHING.(writes := true)

  lemma LogShaped(op: Op, event: AuditEvent, next: Prog, signature: string, plan: Plan)
    ensures Shaped(op, Done, signature, NOTHING)
    ensures Shaped(op, next, signature, plan) && (op.Execute? || !plan.writes) ==>
      Shaped(op, Log(event, next), signature, plan)
  {
  }

  lemma SaveAndLogShaped(op: Op, row: Intent, checked: bool, event: AuditEvent)
    requires row.id == Target(op) && row.status in RowAfter(op) && row.status !in {Executing, Submitted}
    ensures Shaped(op, Save(row, checked, Log(event, Done)), row.txSignature, WRITING)
  {
    LogShaped(op, event, Done, row.txSignature, NOTHING);
    var p := Save(row, checked, Log(event, Done));
    assert Ahead(p) == Ahead(p.next).(writes := true);
  }

  lemma FailAsShaped(op: Op, row: Intent, reason: Reason, action: Action, outcome: Outcome)
    requires op.Execute? && row.id == op.id
    ensures Shaped(op, FailAs(op, row, reason, action, outcome), row.txSignature, WRITING)
  {
    SaveAndLogShaped(op, FailedRow(row, reason), false, Entry(op, "system", action, outcome));
  }

  lemma RecordShaped(op: Op, row: Intent, tx: Transaction, event: AuditEvent, tenant: string, signature: string)
    requires op.Execute? && row.id == op.id && row.status == Submitted
    requires tx.intentId == op.id && tx.status == TxSubmitted && tx.confirmSignature == row.txSignature
    ensures var p := Save(row, true, InsertTx(tx, Log(event, Spawn(tenant, op.id, Done))));
            Shaped(op, p, signature, WRITING.(records := true, spawns := true))
  {
    var p := Save(row, true, InsertTx(tx, Log(event, Spawn(tenant, op.id, Done))));
    var spawn := Spawn(tenant, op.id, Done);
    assert Ahead(spawn) == NOTHING.(spawns := true) && Fits(op, spawn) && KeepsSignature(spawn, signature);
    LogShaped(op, event, spawn, signature, NOTHING.(spawns := true));
    assert Fits(op, p.next) && Ahead(p.next) == NOTHING.(spawns := true, records := true);
    assert KeepsSignature(p.next, signature);
    assert Ahead(p) == Ahead(p.next).(writes := true);
  }

  /** An execution's plan: it records and spawns only after it submits, and spawns only if it records. */
  predicate ExecutionPlan(plan: Plan) {
    plan.writes && !plan.confirms && (plan.records ==> plan.submits) && (plan.spawns ==> plan.records)
  }

  lemma SubmitShaped(op: Op, row: Intent)
    requires op.Execute? && row.id == op.id
    ensures var p := SubmitBody(op, row);
            && Fits(op, p) && KeepsSignature(p, row.txSignature) && !Starting(p)
            && Ahead(p).submits && ExecutionPlan(Ahead(p))
  {
    hide FailAs;
    var p := SubmitBody(op, row);
    FailAsShaped(op, row, SubmissionFailed, IntentFailed, Failure);
    if op.submit.Ok? && op.submit.value.success {
      var save := p.next;
      RecordShaped(op, save.row, save.next.tx, save.next.next.event, op.tenant, row.txSignature);
    }
    assert Ahead(p) == Ahead(p.next).(submits := true);
  }

  lemma ExecutingShaped(op: Op, row: Intent)
    requires op.Execute? && row.id == op.id
    ensures var p := ExecutingBody(op, row); Shaped(op, p, row.txSignature, Ahead(p)) && ExecutionPlan(Ahead(p))
  {
    FailAsShaped(op, row, SimulationFailed, IntentFailed, Failure);
    FailAsShaped(op, row, SimulationFailed, IntentSimulated, SimulationDenied);
    FailAsShaped(op, row, PolicyDenied, IntentPolicyDenied, Denied);
    FailAsShaped(op, row, SigningFailed, IntentFailed, Failure);
    SubmitShaped(op, row);
    hide FailAs, SubmitBody, PolicyEngine.Allows, Decimal.ParseInt64;
    var submit := SubmitBody(op, row);
    assert submit.Submit? by { SubmitIsFirst(op, row); }
    var simulated, signed := Entry(op, "system", IntentSimulated, Success), Entry(op, "system", IntentSigned, Success);
    LogShaped(op, signed, submit, row.txSignature, Ahead(submit));
    LogShaped(op, simulated, Log(signed, submit), row.txSignature, Ahead(submit));
    LogShaped(op, simulated, FailAs(op, row, PolicyDenied, IntentPolicyDenied, Denied), row.txSignature, WRITING);
    LogShaped(op, simulated, FailAs(op, row, SigningFailed, IntentFailed, Failure), row.txSignature, WRITING);
  }

  lemma SubmitIsFirst(op: Op, row: Intent)
    requires op.Execute?
    ensures SubmitBody(op, row).Submit?
  {
  }

  lemma ExecuteShaped(op: Op, row: Intent)
    requires op.Execute? && row.id == op.id
    ensures var p := ExecuteBody(op, row);
            && Fits(op, p) && KeepsSignature(p, row.txSignature) && !p.InsertTx?
            && (!p.Done? ==> row.status == Approved && ExecutionPlan(Ahead(p)) && (Ahead(p).submits ==> p.FindNonce?))
  {
    hide ExecutingBody;
    if row.tenantId == op.tenant && row.status == Approved {
      var expired := row.(status := Expired, failureReason := Some(IntentExpired));
      SaveAndLogShaped(op, expired, false, Entry(op, "system", IntentExpiredEvent, Success));
      var executing, event := row.(status := Executing), Entry(op, "user", IntentExecuting, Success);
      ExecutingShaped(op, executing);
      var body := ExecutingBody(op, executing);
      LogShaped(op, event, body, row.txSignature, Ahead(body));
      var save := Save(executing, true, Log(event, body));
      assert Fits(op, save) && KeepsSignature(save, row.txSignature) && Ahead(save) == Ahead(body);
      var p := FindNonce(row.nonce, save);
      assert Fits(op, p) && KeepsSignature(p, row.txSignature) && Ahead(p) == Ahead(save);
    }
  }

  lemma ApproveShaped(op: Op, row: Intent)
    requires op.Approve? && row.id == op.id
    ensures var p := ApproveBody(op, row);
            || Shaped(op, p, row.txSignature, NOTHING)
            || (Shaped(op, p, row.txSignature, WRITING) && row.status == Pending)
  {
    hide PolicyEngine.Allows, PolicyEngine.Lookup, ZkProof.CanGenerate, ProofVerifies, Shaped;
    LogShaped(op, Entry(op, op.actor, IntentFailed, Failure), Done, row.txSignature, NOTHING);
    var refused, approved := Refused(row, PolicyDenied), row.(status := Approved, approvedAt := Some(op.now));
    SaveAndLogShaped(op, refused, false, Entry(op, op.actor, IntentPolicyDenied, Denied));
    SaveAndLogShaped(op, refused, false, Entry(op, op.actor, IntentZkDenied, Denied));
    SaveAndLogShaped(op, approved, true, Entry(op, op.actor, IntentApproved, Success));
  }

  lemma ReconcileShaped(op: Op, row: Intent)
    requires op.Reconcile? && row.id == op.id
    ensures var p := ReconcileBody(op, row);
            && Fits(op, p) && KeepsSignature(p, row.txSignature) && !p.InsertTx? && !Starting(p)
            && (!p.Done? ==> row.status == Submitted && p.Save?)
  {
    if row.status == Submitted {
      var failed := FailedRow(row, if row.txSignature == "" then Reconciliation else ConfirmationTimeout);
      SaveAndLogShaped(op, failed, true, AuditEvent(row.tenantId, "system", IntentFailed, row.id, op.requestId, Failure));
      var p := ConfirmBody(op, row);
      LogShaped(op, p.next.next.event, Done, row.txSignature, NOTHING);
      assert Ahead(p.next.next) == NOTHING;
      assert Fits(op, p.next) && KeepsSignature(p.next, row.txSignature);
      assert Ahead(p.next) == NOTHING.(confirms := true);
      assert Fits(op, p) && KeepsSignature(p, row.txSignature);
    }
  }

  // ---------------------------------------------------- reading the row

  /** The view shows the row just read. */
  predicate Shows(v: View, row: Intent) {
    v.status == Some(row.status) && v.signature == row.txSignature && v.confirmed == row.confirmedAt.Some?
  }

  /** What a handler does after reading a row, and when it does nothing. */
  lemma BodyPlan(op: Op, row: Intent)
    requires !op.Create? && row.id == op.id
    ensures var p := Body(op, row);
            && Fits(op, p) && KeepsSignature(p, row.txSignature) && !p.InsertTx?
            && (op.Approve? && Ahead(p).writes ==> row.status == Pending)
            && (op.Execute? && !p.Done? ==>
                  row.status == Approved && ExecutionPlan(Ahead(p)) && (Ahead(p).submits ==> p.FindNonce?))
            && (op.Cancel? && Ahead(p).writes ==> row.status in {Pending, Executing})
            && (op.Reject? && Ahead(p).writes ==> p.Save? && p.row.confirmedAt == row.confirmedAt)
            && (op.Reconcile? && !p.Done? ==> row.status == Submitted && p.Save?)
  {
    hide ApproveBody, ExecuteBody, ReconcileBody, ExecutionPlan;
    match op {
      case Approve(_, _, _, _, _, _, _) => ApproveShaped(op, row);
      case Execute(_, _, _, _, _, _, _, _, _, _) => ExecuteShaped(op, row);
      case Reconcile(_, _, _, _, _, _, _) => ReconcileShaped(op, row);
      case Reject(_, _, _, _) => RejectShaped(op, row);
      case Cancel(_, _, _, _) => RejectShaped(op, row);
    }
  }

  lemma RejectShaped(op: Op, row: Intent)
    requires (op.Reject? || op.Cancel?) && row.id == op.id
    ensures Shaped(op, RejectBody(op, row), row.txSignature, WRITING)
    ensures Shaped(op, Done, row.txSignature, NOTHING)
  {
    SaveAndLogShaped(op, Refused(row, RejectedByUser), true, Entry(op, op.actor, IntentRejected, Success));
    LogShaped(op, Entry(op, op.actor, IntentRejected, Success), Done, row.txSignature, NOTHING);
  }

  lemma BodyFine(d: Discipline, v: View, op: Op, row: Intent)
    requires !op.Create? && row.id == op.id && IntentFine(d, v) && Shows(v, row)
    requires ThreadFine(d, v, Ready(op))
    ensures ThreadFine(d, v, Running(op, Body(op, row)))
  {
    BodyPlan(op, row);
    hide Body, Fits, KeepsSignature;
    var p := Body(op, row);
    if p.Done? {
      DonePlan(p, v.signature);
    }
  }

  lemma DonePlan(p: Prog, signature: string)
    requires p.Done?
    ensures Ahead(p) == NOTHING && KeepsSignature(p, signature)
  {
  }

  lemma BodyPair(d: Discipline, v: View, op: Op, row: Intent, u: Thread)
    requires !op.Create? && row.id == op.id && Shows(v, row)
    requires PairFine(d, Ready(op), u) && ThreadFine(d, v, u)
    ensures PairFine(d, Running(op, Body(op, row)), u)
  {
    BodyPlan(op, row);
    hide Body, Fits, KeepsSignature, IntentFine, OneCall;
    DonePlan(Done, "");
  }

  lemma CreateFine(d: Discipline, v: View, op: Op)
    requires op.Create? && IntentFine(d, v)
    ensures ThreadFine(d, v, Running(op, CreateBody(op)))
    ensures Ahead(CreateBody(op)) == NOTHING
  {
    LogShaped(op, Entry(op, op.creator, IntentCreated, Success), Done, v.signature, NOTHING);
    var p := CreateBody(op);
    assert Ahead(p) == Ahead(p.next);
    assert KeepsSignature(p, v.signature);
  }

  // ---------------------------------------------------------------- runs

  ghost predicate SysFine(d: Discipline, sys: Sys) {
    && (forall id :: IntentFine(d, ViewOf(sys.w, id)))
    && (forall t :: t in sys.threads ==> ThreadFine(d, ViewOf(sys.w, Target(sys.threads[t].op)), sys.threads[t]))
    && (forall t, u :: t in sys.threads && u in sys.threads && t != u ==>
          Target(sys.threads[t].op) == Target(sys.threads[u].op) ==> PairFine(d, sys.threads[t], sys.threads[u]))
  }

  lemma OwnFine(d: Discipline, v: View, op: Op, p: Prog, fault: Fault, rest: Prog, v': View)
    requires ThreadFine(d, v, Running(op, p)) && IntentFine(d, v) && Steps(v, p, fault, rest, v')
    ensures ThreadFine(d, v', Running(op, rest)) && IntentFine(d, v')
  {
    OwnBase(d, v, op, p, fault, rest, v');
    if NoStaleApproval(d) {
      OwnReturn(d, v, op, p, fault, rest, v');
    }
    if SubmitsOnce(d) {
      OwnOnce(d, v, op, p, fault, rest, v');
    }
    if RecordsStay(d) {
      OwnRecord(d, v, op, p, fault, rest, v');
    }
    if ConfirmationStays(d) {
      OwnConfirm(d, v, op, p, fault, rest, v');
    }
    hide Steps, BaseThread, ReturnThread, OnceThread, RecordThread, ConfirmThread, Settled, Early;
  }

  lemma OtherFine(d: Discipline, v: View, op: Op, p: Prog, fault: Fault, rest: Prog, v': View, u: Thread)
    requires ThreadFine(d, v, Running(op, p)) && IntentFine(d, v) && Steps(v, p, fault, rest, v')
    requires ThreadFine(d, v, u) && PairFine(d, Running(op, p), u)
    ensures ThreadFine(d, v', u) && PairFine(d, Running(op, rest), u) && PairFine(d, u, Running(op, rest))
  {
    hide Steps, BaseThread, ReturnThread, OnceThread, RecordThread, ConfirmThread, Settled, Early, PairFine, IntentFine;
    OtherBase(v, p, fault, rest, v', u);
    OtherPair(d, v, op, p, fault, rest, v', u);
    if NoStaleApproval(d) {
      OtherReturn(d, v, op, p, fault, rest, v', u);
    }
    if SubmitsOnce(d) {
      OtherOnce(d, v, op, p, fault, rest, v', u);
    }
    if RecordsStay(d) {
      OtherRecord(d, v, op, p, fault, rest, v', u);
    }
    if ConfirmationStays(d) {
      OtherConfirm(d, v, op, p, fault, rest, v', u);
    }
  }

  lemma FitsStaysOn(op: Op, p: Prog)
    requires Fits(op, p)
    ensures OnlyOn(p, Target(op))
  {
  }

  lemma StepFine(d: Discipline, sys: Sys, tid: Tid, fault: Fault)
    requires SysFine(d, sys) && tid in sys.threads && sys.threads[tid].Running?
    ensures SysFine(d, Next(sys, Tick(tid, fault)))
  {
    hide ThreadFine, PairFine, IntentFine, ViewOf, Effect, Rest, Steps;
    var op, p := sys.threads[tid].op, sys.threads[tid].prog;
    var w', rest := Effect(sys.w, p, fault), Rest(sys.w, p, fault);
    var own := Target(op);
    var v, v' := ViewOf(sys.w, own), ViewOf(w', own);
    assert Fits(op, p) by {
      FineFits(d, v, op, p);
    }
    FitsStaysOn(op, p);
    forall id ensures id != own ==> ViewOf(w', id) == ViewOf(sys.w, id) {
      EffectViews(sys.w, p, fault, own, id);
    }
    EffectViews(sys.w, p, fault, own, own);
    OwnFine(d, v, op, p, fault, rest, v');
    forall t | t in sys.threads && t != tid && Target(sys.threads[t].op) == own
      ensures ThreadFine(d, v', sys.threads[t])
      ensures PairFine(d, Running(op, rest), sys.threads[t]) && PairFine(d, sys.threads[t], Running(op, rest))
    {
      OtherFine(d, v, op, p, fault, rest, v', sys.threads[t]);
    }
  }

  lemma FineFits(d: Discipline, v: View, op: Op, p: Prog)
    requires ThreadFine(d, v, Running(op, p))
    ensures Fits(op, p)
  {
  }

  /** A thread whose tables stay as they are goes on as `t'`. */
  lemma ReplaceFine(d: Discipline, sys: Sys, tid: Tid, t': Thread)
    requires SysFine(d, sys) && (tid in sys.threads ==> Target(sys.threads[tid].op) == Target(t'.op))
    requires ThreadFine(d, ViewOf(sys.w, Target(t'.op)), t')
    requires forall u :: u in sys.threads && u != tid && Target(sys.threads[u].op) == Target(t'.op) ==>
      PairFine(d, t', sys.threads[u]) && PairFine(d, sys.threads[u], t')
    ensures SysFine(d, sys.(threads := sys.threads[tid := t']))
  {
    hide ThreadFine, PairFine, IntentFine, ViewOf;
  }

  lemma PairSwaps(d: Discipline, t: Thread, u: Thread)
    requires PairFine(d, t, u)
    ensures PairFine(d, u, t)
  {
    hide Ahead;
  }

  lemma ReadFine(d: Discipline, sys: Sys, tid: Tid, fault: Fault)
    requires SysFine(d, sys) && RowsOk(sys.w) && tid in sys.threads && sys.threads[tid].Ready?
    ensures SysFine(d, Next(sys, Tick(tid, fault)))
  {
    hide ThreadFine, PairFine, IntentFine, ViewOf, Begin, RowOk;
    var op := sys.threads[tid].op;
    var v, t' := ViewOf(sys.w, Target(op)), Running(op, Begin(sys.w, op, fault));
    BeginFine(d, sys.w, op, fault);
    forall u | u in sys.threads && u != tid && Target(sys.threads[u].op) == Target(op)
      ensures PairFine(d, t', sys.threads[u]) && PairFine(d, sys.threads[u], t')
    {
      BeginPair(d, sys.w, op, fault, sys.threads[u]);
      PairSwaps(d, t', sys.threads[u]);
    }
    ReplaceFine(d, sys, tid, t');
  }

  lemma ViewShows(w: World, id: string)
    requires id in w.rows
    ensures Shows(ViewOf(w, id), w.rows[id])
  {
  }

  lemma BeginFine(d: Discipline, w: World, op: Op, fault: Fault)
    requires RowsOk(w) && IntentFine(d, ViewOf(w, Target(op))) && ThreadFine(d, ViewOf(w, Target(op)), Ready(op))
    ensures ThreadFine(d, ViewOf(w, Target(op)), Running(op, Begin(w, op, fault)))
  {
    hide ThreadFine, IntentFine, Body, CreateBody, Acceptable, Duplicate, RowOk, ViewOf, Shows;
    var v := ViewOf(w, Target(op));
    EndFine(d, v, op);
    if op.Create? {
      CreateFine(d, v, op);
    } else if op.id in w.rows {
      ViewShows(w, op.id);
      BodyFine(d, v, op, w.rows[op.id]);
    }
  }

  lemma EndFine(d: Discipline, v: View, op: Op)
    requires ThreadFine(d, v, Ready(op)) || exists p :: ThreadFine(d, v, Running(op, p))
    ensures ThreadFine(d, v, Running(op, Done))
  {
    DonePlan(Done, v.signature);
  }

  lemma BeginPair(d: Discipline, w: World, op: Op, fault: Fault, u: Thread)
    requires RowsOk(w) && ThreadFine(d, ViewOf(w, Target(op)), u) && PairFine(d, Ready(op), u)
    requires IntentFine(d, ViewOf(w, Target(op)))
    ensures PairFine(d, Running(op, Begin(w, op, fault)), u)
  {
    hide ThreadFine, IntentFine, Body, CreateBody, Acceptable, Duplicate, RowOk, ViewOf, Shows, PairFine;
    var v := ViewOf(w, Target(op));
    EndPair(d, Ready(op), u);
    if op.Create? {
      CreatePair(d, v, op, u);
    } else if op.id in w.rows {
      ViewShows(w, op.id);
      BodyPair(d, v, op, w.rows[op.id], u);
    }
  }

  lemma CreatePair(d: Discipline, v: View, op: Op, u: Thread)
    requires op.Create? && PairFine(d, Ready(op), u) && IntentFine(d, v)
    ensures PairFine(d, Running(op, CreateBody(op)), u)
  {
    CreateFine(d, v, op);
    hide CreateBody;
  }

  lemma EndPair(d: Discipline, t: Thread, u: Thread)
    requires PairFine(d, t, u)
    ensures PairFine(d, Running(t.op, Done), u)
  {
    DonePlan(Done, "");
  }

  lemma NextFine(d: Discipline, sys: Sys, e: Event)
    requires SysFine(d, sys) && RowsOk(sys.w) && StartsAlone(d, sys, e)
    ensures SysFine(d, Next(sys, e))
  {
    hide RowOk, ThreadFine, PairFine, IntentFine, ViewOf, Begin, Effect, Rest;
    match e {
      case Start(tid, op) =>
        if Startable(sys, tid, op) {
          LaunchFine(d, sys, op);
          var launched := sys.(w := Launched(sys.w, op));
          forall u | u in sys.threads && Target(sys.threads[u].op) == Target(op)
            ensures PairFine(d, Ready(op), sys.threads[u]) && PairFine(d, sys.threads[u], Ready(op))
          {
            StartPair(d, sys.w, sys.threads[u], op);
            PairSwaps(d, Ready(op), sys.threads[u]);
          }
          ReplaceFine(d, launched, tid, Ready(op));
        }
      case Crash(tid) =>
        if tid in sys.threads {
          var t := sys.threads[tid];
          StopFine(d, ViewOf(sys.w, Target(t.op)), t);
          forall u | u in sys.threads && u != tid && Target(sys.threads[u].op) == Target(t.op)
            ensures PairFine(d, Running(t.op, Done), sys.threads[u]) && PairFine(d, sys.threads[u], Running(t.op, Done))
          {
            EndPair(d, t, sys.threads[u]);
            PairSwaps(d, Running(t.op, Done), sys.threads[u]);
          }
          ReplaceFine(d, sys, tid, Running(t.op, Done));
        }
      case Tick(tid, fault) =>
        if tid in sys.threads {
          if sys.threads[tid].Ready? {
            ReadFine(d, sys, tid, fault);
          } else {
            StepFine(d, sys, tid, fault);
          }
        }
    }
  }

  lemma StopFine(d: Discipline, v: View, t: Thread)
    requires ThreadFine(d, v, t)
    ensures ThreadFine(d, v, Running(t.op, Done))
  {
    match t {
      case Ready(op) => EndFine(d, v, op);
      case Running(op, p) => EndFine(d, v, op);
    }
  }

  /** One reconciliation fewer is waiting. */
  function Fewer(v: View, tenant: string): View
    requires tenant in v.called && v.called[tenant] > 0
  {
    v.(called := v.called[tenant := v.called[tenant] - 1])
  }

  lemma LaunchViews(w: World, op: Op, id: string)
    requires op.Reconcile? && Waiting(w.spawned, op.tenant, op.id) > 0
    ensures var v := ViewOf(w, op.id); op.tenant in v.called && v.called[op.tenant] > 0
    ensures ViewOf(Launched(w, op), id)
         == if id == op.id then Fewer(ViewOf(w, id), op.tenant) else ViewOf(w, id)
  {
    hide SubmissionCount, RecordCount, Recorded, TxConfirmedFor, Called;
    CalledUpdate(w.spawned, op.tenant, op.id, Waiting(w.spawned, op.tenant, op.id) - 1, id);
  }

  lemma FewerFine(d: Discipline, v: View, tenant: string, u: Thread)
    requires tenant in v.called && v.called[tenant] > 0
    ensures IntentFine(d, v) ==> IntentFine(d, Fewer(v, tenant))
    ensures ThreadFine(d, v, u) ==> ThreadFine(d, Fewer(v, tenant), u)
  {
    hide Fits, Ahead, KeepsSignature;
  }

  lemma StartFine(d: Discipline, v: View, op: Op)
    requires IntentFine(d, v)
    requires op.Reconcile? ==> op.tenant in v.called && v.called[op.tenant] > 0
    ensures ThreadFine(d, if op.Reconcile? then Fewer(v, op.tenant) else v, Ready(op))
  {
  }

  lemma LaunchFine(d: Discipline, sys: Sys, op: Op)
    requires SysFine(d, sys) && (op.Reconcile? ==> Waiting(sys.w.spawned, op.tenant, op.id) > 0)
    ensures SysFine(d, sys.(w := Launched(sys.w, op)))
    ensures ThreadFine(d, ViewOf(Launched(sys.w, op), Target(op)), Ready(op))
  {
    hide ThreadFine, PairFine, IntentFine, ViewOf, Fewer;
    var w', v := Launched(sys.w, op), ViewOf(sys.w, Target(op));
    if op.Reconcile? {
      LaunchViews(sys.w, op, op.id);
      StartFine(d, v, op);
      forall id ensures IntentFine(d, ViewOf(w', id)) && (id != op.id ==> ViewOf(w', id) == ViewOf(sys.w, id)) {
        LaunchViews(sys.w, op, id);
        if id == op.id {
          FewerFine(d, v, op.tenant, Ready(op));
        }
      }
      forall t | t in sys.threads ensures ThreadFine(d, ViewOf(w', Target(sys.threads[t].op)), sys.threads[t]) {
        if Target(sys.threads[t].op) == op.id {
          FewerFine(d, v, op.tenant, sys.threads[t]);
        }
      }
    } else {
      StartFine(d, v, op);
      assert w' == sys.w;
    }
  }

  lemma StartPair(d: Discipline, w: World, u: Thread, op: Op)
    requires Target(u.op) == Target(op) && !Overlaps(d, u, op) && ThreadFine(d, ViewOf(w, Target(op)), u)
    requires op.Reconcile? ==> Waiting(w.spawned, op.tenant, op.id) > 0
    ensures PairFine(d, Ready(op), u)
  {
    hide Fits, Ahead, KeepsSignature, Called, SubmissionCount, RecordCount, Recorded;
    if op.Reconcile? {
      LaunchViews(w, op, op.id);
    }
  }

  lemma InitialFine(d: Discipline)
    ensures SysFine(d, INITIAL)
  {
  }

  lemma {:induction false} SerialRunFine(d: Discipline, es: seq<Event>)
    requires SerialRun(d, es)
    ensures SysFine(d, Run(INITIAL, es))
  {
    if |es| == 0 {
      InitialFine(d);
    } else {
      var front := es[..|es| - 1];
      SerialRunFine(d, front);
      InitialOk();
      RunOk(INITIAL, front);
      hide SysFine, StartsAlone, Next;
      NextFine(d, Run(INITIAL, front), es[|es| - 1]);
    }
  }

  // -------------------------------------------------------------- theorems

  /** A submitted intent is not pending or approved any more. */
  predicate SubmittedStays(w: World, id: string) {
    SubmissionCount(w.submissions, id) > 0 ==> id in w.rows && w.rows[id].status !in {Pending, Approved}
  }

  predicate SubmittedOnce(w: World, id: string) {
    SubmissionCount(w.submissions, id) <= 1
  }

  /** An intent has at most one record; a record comes from its one submission and confirms the
      signature that the intent carries. */
  predicate RecordsMatch(w: World, id: string) {
    forall i :: 0 <= i < |w.txs| && w.txs[i].intentId == id ==>
      && RecordCount(w.txs, id) == 1 && SubmissionCount(w.submissions, id) == 1
      && id in w.rows && w.rows[id].txSignature == w.txs[i].confirmSignature
  }

  /** A confirmed record means a confirmation time on its intent. */
  predicate ConfirmationsMatch(w: World, id: string) {
    TxConfirmedFor(w.txs, id) ==> id in w.rows && w.rows[id].confirmedAt.Some?
  }

  lemma SubmittedNeverReturns(d: Discipline, es: seq<Event>, id: string)
    requires NoStaleApproval(d) && SerialRun(d, es)
    ensures SubmittedStays(Run(INITIAL, es).w, id)
  {
    SerialRunFine(d, es);
    assert IntentFine(d, ViewOf(Run(INITIAL, es).w, id));
  }

  /** No intent is submitted twice, even if any update fails or any handler stops anywhere. */
  lemma AtMostOneSubmission(d: Discipline, es: seq<Event>, id: string)
    requires SubmitsOnce(d) && SerialRun(d, es)
    ensures SubmittedOnce(Run(INITIAL, es).w, id)
  {
    SerialRunFine(d, es);
    assert IntentFine(d, ViewOf(Run(INITIAL, es).w, id));
  }

  lemma FineIntent(d: Discipline, sys: Sys, id: string)
    requires SysFine(d, sys)
    ensures IntentFine(d, ViewOf(sys.w, id))
  {
  }

  lemma RecordsAgree(d: Discipline, es: seq<Event>, id: string)
    requires RecordsStay(d) && SerialRun(d, es)
    ensures RecordsMatch(Run(INITIAL, es).w, id)
  {
    SerialRunFine(d, es);
    var w := Run(INITIAL, es).w;
    hide Run, SysFine, Called, SubmissionCount, RecordCount, Recorded, TxConfirmedFor;
    FineIntent(d, Run(INITIAL, es), id);
    forall i | 0 <= i < |w.txs| && w.txs[i].intentId == id
      ensures RecordCount(w.txs, id) == 1 && SubmissionCount(w.submissions, id) == 1
      ensures id in w.rows && w.rows[id].txSignature == w.txs[i].confirmSignature
    {
      ARecordCounts(w.txs, i);
    }
  }

  lemma ConfirmedRecordsAgree(d: Discipline, es: seq<Event>, id: string)
    requires ConfirmationStays(d) && SerialRun(d, es)
    ensures ConfirmationsMatch(Run(INITIAL, es).w, id)
  {
    SerialRunFine(d, es);
    assert IntentFine(d, ViewOf(Run(INITIAL, es).w, id));
  }
}
