/** Where a submission comes from, in every run of the machine: an approval of the same intent by
    the policies and the proof, and a signed execution of it. */
module Provenance {
  import opened Wrappers
  import opened Domain
  import opened Workflow
  import opened Invariants
  import Decimal
  import PolicyEngine
  import ZkProof

  /** An approval of the row's intent, for its tenant, by policies that allow it and a proof that verifies. */
  predicate Justifies(op: Op, row: Intent) {
    && op.Approve? && op.id == row.id && op.tenant == row.tenantId
    && ProofVerifies(op, row) && PolicyEngine.Allows(op.policy, row)
  }

  /** Event `j` carries out the save by which such an approval makes the intent approved. */
  ghost predicate SavesApproval(es: seq<Event>, j: int, row: Intent) {
    && 0 <= j < |es| && es[j].Tick? && !es[j].fault.Lost?
    && var threads := Run(INITIAL, es[..j]).threads;
       && es[j].tid in threads && threads[es[j].tid].Running?
       && ApprovalAhead(threads[es[j].tid].op, threads[es[j].tid].prog, row)
  }

  predicate ApprovalAhead(op: Op, p: Prog, row: Intent) {
    Justifies(op, row) && p.Save? && p.row.id == row.id && p.row.status == Approved
  }

  ghost predicate ApprovedIn(es: seq<Event>, row: Intent) {
    exists j :: SavesApproval(es, j, row)
  }

  /** Event `i` starts the execution that makes the submission: its signer signs, and the submission
      carries its policies, its expiry check and the payload of the row with its blockhash. */
  ghost predicate Submits(es: seq<Event>, i: int, s: Submission) {
    && 0 <= i < |es| && es[i].Start? && es[i].op.Execute?
    && es[i].op.id == s.row.id && es[i].op.tenant == s.row.tenantId && es[i].op.signed
    && s.policy == es[i].op.policy && s.checkedAt == es[i].op.checkedAt
    && s.payload == Payload(s.row.walletId, s.row.token, s.row.amount, s.row.destination,
                            if es[i].op.blockhash.Some? then es[i].op.blockhash.value else "placeholder-blockhash")
  }

  ghost predicate SubmittedIn(es: seq<Event>, s: Submission) {
    ApprovedIn(es, s.row) && exists i :: Submits(es, i, s)
  }

  ghost predicate Starts(es: seq<Event>, i: int, op: Op) {
    0 <= i < |es| && es[i].Start? && es[i].op == op
  }

  ghost predicate StartedIn(es: seq<Event>, op: Op) {
    exists i :: Starts(es, i, op)
  }

  ghost predicate RowTraced(es: seq<Event>, row: Intent) {
    row.approvedAt.Some? ==> ApprovedIn(es, row)
  }

  /** A row that a handler may still save: approved before, or just now by the handler itself. */
  ghost predicate SaveTraced(es: seq<Event>, op: Op, row: Intent) {
    RowTraced(es, row) || (Justifies(op, row) && row.status == Approved)
  }

  /** Everything a handler may still save or submit has its origin in the run. */
  ghost predicate Traced(es: seq<Event>, op: Op, p: Prog) {
    match p
    case Done => true
    case Insert(row, next) => RowTraced(es, row) && Traced(es, op, next)
    case Save(row, _, next) => SaveTraced(es, op, row) && Traced(es, op, next)
    case Submit(s, next) => SubmittedIn(es, s) && Traced(es, op, next)
    case _ => Traced(es, op, p.next)
  }

  ghost predicate WorldTraced(es: seq<Event>, w: World) {
    && (forall id :: id in w.rows ==> RowTraced(es, w.rows[id]))
    && (forall i :: 0 <= i < |w.submissions| ==> SubmittedIn(es, w.submissions[i]))
  }

  ghost predicate SysTraced(es: seq<Event>, sys: Sys) {
    && WorldTraced(es, sys.w)
    && (forall t :: t in sys.threads ==>
          StartedIn(es, sys.threads[t].op) && (sys.threads[t].Running? ==> Traced(es, sys.threads[t].op, sys.threads[t].prog)))
  }

  lemma StepTraced(es: seq<Event>, n: nat, sys: Sys)
    requires n < |es| && es[n].Tick? && sys == Run(INITIAL, es[..n]) && WorldTraced(es, sys.w)
    requires es[n].tid in sys.threads && sys.threads[es[n].tid].Running?
    requires Traced(es, sys.threads[es[n].tid].op, sys.threads[es[n].tid].prog)
    ensures var op, p, fault := sys.threads[es[n].tid].op, sys.threads[es[n].tid].prog, es[n].fault;
            WorldTraced(es, Effect(sys.w, p, fault)) && Traced(es, op, Rest(sys.w, p, fault))
  {
    hide SubmittedIn, Run, Justifies, ConfirmFirst, NonceTaken, HasTx, HasTxForNonce;
    var op, p, fault := sys.threads[es[n].tid].op, sys.threads[es[n].tid].prog, es[n].fault;
    if p.Save? && !fault.Lost? && Justifies(op, p.row) && p.row.status == Approved {
      assert SavesApproval(es, n, p.row);
    }
    hide ApprovedIn;
  }

  /** Editing the lifecycle columns does not change who approved the intent. */
  lemma JustifiedIsTheIntent(op: Op, a: Intent, b: Intent)
    requires Core(a) == Core(b) && Justifies(op, a)
    ensures Justifies(op, b)
  {
    hide PolicyEngine.Allows, ZkProof.CanGenerate, ZkProof.Verdict, ZkProof.Assemble;
    SameCore(a, b);
    AllowsIgnoresLifecycle(op.policy, a, b);
  }

  lemma ApprovalIsOfTheIntent(es: seq<Event>, a: Intent, b: Intent)
    requires Core(a) == Core(b) && ApprovedIn(es, a)
    ensures ApprovedIn(es, b)
  {
    hide Justifies, Run, Core;
    SameCore(a, b);
    var j :| SavesApproval(es, j, a);
    JustifiedIsTheIntent(Run(INITIAL, es[..j]).threads[es[j].tid].op, a, b);
    assert SavesApproval(es, j, b);
  }

  lemma EditTraced(es: seq<Event>, op: Op, row: Intent, edited: Intent, checked: bool, event: AuditEvent)
    requires Core(edited) == Core(row) && (edited.approvedAt.Some? ==> ApprovedIn(es, row))
    ensures Traced(es, op, Save(edited, checked, Log(event, Done)))
    ensures RowTraced(es, edited) && SaveTraced(es, op, edited)
  {
    hide ApprovedIn, Core, Justifies;
    if edited.approvedAt.Some? {
      ApprovalIsOfTheIntent(es, row, edited);
    }
    assert Traced(es, op, Log(event, Done));
  }

  lemma LogTraced(es: seq<Event>, op: Op, event: AuditEvent, next: Prog)
    ensures Traced(es, op, Done)
    ensures Traced(es, op, Log(event, next)) == Traced(es, op, next)
  {
  }

  lemma ApproveTraced(es: seq<Event>, op: Op, row: Intent)
    requires op.Approve? && row.id == op.id && RowTraced(es, row)
    ensures Traced(es, op, ApproveBody(op, row))
  {
    hide ApprovedIn, Traced, PolicyEngine.Allows, PolicyEngine.Lookup, ZkProof.CanGenerate, ProofVerifies, Core;
    LogTraced(es, op, Entry(op, op.actor, IntentFailed, Failure), Done);
    var refused, approved := Refused(row, PolicyDenied), row.(status := Approved, approvedAt := Some(op.now));
    EditKeepsCore(row, refused);
    EditKeepsCore(row, approved);
    EditTraced(es, op, row, refused, false, Entry(op, op.actor, IntentPolicyDenied, Denied));
    EditTraced(es, op, row, refused, false, Entry(op, op.actor, IntentZkDenied, Denied));
    if row.tenantId == op.tenant && ProofVerifies(op, row) && PolicyEngine.Allows(op.policy, row) {
      JustifiedIsTheIntent(op, row, approved);
      ApprovingTraced(es, op, approved, Entry(op, op.actor, IntentApproved, Success));
    }
  }

  lemma ApprovingTraced(es: seq<Event>, op: Op, approved: Intent, event: AuditEvent)
    requires Justifies(op, approved) && approved.status == Approved
    ensures Traced(es, op, Save(approved, true, Log(event, Done)))
  {
    hide Justifies, ApprovedIn;
    assert Traced(es, op, Log(event, Done));
  }

  lemma FailAsTraced(es: seq<Event>, op: Op, row: Intent, reason: Reason, action: Action, outcome: Outcome)
    requires ApprovedIn(es, row)
    ensures Traced(es, op, FailAs(op, row, reason, action, outcome))
  {
    hide ApprovedIn, Traced, Core;
    EditKeepsCore(row, FailedRow(row, reason));
    EditTraced(es, op, row, FailedRow(row, reason), false, Entry(op, "system", action, outcome));
  }

  lemma SubmitTraced(es: seq<Event>, op: Op, row: Intent)
    requires op.Execute? && StartedIn(es, op) && row.id == op.id && row.tenantId == op.tenant && op.signed
    requires ApprovedIn(es, row)
    ensures Traced(es, op, SubmitBody(op, row))
  {
    hide ApprovedIn, Core, FailAs;
    FailAsTraced(es, op, row, SubmissionFailed, IntentFailed, Failure);
    var p := SubmitBody(op, row);
    var i :| Starts(es, i, op);
    assert Submits(es, i, p.submission);
    if op.submit.Ok? && op.submit.value.success {
      var signature := op.submit.value.signature;
      var submitted := row.(status := Submitted, executedAt := Some(op.now), txSignature := signature);
      EditKeepsCore(row, submitted);
      EditTraced(es, op, row, submitted, true, Entry(op, "system", IntentSubmittedOnChain, Success));
      assert Traced(es, op, p.next.next.next.next);
      assert Traced(es, op, p.next.next.next);
      assert Traced(es, op, p.next.next);
    }
  }

  lemma ExecutingTraced(es: seq<Event>, op: Op, row: Intent)
    requires op.Execute? && StartedIn(es, op) && row.id == op.id && row.tenantId == op.tenant
    requires ApprovedIn(es, row)
    ensures Traced(es, op, ExecutingBody(op, row))
  {
    hide FailAs, PolicyEngine.Allows, Decimal.ParseInt64, SubmitBody, ApprovedIn, StartedIn, Traced;
    FailAsTraced(es, op, row, SimulationFailed, IntentFailed, Failure);
    FailAsTraced(es, op, row, SimulationFailed, IntentSimulated, SimulationDenied);
    FailAsTraced(es, op, row, PolicyDenied, IntentPolicyDenied, Denied);
    FailAsTraced(es, op, row, SigningFailed, IntentFailed, Failure);
    var simulated, signed := Entry(op, "system", IntentSimulated, Success), Entry(op, "system", IntentSigned, Success);
    LogTraced(es, op, signed, SubmitBody(op, row));
    LogTraced(es, op, simulated, Log(signed, SubmitBody(op, row)));
    LogTraced(es, op, simulated, FailAs(op, row, PolicyDenied, IntentPolicyDenied, Denied));
    LogTraced(es, op, simulated, FailAs(op, row, SigningFailed, IntentFailed, Failure));
    if op.signed {
      SubmitTraced(es, op, row);
    }
  }

  lemma ExecuteTraced(es: seq<Event>, op: Op, row: Intent)
    requires op.Execute? && StartedIn(es, op) && row.id == op.id && RowTraced(es, row)
    requires row.status == Approved ==> row.approvedAt.Some?
    ensures Traced(es, op, ExecuteBody(op, row))
  {
    hide ApprovedIn, StartedIn, ExecutingBody, Core;
    if row.tenantId == op.tenant && row.status == Approved {
      var expired := row.(status := Expired, failureReason := Some(IntentExpired));
      EditKeepsCore(row, expired);
      EditTraced(es, op, row, expired, false, Entry(op, "system", IntentExpiredEvent, Success));
      var executing, event := row.(status := Executing), Entry(op, "user", IntentExecuting, Success);
      EditKeepsCore(row, executing);
      EditTraced(es, op, row, executing, true, event);
      ExecutingTraced(es, op, executing);
      LogTraced(es, op, event, ExecutingBody(op, executing));
      assert Traced(es, op, Save(executing, true, Log(event, ExecutingBody(op, executing))));
    }
  }

  lemma RejectTraced(es: seq<Event>, op: Op, row: Intent)
    requires (op.Reject? || op.Cancel?) && RowTraced(es, row)
    ensures Traced(es, op, RejectBody(op, row))
  {
    hide ApprovedIn, Core, Traced;
    EditKeepsCore(row, Refused(row, RejectedByUser));
    EditTraced(es, op, row, Refused(row, RejectedByUser), true, Entry(op, op.actor, IntentRejected, Success));
  }

  lemma ReconcileTraced(es: seq<Event>, op: Op, row: Intent)
    requires op.Reconcile? && RowTraced(es, row)
    ensures Traced(es, op, ReconcileBody(op, row))
  {
    hide ApprovedIn, Core;
    var failed := FailedRow(row, if row.txSignature == "" then Reconciliation else ConfirmationTimeout);
    EditKeepsCore(row, failed);
    EditTraced(es, op, row, failed, true, AuditEvent(row.tenantId, "system", IntentFailed, row.id, op.requestId, Failure));
    var confirmed := row.(status := Confirmed, confirmedAt := Some(op.now));
    var event := AuditEvent(row.tenantId, "system", IntentConfirmed, row.id, op.requestId, Success);
    EditKeepsCore(row, confirmed);
    EditTraced(es, op, row, confirmed, true, event);
    assert Traced(es, op, ConfirmTx(row.id, op.now, Log(event, Done)));
  }

  lemma BeginTraced(es: seq<Event>, w: World, op: Op, fault: Fault)
    requires RowsOk(w) && WorldTraced(es, w) && StartedIn(es, op)
    ensures Traced(es, op, Begin(w, op, fault))
  {
    hide ApprovedIn, StartedIn, SubmittedIn, Acceptable, ApproveBody, ExecuteBody, RejectBody, ReconcileBody;
    if op.Create? {
      LogTraced(es, op, Entry(op, op.creator, IntentCreated, Success), Done);
    } else if op.id in w.rows {
      var row := w.rows[op.id];
      assert RowTraced(es, row) && RowOk(row);
      match op {
        case Approve(_, _, _, _, _, _, _) => ApproveTraced(es, op, row);
        case Execute(_, _, _, _, _, _, _, _, _, _) => ExecuteTraced(es, op, row);
        case Reject(_, _, _, _) => RejectTraced(es, op, row);
        case Cancel(_, _, _, _) => RejectTraced(es, op, row);
        case Reconcile(_, _, _, _, _, _, _) => ReconcileTraced(es, op, row);
      }
    }
  }

  lemma LaunchedTraced(es: seq<Event>, w: World, op: Op)
    requires WorldTraced(es, w)
    ensures WorldTraced(es, Launched(w, op))
  {
  }

  lemma NextTraced(es: seq<Event>, n: nat, sys: Sys)
    requires n < |es| && sys == Run(INITIAL, es[..n]) && SysOk(sys) && SysTraced(es, sys)
    ensures SysTraced(es, Next(sys, es[n]))
  {
    hide Traced, WorldTraced, Begin, Effect, Rest, RowOk, Run;
    match es[n] {
      case Start(tid, op) =>
        assert Starts(es, n, op);
        LaunchedTraced(es, sys.w, op);
      case Crash(tid) =>
        if tid in sys.threads {
          LogTraced(es, sys.threads[tid].op, AuditEvent("", "", IntentFailed, "", "", Failure), Done);
        }
      case Tick(tid, fault) =>
        if tid in sys.threads {
          match sys.threads[tid] {
            case Ready(op) => BeginTraced(es, sys.w, op, fault);
            case Running(op, p) => StepTraced(es, n, sys);
          }
        }
    }
  }

  lemma {:induction false} PrefixTraced(es: seq<Event>, n: nat)
    requires n <= |es|
    ensures SysTraced(es, Run(INITIAL, es[..n]))
    decreases n
  {
    if n == 0 {
    } else {
      PrefixTraced(es, n - 1);
      InitialOk();
      RunOk(INITIAL, es[..n - 1]);
      assert es[..n] == es[..n - 1] + [es[n - 1]];
      RunSnoc(INITIAL, es[..n - 1], es[n - 1]);
      hide SysTraced, SysOk, Run, Next;
      NextTraced(es, n - 1, Run(INITIAL, es[..n - 1]));
    }
  }

  /** Every submission of every run belongs to an intent that an approval made approved, whose
      policies allowed it and whose proof verified, and is made by an execution, started for its
      tenant, that the signer signed. The run can be cut right after the submission, so both came
      before it. */
  lemma SubmissionsAreApprovedAndSigned(es: seq<Event>, k: nat)
    requires k < |Run(INITIAL, es).w.submissions|
    ensures SubmittedIn(es, Run(INITIAL, es).w.submissions[k])
  {
    PrefixTraced(es, |es|);
    assert es[..|es|] == es;
  }

  /** No row carries an approval time unless such an approval saved it. */
  lemma ApprovalTimesAreEarned(es: seq<Event>, id: string)
    requires id in Run(INITIAL, es).w.rows && Run(INITIAL, es).w.rows[id].approvedAt.Some?
    ensures ApprovedIn(es, Run(INITIAL, es).w.rows[id])
  {
    PrefixTraced(es, |es|);
    assert es[..|es|] == es;
    assert RowTraced(es, Run(INITIAL, es).w.rows[id]);
  }

  // ------------------------------------------------------- signature rules

  /** The policy table asks the wallet's tenant for at least one signature. */
  predicate AsksForSignatures(env: PolicyEngine.Env, row: Intent) {
    && PolicyEngine.Lookup(env, row).Ok?
    && exists i :: 0 <= i < |PolicyEngine.Lookup(env, row).value.1|
         && PolicyEngine.SignatureRule(PolicyEngine.Lookup(env, row).value.1[i])
  }

  lemma AskingDenies(env: PolicyEngine.Env, row: Intent)
    requires row.approvers == [] && AsksForSignatures(env, row)
    ensures !PolicyEngine.Allows(env, row)
  {
    var i :| 0 <= i < |PolicyEngine.Lookup(env, row).value.1|
      && PolicyEngine.SignatureRule(PolicyEngine.Lookup(env, row).value.1[i]);
    PolicyEngine.SignatureRulesDenyUnapproved(env, row, i);
  }

  /** No route records an approver, so in no run did an approval save, or an execution submit, an
      intent under a policy table that asks for a signature. */
  lemma SignatureRulesStopEverything(es: seq<Event>, j: nat, k: nat, id: string)
    requires id in Run(INITIAL, es).w.rows
    ensures SavesApproval(es, j, Run(INITIAL, es).w.rows[id]) ==>
      !AsksForSignatures(Run(INITIAL, es[..j]).threads[es[j].tid].op.policy, Run(INITIAL, es).w.rows[id])
    ensures k < |Run(INITIAL, es).w.submissions| ==>
      !AsksForSignatures(Run(INITIAL, es).w.submissions[k].policy, Run(INITIAL, es).w.submissions[k].row)
  {
    hide AsksForSignatures, Run, ProofVerifies, PolicyEngine.Allows;
    InitialOk();
    RunOk(INITIAL, es);
    var w := Run(INITIAL, es).w;
    if SavesApproval(es, j, w.rows[id]) {
      var policy := Run(INITIAL, es[..j]).threads[es[j].tid].op.policy;
      if AsksForSignatures(policy, w.rows[id]) {
        AskingDenies(policy, w.rows[id]);
      }
    }
    if k < |w.submissions| {
      var s := w.submissions[k];
      assert SubmissionOk(w, s);
      if AsksForSignatures(s.policy, s.row) {
        AskingDenies(s.policy, s.row);
      }
    }
  }
}
