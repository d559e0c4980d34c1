/** What each handler decides, as one condition on what it finds: every guard and every fault that
    matters, and none of the steps in between. */
module Decisions {
  import opened Wrappers
  import opened Domain
  import opened Workflow
  import opened Invariants
  import Bytes
  import Decimal
  import PolicyEngine
  import ZkProof

  /** A save and an event: the row is stored unless the save is lost. */
  lemma FinishSaveAndLog(w: World, row: Intent, checked: bool, event: AuditEvent, faults: nat -> Fault, k: nat)
    ensures var w' := Finish(w, Save(row, checked, Log(event, Done)), faults, k).0;
            && w'.rows == (if faults(k).Lost? then w.rows else w.rows[row.id := row])
            && w'.submissions == w.submissions && w'.txs == w.txs && w'.spawned == w.spawned
  {
    var p := Save(row, checked, Log(event, Done));
    var w1 := Effect(w, p, faults(k));
    FinishStep(w, p, faults, k);
    FinishDone(w1, faults, k + 1);
    if !(checked && !faults(k).NoFault?) {
      FinishLastLog(w1, event, faults, k + 1);
    }
  }

  lemma FinishLog(w: World, event: AuditEvent, next: Prog, faults: nat -> Fault, k: nat) returns (w1: World)
    ensures Finish(w, Log(event, next), faults, k) == Finish(w1, next, faults, k + 1)
    ensures w1 == w.(log := w1.log)
  {
    w1 := Effect(w, Log(event, next), faults(k));
    FinishStep(w, Log(event, next), faults, k);
  }

  lemma FinishLastLog(w: World, event: AuditEvent, faults: nat -> Fault, k: nat)
    ensures var w' := Finish(w, Log(event, Done), faults, k).0; w' == w.(log := w'.log)
  {
    var w1 := FinishLog(w, event, Done, faults, k);
    FinishDone(w1, faults, k + 1);
  }

  // --------------------------------------------------------------- creation

  /** A creation adds its row, and changes nothing else but the log, exactly when the request is
      acceptable, no earlier intent of the tenant is the same request (as far as asked for and
      seen), the id and the nonce are new, and the insertion is not lost. */
  lemma CreationDecision(w: World, op: Op, faults: nat -> Fault, k: nat)
    requires op.Create?
    ensures var w' := Atomic(w, op, faults, k).0;
            var insertion := faults(if op.idempotent then k + 1 else k);
            var taken := op.newId in w.rows || exists id :: id in w.rows && w.rows[id].nonce == op.newNonce;
            var added := Acceptable(op) && !(op.idempotent && faults(k).NoFault? && Duplicate(w, op))
                         && !taken && !insertion.Lost?;
            var row := Intent(op.newId, op.tenant, op.walletId, op.destination, op.token, Decimal.AmountToString(op.amount),
                              op.chain, op.newNonce, op.creator, [], op.now + 3600, Pending, None, "", op.now, None, None, None);
            w' == w.(rows := if added then w.rows[op.newId := row] else w.rows, log := w'.log)
  {
    hide Acceptable, Duplicate;
    var p := Begin(w, op, faults(k));
    var k' := if Reads(op) then k + 1 else k;
    if p.Done? {
      FinishDone(w, faults, k');
    } else {
      var w1 := Effect(w, p, faults(k'));
      FinishStep(w, p, faults, k');
      FinishDone(w1, faults, k' + 1);
      FinishLastLog(w1, Entry(op, op.creator, IntentCreated, Success), faults, k' + 1);
    }
  }

  // --------------------------------------------------------------- approval

  /** An intent becomes approved exactly when it is pending and the tenant's, the policies allow it,
      its amount is within the limit and the proof verifies, unless the row cannot be read or the
      save is lost. No approval submits anything. */
  lemma ApprovalDecision(w: World, op: Op, faults: nat -> Fault, k: nat)
    requires op.Approve? && op.id in w.rows && w.rows[op.id].id == op.id && RowOk(w.rows[op.id])
    requires w.rows[op.id].status != Approved
    ensures var row, w' := w.rows[op.id], Atomic(w, op, faults, k).0;
            && op.id in w'.rows && w'.submissions == w.submissions
            && (w'.rows[op.id].status == Approved <==>
                  && row.tenantId == op.tenant && row.status == Pending
                  && PolicyEngine.Allows(op.policy, row) && AmountOf(row) <= 100000 && ProofVerifies(op, row)
                  && faults(k).NoFault? && !faults(k + 1).Lost?)
  {
    hide RowOk, PolicyEngine.Allows, PolicyEngine.Lookup, ZkProof.CanGenerate, Finish, ProofVerifies;
    var row := w.rows[op.id];
    GuardIsTheLimit(row);
    PolicyEngine.AllowsNeedsLookup(op.policy, row);
    FinishDone(w, faults, k + 1);
    FinishLastLog(w, Entry(op, op.actor, IntentFailed, Failure), faults, k + 1);
    var refused, approved := Refused(row, PolicyDenied), row.(status := Approved, approvedAt := Some(op.now));
    FinishSaveAndLog(w, refused, false, Entry(op, op.actor, IntentPolicyDenied, Denied), faults, k + 1);
    FinishSaveAndLog(w, refused, false, Entry(op, op.actor, IntentZkDenied, Denied), faults, k + 1);
    FinishSaveAndLog(w, approved, true, Entry(op, op.actor, IntentApproved, Success), faults, k + 1);
  }

  lemma GuardIsTheLimit(row: Intent)
    requires RowOk(row)
    ensures ZkProof.CanGenerate(row.amount, APPROVAL_LIMIT) <==> AmountOf(row) <= APPROVAL_LIMIT
  {
    ZkProof.GuardComparesAmounts(AmountOf(row), APPROVAL_LIMIT);
  }

  /** The proof of an amount within the limit verifies exactly when the intent has an id and none
      of its six digests is all zero: a denial for the proof takes an empty id or such a digest. */
  lemma ProofDecision(op: Op, row: Intent)
    requires op.Approve? && RowOk(row) && AmountOf(row) <= APPROVAL_LIMIT
    ensures ZkProof.CanGenerate(row.amount, 100000)
    ensures ProofOf(op, row)
         == ZkProof.Assemble(op.zk.hash, 100000,
                             ZkProof.PublicInputs(AmountOf(row), op.zk.policyVersion, Bytes.Utf8(row.id), Bytes.Utf8(row.walletId)),
                             op.zk.blinding)
    ensures ProofVerifies(op, row) <==>
      row.id != "" && !ZkProof.AnyZero(ProofOf(op, row).commitments) && !ZkProof.AnyZero(ProofOf(op, row).responses)
  {
    hide ZkProof.CanGenerate, ZkProof.AnyZero;
    GuardIsTheLimit(row);
    SimulationAlwaysAllows(row);
    var p := ProofOf(op, row);
    LowBitsOfSmall(AmountOf(row));
    LowBitsOfSmall(APPROVAL_LIMIT);
    ZkProof.AssembledProofsVerifyIff(op.zk.hash, ZkProof.Low64(APPROVAL_LIMIT), p.public, op.zk.blinding);
  }

  lemma LowBitsOfSmall(v: int)
    requires 0 <= v < Bytes.U64_LIMIT
    ensures ZkProof.Low64(v) == v
  {
  }

  // -------------------------------------------------------------- execution

  predicate Quiet(p: Prog) {
    p.Done? || (!p.Submit? && Quiet(p.next))
  }

  lemma {:induction false} FinishQuietly(w: World, p: Prog, faults: nat -> Fault, k: nat)
    requires Quiet(p)
    ensures Finish(w, p, faults, k).0.submissions == w.submissions
    decreases Size(p)
  {
    if p.Done? {
    } else {
      FinishQuietly(Effect(w, p, faults(k)), Rest(w, p, faults(k)), faults, k + Accesses(p));
    }
  }

  lemma FailAsIsQuiet(op: Op, row: Intent, reason: Reason, action: Action, outcome: Outcome)
    ensures Quiet(FailAs(op, row, reason, action, outcome))
  {
    assert Quiet(Log(Entry(op, "system", action, outcome), Done));
  }

  function SubmissionOf(op: Op, row: Intent): Submission
    requires op.Execute?
  {
    Submission(row, PayloadOf(row, BlockhashUsed(op)), op.policy, op.checkedAt)
  }

  lemma FinishSubmit(w: World, op: Op, row: Intent, faults: nat -> Fault, k: nat)
    requires op.Execute?
    ensures Finish(w, SubmitBody(op, row), faults, k).0.submissions == w.submissions + [SubmissionOf(op, row)]
  {
    var p := SubmitBody(op, row);
    FailAsIsQuiet(op, row, SubmissionFailed, IntentFailed, Failure);
    if op.submit.Ok? && op.submit.value.success {
      assert Quiet(p.next.next.next.next);
      assert Quiet(p.next.next.next);
      assert Quiet(p.next.next);
    }
    FinishStep(w, p, faults, k);
    FinishQuietly(Effect(w, p, faults(k)), p.next, faults, k);
  }

  lemma FinishExecuting(w: World, op: Op, row: Intent, faults: nat -> Fault, k: nat)
    requires op.Execute? && Decimal.ParseInt64(row.amount).Ok? && Decimal.ParseInt64(row.amount).value > 0
    ensures Finish(w, ExecutingBody(op, row), faults, k).0.submissions
         == if PolicyEngine.Allows(op.policy, row) && op.signed then w.submissions + [SubmissionOf(op, row)]
            else w.submissions
  {
    hide Finish, FailAs, SubmitBody, PolicyEngine.Allows, Decimal.ParseInt64;
    var p := ExecutingBody(op, row);
    var w1 := FinishLog(w, p.event, p.next, faults, k);
    FailAsIsQuiet(op, row, PolicyDenied, IntentPolicyDenied, Denied);
    FailAsIsQuiet(op, row, SigningFailed, IntentFailed, Failure);
    if PolicyEngine.Allows(op.policy, row) && op.signed {
      var w2 := FinishLog(w1, p.next.event, p.next.next, faults, k + 1);
      FinishSubmit(w2, op, row, faults, k + 2);
    } else {
      FinishQuietly(w1, p.next, faults, k + 1);
    }
  }

  /** An execution submits, once, exactly when the row is approved, the tenant's and not expired, no
      record is seen for its nonce, the policies allow it again and the signer signs, unless the row
      cannot be read or the save as executing reports an error. What happens to the submission, and
      every later fault, makes no difference. */
  lemma ExecutionDecision(w: World, op: Op, faults: nat -> Fault, k: nat)
    requires op.Execute? && op.id in w.rows && RowOk(w.rows[op.id])
    ensures var row := w.rows[op.id];
            var submits := row.tenantId == op.tenant && row.status == Approved && op.checkedAt <= row.expiry
              && !(faults(k + 1).NoFault? && faults(k + 2).NoFault? && HasTxForNonce(w, row.nonce))
              && PolicyEngine.Allows(op.policy, row) && op.signed
              && faults(k).NoFault? && faults(if faults(k + 1).NoFault? then k + 3 else k + 2).NoFault?;
            Atomic(w, op, faults, k).0.submissions
            == if submits then w.submissions + [SubmissionOf(op, row.(status := Executing))] else w.submissions
  {
    hide RowOk, PolicyEngine.Allows, ExecutingBody, Finish, HasTxForNonce, SubmissionOf;
    var row := w.rows[op.id];
    FinishDone(w, faults, k + 1);
    FinishSaveAndLog(w, row.(status := Expired, failureReason := Some(IntentExpired)), false,
                     Entry(op, "system", IntentExpiredEvent, Success), faults, k + 1);
    var start := StartExecuting(op, row);
    OwnNonceIsTaken(w, op.id);
    FinishStep(w, FindNonce(row.nonce, start), faults, k + 1);
    FinishStep(w, NonceGuard(row.nonce, start), faults, k + 2);
    FinishDone(w, faults, k + 3);
    hide StartExecuting, NonceTaken;
    StartDecision(w, op, row, faults, k + 2);
    StartDecision(w, op, row, faults, k + 3);
  }

  lemma OwnNonceIsTaken(w: World, id: string)
    requires id in w.rows
    ensures NonceTaken(w, w.rows[id].nonce)
  {
  }

  function StartExecuting(op: Op, row: Intent): Prog
    requires op.Execute?
  {
    var executing := row.(status := Executing);
    Save(executing, true, Log(Entry(op, "user", IntentExecuting, Success), ExecutingBody(op, executing)))
  }

  lemma StartDecision(w: World, op: Op, row: Intent, faults: nat -> Fault, k: nat)
    requires op.Execute? && RowOk(row)
    ensures Finish(w, StartExecuting(op, row), faults, k).0.submissions
         == if PolicyEngine.Allows(op.policy, row) && op.signed && faults(k).NoFault?
            then w.submissions + [SubmissionOf(op, row.(status := Executing))] else w.submissions
  {
    hide RowOk, PolicyEngine.Allows, ExecutingBody, Finish, SubmissionOf;
    var p, executing := StartExecuting(op, row), row.(status := Executing);
    var w1 := Effect(w, p, faults(k));
    FinishStep(w, p, faults, k);
    FinishDone(w1, faults, k + 1);
    SimulationAlwaysAllows(row);
    EditKeepsCore(row, executing);
    AllowsIgnoresLifecycle(op.policy, row, executing);
    var w2 := FinishLog(w1, p.next.event, p.next.next, faults, k + 1);
    FinishExecuting(w2, op, executing, faults, k + 2);
  }

  // ------------------------------------------------------------- rejection

  /** A rejection turns whatever row the tenant has into a rejected one; a cancellation only a
      pending or executing one. Nothing else in the tables changes but the log. */
  lemma RejectionDecision(w: World, op: Op, faults: nat -> Fault, k: nat)
    requires (op.Reject? || op.Cancel?) && op.id in w.rows && w.rows[op.id].id == op.id
    ensures var row, w' := w.rows[op.id], Atomic(w, op, faults, k).0;
            var rejects := row.tenantId == op.tenant && (op.Cancel? ==> row.status == Pending || row.status == Executing)
              && faults(k).NoFault? && !faults(k + 1).Lost?;
            && w'.rows == (if rejects then
                             w.rows[op.id := row.(status := Rejected, failureReason := Some(RejectedByUser))]
                           else w.rows)
            && w'.submissions == w.submissions && w'.txs == w.txs && w'.spawned == w.spawned
  {
    hide Finish;
    FinishDone(w, faults, k + 1);
    FinishSaveAndLog(w, Refused(w.rows[op.id], RejectedByUser), true, Entry(op, op.actor, IntentRejected, Success),
                     faults, k + 1);
  }
}
