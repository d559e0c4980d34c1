/** The tables after each handler run alone, in closed form: every column, every event and every fault,
    without the programs of accesses and their parts. */
module Outcomes {
  import opened Wrappers
  import opened Domain
  import opened Workflow
  import Bytes
  import Decimal
  import PolicyEngine
  import SolanaClient
  import ZkProof

  // --------------------------------------------------------- single accesses

  /** A save that meets a fault. */
  function Saved(w: World, row: Intent, fault: Fault): World {
    if fault.Lost? then w else w.(rows := w.rows[row.id := row])
  }

  /** An event that meets a fault; nobody hears of the error. */
  function Logged(w: World, e: AuditEvent, fault: Fault): World {
    if fault.Lost? then w else w.(log := w.log + [e])
  }

  /** A save whose error is ignored, and the event after it. */
  function SavedAndLogged(w: World, row: Intent, e: AuditEvent, faults: nat -> Fault, k: nat): World {
    Logged(Saved(w, row, faults(k)), e, faults(k + 1))
  }

  /** A save whose error stops the handler before the event. */
  function SavedThenLogged(w: World, row: Intent, e: AuditEvent, faults: nat -> Fault, k: nat): World {
    if faults(k).NoFault? then SavedAndLogged(w, row, e, faults, k) else Saved(w, row, faults(k))
  }

  lemma FinishSave(w: World, row: Intent, checked: bool, next: Prog, faults: nat -> Fault, k: nat)
    ensures Finish(w, Save(row, checked, next), faults, k).0
         == if checked && !faults(k).NoFault? then Saved(w, row, faults(k))
            else Finish(Saved(w, row, faults(k)), next, faults, k + 1).0
  {
    hide Finish;
    FinishStep(w, Save(row, checked, next), faults, k);
    FinishDone(Saved(w, row, faults(k)), faults, k + 1);
  }

  lemma FinishEvent(w: World, e: AuditEvent, next: Prog, faults: nat -> Fault, k: nat)
    ensures Finish(w, Log(e, next), faults, k).0 == Finish(Logged(w, e, faults(k)), next, faults, k + 1).0
  {
    hide Finish;
    FinishStep(w, Log(e, next), faults, k);
  }

  lemma FinishSaveAndEvent(w: World, row: Intent, checked: bool, e: AuditEvent, faults: nat -> Fault, k: nat)
    ensures Finish(w, Save(row, checked, Log(e, Done)), faults, k).0
         == if checked then SavedThenLogged(w, row, e, faults, k) else SavedAndLogged(w, row, e, faults, k)
  {
    hide Finish, Saved, Logged;
    FinishSave(w, row, checked, Log(e, Done), faults, k);
    FinishEvent(Saved(w, row, faults(k)), e, Done, faults, k + 1);
    FinishDone(Logged(Saved(w, row, faults(k)), e, faults(k + 1)), faults, k + 2);
  }

  // --------------------------------------------------------------- creation

  /** A request that the creation route accepts: with a wallet, strings within their byte limits, one
      of three chains in any case, and an amount between 1 and 2^62 - 1. */
  predicate Wellformed(op: Op)
    requires op.Create?
  {
    && op.walletId != "" && |Bytes.Utf8(op.destination)| <= 64 && |Bytes.Utf8(op.token)| <= 64
    && |Bytes.Utf8(op.creator)| <= 128 && 1 <= op.amount <= 0x3FFF_FFFF_FFFF_FFFF
    && (Decimal.Spells(op.chain, "solana") || Decimal.Spells(op.chain, "ethereum") || Decimal.Spells(op.chain, "polygon"))
  }

  /** An earlier intent of the tenant by the same creator, to the same destination, over the same
      amount of the same token. */
  predicate Repeated(w: World, op: Op)
    requires op.Create?
  {
    exists id :: id in w.rows && w.rows[id].tenantId == op.tenant && w.rows[id].creator == op.creator
      && w.rows[id].destination == op.destination && w.rows[id].token == op.token
      && w.rows[id].amount == Decimal.AmountToString(op.amount)
  }

  predicate IdentifiersTaken(w: World, op: Op)
    requires op.Create?
  {
    op.newId in w.rows || exists id :: id in w.rows && w.rows[id].nonce == op.newNonce
  }

  function AfterCreation(w: World, op: Op, faults: nat -> Fault, k: nat): World
    requires op.Create?
  {
    var n := if op.idempotent then k + 1 else k;
    var row := Intent(op.newId, op.tenant, op.walletId, op.destination, op.token, Decimal.AmountToString(op.amount),
                      op.chain, op.newNonce, op.creator, [], op.now + 3600, Pending, None, "", op.now, None, None, None);
    if !Wellformed(op) || (op.idempotent && faults(k).NoFault? && Repeated(w, op)) || IdentifiersTaken(w, op) then w
    else SavedThenLogged(w, row, AuditEvent(op.tenant, op.creator, IntentCreated, op.newId, op.requestId, Success), faults, n)
  }

  lemma CreationOutcome(w: World, op: Op, faults: nat -> Fault, k: nat)
    requires op.Create?
    ensures Atomic(w, op, faults, k).0 == AfterCreation(w, op, faults, k)
  {
    hide Finish, Decimal.AcceptableInput, Wellformed, Saved, Logged;
    WellformedIsAcceptable(op);
    assert Repeated(w, op) == Duplicate(w, op) by {
      RepeatedIsDuplicate(w, op);
    }
    var p, n := Begin(w, op, faults(k)), if Reads(op) then k + 1 else k;
    if p.Done? {
      FinishDone(w, faults, n);
    } else {
      InsertAndLog(w, p.row, p.next.event, faults, n);
    }
  }

  lemma WellformedIsAcceptable(op: Op)
    requires op.Create?
    ensures Acceptable(op) <==> Wellformed(op)
  {
    hide Bytes.Utf8, Decimal.ValidateChain, Decimal.Spells;
    Decimal.ValidateChainIff(op.chain);
  }

  lemma RepeatedIsDuplicate(w: World, op: Op)
    requires op.Create?
    ensures Repeated(w, op) <==> Duplicate(w, op)
  {
    hide Decimal.AmountToString;
    if Duplicate(w, op) {
      var id :| id in w.rows && SameRequest(w.rows[id], op);
      assert w.rows[id].tenantId == op.tenant;
    }
    if Repeated(w, op) {
      var id :| id in w.rows && w.rows[id].tenantId == op.tenant && w.rows[id].creator == op.creator
        && w.rows[id].destination == op.destination && w.rows[id].token == op.token
        && w.rows[id].amount == Decimal.AmountToString(op.amount);
      assert SameRequest(w.rows[id], op);
    }
  }

  lemma InsertAndLog(w: World, row: Intent, e: AuditEvent, faults: nat -> Fault, k: nat)
    ensures Finish(w, Insert(row, Log(e, Done)), faults, k).0
         == if row.id in w.rows || exists id :: id in w.rows && w.rows[id].nonce == row.nonce then w
            else SavedThenLogged(w, row, e, faults, k)
  {
    hide Finish, Logged;
    var p := Insert(row, Log(e, Done));
    var w1 := Effect(w, p, faults(k));
    FinishStep(w, p, faults, k);
    FinishDone(w1, faults, k + 1);
    FinishEvent(w1, e, Done, faults, k + 1);
    FinishDone(Logged(w1, e, faults(k + 1)), faults, k + 2);
  }

  // --------------------------------------------------------------- approval

  function AfterApproval(w: World, op: Op, faults: nat -> Fault, k: nat): World
    requires op.Approve?
  {
    if !faults(k).NoFault? || op.id !in w.rows then w
    else
      var row := w.rows[op.id];
      var denied := row.(status := Rejected, failureReason := Some(PolicyDenied));
      if row.tenantId != op.tenant || row.status != Pending then w
      else if PolicyEngine.Lookup(op.policy, row).Err? then
        Logged(w, AuditEvent(op.tenant, op.actor, IntentFailed, op.id, op.requestId, Failure), faults(k + 1))
      else if !PolicyEngine.Allows(op.policy, row) then
        SavedAndLogged(w, denied, AuditEvent(op.tenant, op.actor, IntentPolicyDenied, op.id, op.requestId, Denied), faults, k + 1)
      else if !ZkProof.CanGenerate(row.amount, 100000) then
        Logged(w, AuditEvent(op.tenant, op.actor, IntentFailed, op.id, op.requestId, Failure), faults(k + 1))
      else if !ProofVerifies(op, row) then
        SavedAndLogged(w, denied, AuditEvent(op.tenant, op.actor, IntentZkDenied, op.id, op.requestId, Denied), faults, k + 1)
      else
        SavedThenLogged(w, row.(status := Approved, approvedAt := Some(op.now)),
                        AuditEvent(op.tenant, op.actor, IntentApproved, op.id, op.requestId, Success), faults, k + 1)
  }

  lemma ApprovalOutcome(w: World, op: Op, faults: nat -> Fault, k: nat)
    requires op.Approve?
    ensures Atomic(w, op, faults, k).0 == AfterApproval(w, op, faults, k)
  {
    hide Finish, PolicyEngine.Lookup, PolicyEngine.Allows, ZkProof.CanGenerate, ProofVerifies, Saved, Logged,
      SavedAndLogged, SavedThenLogged;
    var p := Begin(w, op, faults(k));
    FinishDone(w, faults, k + 1);
    if p.Save? {
      FinishSaveAndEvent(w, p.row, p.checked, p.next.event, faults, k + 1);
    } else if p.Log? {
      FinishEvent(w, p.event, Done, faults, k + 1);
      FinishDone(Logged(w, p.event, faults(k + 1)), faults, k + 2);
    }
  }

  // -------------------------------------------------------------- execution

  /** The end of an execution that fails: error ignored, one event of the system. */
  function Failed(w: World, op: Op, row: Intent, reason: Reason, action: Action, outcome: Outcome, faults: nat -> Fault,
                  k: nat): World
    requires op.Execute?
  {
    SavedAndLogged(w, row.(status := Status.Failed, failureReason := Some(reason)),
                   AuditEvent(op.tenant, "system", action, op.id, op.requestId, outcome), faults, k)
  }

  /** From the submission on; `row` is as created, approved and executing. */
  function AfterSubmitting(w: World, op: Op, row: Intent, faults: nat -> Fault, k: nat): World
    requires op.Execute?
  {
    var blockhash := if op.blockhash.Some? then op.blockhash.value else "placeholder-blockhash";
    var payload := Payload(row.walletId, row.token, row.amount, row.destination, blockhash);
    var w1 := w.(submissions := w.submissions + [Submission(row, payload, op.policy, op.checkedAt)]);
    match op.submit
    case Ok(SubmitResult(true, signature, _)) =>
      var done := row.(status := Submitted, executedAt := Some(op.now), txSignature := signature);
      var tx := Transaction(op.txId, row.id, op.tenant, row.walletId, payload, TxSubmitted, op.now, None, signature);
      var e := AuditEvent(op.tenant, "system", IntentSubmittedOnChain, op.id, op.requestId, Success);
      var w2 := Saved(w1, done, faults(k));
      if !faults(k).NoFault? then w2
      else
        var w3 := Logged(if faults(k + 1).Lost? then w2 else w2.(txs := w2.txs + [tx]), e, faults(k + 2));
        w3.(spawned := w3.spawned[(op.tenant, row.id) := Waiting(w3.spawned, op.tenant, row.id) + 1])
    case _ => Failed(w1, op, row, SubmissionFailed, IntentFailed, Failure, faults, k)
  }

  /** From the simulation on. */
  function AfterStarting(w: World, op: Op, row: Intent, faults: nat -> Fault, k: nat): World
    requires op.Execute?
  {
    match Decimal.ParseInt64(row.amount)
    case Err(_) => Failed(w, op, row, SimulationFailed, IntentFailed, Failure, faults, k)
    case Ok(v) =>
      if v <= 0 then Failed(w, op, row, SimulationFailed, IntentSimulated, SimulationDenied, faults, k)
      else
        var w1 := Logged(w, AuditEvent(op.tenant, "system", IntentSimulated, op.id, op.requestId, Success), faults(k));
        if !PolicyEngine.Allows(op.policy, row) then
          Failed(w1, op, row, PolicyDenied, IntentPolicyDenied, Denied, faults, k + 1)
        else if !op.signed then Failed(w1, op, row, SigningFailed, IntentFailed, Failure, faults, k + 1)
        else
          AfterSubmitting(
            Logged(w1, AuditEvent(op.tenant, "system", IntentSigned, op.id, op.requestId, Success), faults(k + 1)),
            op, row, faults, k + 2)
  }

  /** Some record belongs to the stored intent with the nonce. */
  predicate Recorded(w: World, nonce: string) {
    exists i :: 0 <= i < |w.txs| && w.txs[i].intentId in w.rows && w.rows[w.txs[i].intentId].nonce == nonce
  }

  function AfterExecution(w: World, op: Op, faults: nat -> Fault, k: nat): World
    requires op.Execute?
  {
    if !faults(k).NoFault? || op.id !in w.rows then w
    else
      var row := w.rows[op.id];
      if row.tenantId != op.tenant || row.status != Approved then w
      else if op.checkedAt > row.expiry then
        SavedAndLogged(w, row.(status := Expired, failureReason := Some(IntentExpired)),
                       AuditEvent(op.tenant, "system", IntentExpiredEvent, op.id, op.requestId, Success), faults, k + 1)
      else if faults(k + 1).NoFault? && faults(k + 2).NoFault? && Recorded(w, row.nonce) then w
      else
        var n := if faults(k + 1).NoFault? then k + 3 else k + 2;
        var executing := row.(status := Executing);
        var w1 := Saved(w, executing, faults(n));
        if !faults(n).NoFault? then w1
        else
          AfterStarting(Logged(w1, AuditEvent(op.tenant, "user", IntentExecuting, op.id, op.requestId, Success), faults(n + 1)),
                        op, executing, faults, n + 2)
  }

  lemma FailedOutcome(w: World, op: Op, row: Intent, reason: Reason, action: Action, outcome: Outcome,
                      faults: nat -> Fault, k: nat)
    requires op.Execute?
    ensures Finish(w, FailAs(op, row, reason, action, outcome), faults, k).0
         == Failed(w, op, row, reason, action, outcome, faults, k)
  {
    hide Finish, SavedAndLogged;
    FinishSaveAndEvent(w, FailedRow(row, reason), false, Entry(op, "system", action, outcome), faults, k);
  }

  lemma RecordOutcome(w: World, row: Intent, tx: Transaction, e: AuditEvent, tenant: string, id: string,
                      faults: nat -> Fault, k: nat)
    ensures var w' := Finish(w, Save(row, true, InsertTx(tx, Log(e, Spawn(tenant, id, Done)))), faults, k).0;
            var w2 := Saved(w, row, faults(k));
            var w3 := Logged(if faults(k + 1).Lost? then w2 else w2.(txs := w2.txs + [tx]), e, faults(k + 2));
            w' == if !faults(k).NoFault? then w2
                  else w3.(spawned := w3.spawned[(tenant, id) := Waiting(w3.spawned, tenant, id) + 1])
  {
    hide Finish, Saved, Logged, Waiting;
    var spawn := Spawn(tenant, id, Done);
    var insert := InsertTx(tx, Log(e, spawn));
    var w2 := Saved(w, row, faults(k));
    var w3 := if faults(k + 1).Lost? then w2 else w2.(txs := w2.txs + [tx]);
    var w4 := Logged(w3, e, faults(k + 2));
    FinishSave(w, row, true, insert, faults, k);
    FinishStep(w2, insert, faults, k + 1);
    FinishEvent(w3, e, spawn, faults, k + 2);
    FinishStep(w4, spawn, faults, k + 3);
    FinishDone(Effect(w4, spawn, faults(k + 3)), faults, k + 3);
  }

  lemma SubmitOutcome(w: World, op: Op, row: Intent, faults: nat -> Fault, k: nat)
    requires op.Execute? && row.id == op.id
    ensures Finish(w, SubmitBody(op, row), faults, k).0 == AfterSubmitting(w, op, row, faults, k)
  {
    hide Finish, Failed, FailAs, Saved, Logged, Waiting;
    var p := SubmitBody(op, row);
    var w1 := Effect(w, p, faults(k));
    FinishStep(w, p, faults, k);
    if op.submit.Err? || !op.submit.value.success {
      FailedOutcome(w1, op, row, SubmissionFailed, IntentFailed, Failure, faults, k);
    } else {
      var save := p.next;
      RecordOutcome(w1, save.row, save.next.tx, save.next.next.event, op.tenant, row.id, faults, k);
    }
  }

  lemma StartingOutcome(w: World, op: Op, row: Intent, faults: nat -> Fault, k: nat)
    requires op.Execute? && row.id == op.id
    ensures Finish(w, ExecutingBody(op, row), faults, k).0 == AfterStarting(w, op, row, faults, k)
  {
    hide Finish, Failed, FailAs, Logged, SubmitBody, AfterSubmitting, PolicyEngine.Allows, Decimal.ParseInt64;
    var p := ExecutingBody(op, row);
    FailedOutcome(w, op, row, SimulationFailed, IntentFailed, Failure, faults, k);
    FailedOutcome(w, op, row, SimulationFailed, IntentSimulated, SimulationDenied, faults, k);
    if p.Log? {
      var w1 := Logged(w, p.event, faults(k));
      FinishEvent(w, p.event, p.next, faults, k);
      FailedOutcome(w1, op, row, PolicyDenied, IntentPolicyDenied, Denied, faults, k + 1);
      FailedOutcome(w1, op, row, SigningFailed, IntentFailed, Failure, faults, k + 1);
      var signed := Entry(op, "system", IntentSigned, Success);
      FinishEvent(w1, signed, SubmitBody(op, row), faults, k + 1);
      SubmitOutcome(Logged(w1, signed, faults(k + 1)), op, row, faults, k + 2);
    }
  }

  lemma FirstSaveOutcome(w: World, op: Op, row: Intent, faults: nat -> Fault, k: nat)
    requires op.Execute? && row.id == op.id
    ensures var e := AuditEvent(op.tenant, "user", IntentExecuting, op.id, op.requestId, Success);
            var w1 := Saved(w, row, faults(k));
            Finish(w, Save(row, true, Log(e, ExecutingBody(op, row))), faults, k).0
            == if !faults(k).NoFault? then w1
               else AfterStarting(Logged(w1, e, faults(k + 1)), op, row, faults, k + 2)
  {
    hide Finish, Saved, Logged, ExecutingBody, AfterStarting;
    var e := AuditEvent(op.tenant, "user", IntentExecuting, op.id, op.requestId, Success);
    var w1 := Saved(w, row, faults(k));
    FinishSave(w, row, true, Log(e, ExecutingBody(op, row)), faults, k);
    FinishEvent(w1, e, ExecutingBody(op, row), faults, k + 1);
    StartingOutcome(Logged(w1, e, faults(k + 1)), op, row, faults, k + 2);
  }

  lemma ExecutionOutcome(w: World, op: Op, faults: nat -> Fault, k: nat)
    requires op.Execute? && (op.id in w.rows ==> w.rows[op.id].id == op.id)
    ensures Atomic(w, op, faults, k).0 == AfterExecution(w, op, faults, k)
  {
    hide Finish, Saved, Logged, ExecutingBody, AfterStarting, Recorded;
    FinishDone(w, faults, k + 1);
    if faults(k).NoFault? && op.id in w.rows {
      var row := w.rows[op.id];
      var expired := row.(status := Expired, failureReason := Some(IntentExpired));
      FinishSaveAndEvent(w, expired, false, Entry(op, "system", IntentExpiredEvent, Success), faults, k + 1);
      var executing := row.(status := Executing);
      var start := Save(executing, true, Log(Entry(op, "user", IntentExecuting, Success), ExecutingBody(op, executing)));
      LookupOutcome(w, op.id, start, faults, k + 1);
      FirstSaveOutcome(w, op, executing, faults, k + 2);
      FirstSaveOutcome(w, op, executing, faults, k + 3);
    }
  }

  lemma LookupOutcome(w: World, id: string, next: Prog, faults: nat -> Fault, k: nat)
    requires id in w.rows
    ensures var nonce := w.rows[id].nonce;
            Finish(w, FindNonce(nonce, next), faults, k).0
            == if !faults(k).NoFault? then Finish(w, next, faults, k + 1).0
               else if faults(k + 1).NoFault? && Recorded(w, nonce) then w
               else Finish(w, next, faults, k + 2).0
  {
    hide Finish;
    var nonce := w.rows[id].nonce;
    assert NonceTaken(w, nonce);
    FinishStep(w, FindNonce(nonce, next), faults, k);
    FinishStep(w, NonceGuard(nonce, next), faults, k + 1);
    FinishDone(w, faults, k + 2);
  }

  // ------------------------------------------------ rejection, cancellation

  function AfterRejection(w: World, op: Op, faults: nat -> Fault, k: nat): World
    requires op.Reject? || op.Cancel?
  {
    if !faults(k).NoFault? || op.id !in w.rows then w
    else
      var row := w.rows[op.id];
      if row.tenantId != op.tenant || (op.Cancel? && row.status != Pending && row.status != Executing) then w
      else
        SavedThenLogged(w, row.(status := Rejected, failureReason := Some(RejectedByUser)),
                        AuditEvent(op.tenant, op.actor, IntentRejected, op.id, op.requestId, Success), faults, k + 1)
  }

  lemma RejectionOutcome(w: World, op: Op, faults: nat -> Fault, k: nat)
    requires op.Reject? || op.Cancel?
    ensures Atomic(w, op, faults, k).0 == AfterRejection(w, op, faults, k)
  {
    hide Finish, SavedThenLogged;
    var p := Begin(w, op, faults(k));
    FinishDone(w, faults, k + 1);
    if p.Save? {
      FinishSaveAndEvent(w, p.row, p.checked, p.next.event, faults, k + 1);
    }
  }

  // ---------------------------------------------------------- reconciliation

  /** The record after the update: the intent's first one is confirmed if it is found and its save is
      not lost. Then the event. */
  function AfterConfirming(w: World, op: Op, e: AuditEvent, faults: nat -> Fault, k: nat): World
    requires op.Reconcile?
  {
    if faults(k).NoFault? && exists i :: 0 <= i < |w.txs| && w.txs[i].intentId == op.id then
      Logged(if faults(k + 1).Lost? then w else w.(txs := ConfirmFirst(w.txs, op.id, op.now)), e, faults(k + 2))
    else Logged(w, e, faults(k + 1))
  }

  function AfterReconciliation(w: World, op: Op, faults: nat -> Fault, k: nat): World
    requires op.Reconcile?
  {
    if !faults(k).NoFault? || op.id !in w.rows || w.rows[op.id].status != Submitted then w
    else
      var row := w.rows[op.id];
      var n := if op.maxRetries < 0 then 0 else 10 * op.maxRetries;
      if row.txSignature == "" then
        SavedThenLogged(w, row.(status := Status.Failed, failureReason := Some(Reconciliation)),
                        AuditEvent(row.tenantId, "system", IntentFailed, op.id, op.requestId, Failure), faults, k + 1)
      else if op.hasClient && !SolanaClient.Attempts(op.statuses, 0, 60, n).0 then
        SavedThenLogged(w, row.(status := Status.Failed, failureReason := Some(ConfirmationTimeout)),
                        AuditEvent(row.tenantId, "system", IntentFailed, op.id, op.requestId, Failure), faults, k + 1)
      else
        var w1 := Saved(w, row.(status := Confirmed, confirmedAt := Some(op.now)), faults(k + 1));
        if !faults(k + 1).NoFault? then w1
        else
          AfterConfirming(w1, op, AuditEvent(row.tenantId, "system", IntentConfirmed, op.id, op.requestId, Success),
                          faults, k + 2)
  }

  lemma ConfirmOutcome(w: World, op: Op, e: AuditEvent, faults: nat -> Fault, k: nat)
    requires op.Reconcile?
    ensures Finish(w, FindTx(op.id, op.now, Log(e, Done)), faults, k).0 == AfterConfirming(w, op, e, faults, k)
  {
    hide Finish, ConfirmFirst, Logged;
    var find, confirm := FindTx(op.id, op.now, Log(e, Done)), ConfirmTx(op.id, op.now, Log(e, Done));
    var w1 := Effect(w, confirm, faults(k + 1));
    FinishStep(w, find, faults, k);
    FinishStep(w, confirm, faults, k + 1);
    FinishEvent(w1, e, Done, faults, k + 2);
    FinishDone(Logged(w1, e, faults(k + 2)), faults, k + 3);
    FinishEvent(w, e, Done, faults, k + 1);
    FinishDone(Logged(w, e, faults(k + 1)), faults, k + 2);
  }

  lemma ReconcilerOutcome(w: World, op: Op, faults: nat -> Fault, k: nat)
    requires op.Reconcile? && (op.id in w.rows ==> w.rows[op.id].id == op.id)
    ensures Atomic(w, op, faults, k).0 == AfterReconciliation(w, op, faults, k)
  {
    hide Finish, SolanaClient.Attempts, Saved, SavedThenLogged, AfterConfirming;
    var p := Begin(w, op, faults(k));
    FinishDone(w, faults, k + 1);
    if p.Save? && p.next.Log? {
      FinishSaveAndEvent(w, p.row, p.checked, p.next.event, faults, k + 1);
    } else if p.Save? {
      FinishSave(w, p.row, p.checked, p.next, faults, k + 1);
      ConfirmOutcome(Saved(w, p.row, faults(k + 1)), op, p.next.next.event, faults, k + 2);
    }
  }
}
