/** What one reconciliation does to the tables, from the answers of the chain alone. */
module Reconciliation {
  import opened Wrappers
  import opened Domain
  import opened Workflow
  import Outcomes
  import SolanaClient

  /** A submitted intent with a signature, a client to poll, and a database that lets the
      reconciler read the row and save it. */
  predicate Pollable(w: World, op: Op, faults: nat -> Fault, k: nat) {
    && op.Reconcile? && op.hasClient && op.id in w.rows && w.rows[op.id].id == op.id
    && w.rows[op.id].status == Submitted && w.rows[op.id].txSignature != ""
    && faults(k).NoFault? && faults(k + 1).NoFault?
  }

  /** A polling reconciler sends at most 60 * 10 * maxRetries queries and writes one row, once: the
      intent is confirmed exactly when its last query was answered with confirmed or finalized, no
      earlier answer having been either, and otherwise failed with a timeout after all 60 attempts.
      Faults that come after the update change nothing of this. A confirmation confirms the intent's
      first record unless its query or its save fails; an event that tells the verdict is added unless
      it is lost; nothing else changes. */
  lemma ReconciliationOutcome(w: World, op: Op, faults: nat -> Fault, k: nat)
    requires Pollable(w, op, faults, k)
    ensures var n := if op.maxRetries < 0 then 0 else 10 * op.maxRetries;
            var (confirmed, used, made) := SolanaClient.Attempts(op.statuses, 0, 60, n);
            var row, w' := w.rows[op.id], Atomic(w, op, faults, k).0;
            && used <= 60 * n && made <= 60 && (!confirmed ==> made == 60)
            && (confirmed <==> used > 0 && (op.statuses(used - 1).Confirmed? || op.statuses(used - 1).Finalized?))
            && (forall j: nat :: j < (if confirmed then used - 1 else used) ==>
                  !op.statuses(j).Confirmed? && !op.statuses(j).Finalized?)
            && w'.rows == w.rows[op.id := if confirmed then row.(status := Confirmed, confirmedAt := Some(op.now))
                                          else row.(status := Failed, failureReason := Some(ConfirmationTimeout))]
            && w'.submissions == w.submissions && w'.spawned == w.spawned
            && var found := confirmed && faults(k + 2).NoFault? && exists i :: 0 <= i < |w.txs| && w.txs[i].intentId == op.id;
               var e := AuditEvent(row.tenantId, "system", if confirmed then IntentConfirmed else IntentFailed, op.id,
                                   op.requestId, if confirmed then Success else Failure);
               && w'.txs == (if found && !faults(k + 3).Lost? then ConfirmFirst(w.txs, op.id, op.now) else w.txs)
               && w'.log == (if faults(if found then k + 4 else if confirmed then k + 3 else k + 2).Lost? then w.log
                             else w.log + [e])
  {
    hide SolanaClient.Attempts, Atomic;
    Outcomes.ReconcilerOutcome(w, op, faults, k);
    SolanaClient.AttemptsOutcome(op.statuses, 0, 60, if op.maxRetries < 0 then 0 else 10 * op.maxRetries);
  }

  /** A chain that never answers confirmed or finalized: the intent ends failed with a timeout. */
  lemma NothingWantedTimesOut(w: World, op: Op, faults: nat -> Fault, k: nat)
    requires Pollable(w, op, faults, k)
    requires forall j: nat :: !op.statuses(j).Confirmed? && !op.statuses(j).Finalized?
    ensures Atomic(w, op, faults, k).0.rows
         == w.rows[op.id := w.rows[op.id].(status := Failed, failureReason := Some(ConfirmationTimeout))]
  {
    hide SolanaClient.Attempts, Atomic;
    ReconciliationOutcome(w, op, faults, k);
  }

  /** A chain that never reports a failure: the intent ends confirmed exactly when confirmed or
      finalized shows up among the 60 * 10 * maxRetries answers. */
  lemma NoGoodAnswerIsMissed(w: World, op: Op, faults: nat -> Fault, k: nat)
    requires Pollable(w, op, faults, k) && forall j: nat :: !op.statuses(j).FailedOnChain?
    ensures op.id in Atomic(w, op, faults, k).0.rows
    ensures Atomic(w, op, faults, k).0.rows[op.id].status == Confirmed <==>
      exists j: nat :: j < 60 * (if op.maxRetries < 0 then 0 else 10 * op.maxRetries)
        && (op.statuses(j).Confirmed? || op.statuses(j).Finalized?)
  {
    hide SolanaClient.Attempts, Atomic;
    ReconciliationOutcome(w, op, faults, k);
    SolanaClient.AttemptsWithoutFailures(op.statuses, 0, 60, if op.maxRetries < 0 then 0 else 10 * op.maxRetries);
  }
}
