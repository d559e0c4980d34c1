/** That the discipline of LiveJournal is the weakest one: for each pair of handlers that it keeps apart
    there is a run from the empty tables, without any fault or crash, in which the two overlap and the
    log disagrees with the row after all handlers are done. One handler has saved its row and logs it
    only after the other one has saved another. */
module JournalOverlap {
  import opened Wrappers
  import opened Domain
  import opened Workflow
  import opened Discipline
  import opened Overlap
  import opened Refusal
  import Decimal
  import Decisions
  import Journal
  import LiveJournal
  import SolanaClient

  // ----------------------------------------------------------- last words

  /** A program that is left with one event, which sets the replay whatever came before. */
  ghost predicate Says(p: Prog, said: Status) {
    && p.Log? && p.next.Done? && p.event.intentId == "i"
    && forall s :: Journal.ReplayStep(s, p.event) == Some(said)
  }

  /** Everything is done and log and row disagree. */
  ghost predicate Unjournaled(sys: Sys) {
    LiveJournal.AllDone(sys.threads, "i") && !Journal.Agrees(sys.w, "i")
  }

  lemma LastWord(d: Discipline, sys: Sys, k: nat, n: nat, row: Intent, txs: seq<Transaction>, submitted: nat, said: Status)
    returns (sys': Sys)
    requires Idle(sys, k, {n}) && sys.threads[T(n)].Running? && Says(sys.threads[T(n)].prog, said)
    requires Stands(sys.w, row, txs, submitted) && row.status != said
    ensures Reach(d, sys, sys') && Unjournaled(sys')
  {
    hide Reach, Finish, Journal.Replay;
    var p := sys.threads[T(n)].prog;
    sys' := FinishIt(d, sys, k, {n}, n);
    FinishStep(sys.w, p, NoFaults, 0);
    FinishDone(Effect(sys.w, p, NoFault), NoFaults, 1);
    Journal.ReplaySnoc(sys.w.log, p.event, "i");
    assert {n} - {n} == {};
  }

  /** A handler saves its row; its event is still to come. */
  lemma SaveFirst(d: Discipline, sys: Sys, k: nat, live: set<nat>, n: nat, row: Intent, before: Intent,
                  txs: seq<Transaction>, submitted: nat) returns (sys': Sys)
    requires Idle(sys, k, live) && n in live && sys.threads[T(n)].Running? && Saving(sys.threads[T(n)].prog, row)
    requires row.id == "i" && Stands(sys.w, before, txs, submitted)
    ensures Reach(d, sys, sys') && Idle(sys', k, live) && Stands(sys'.w, row, txs, submitted)
    ensures sys'.threads == sys.threads[T(n) := Running(sys.threads[T(n)].op, sys.threads[T(n)].prog.next)]
    ensures ToStart(sys'.w) == ToStart(sys.w)
  {
    hide Reach;
    sys' := StepIt(d, sys, k, live, n);
  }

  // ------------------------------------------------------------ schedules

  /** A creation that has inserted its row. */
  lemma CreationWaits(d: Discipline) returns (sys: Sys)
    ensures Reach(d, INITIAL, sys) && Idle(sys, 1, {0}) && Stands(sys.w, Row(Pending), [], 0)
    ensures sys.threads[T(0)].Running? && sys.threads[T(0)].op == CreateIt() && Says(sys.threads[T(0)].prog, Pending)
  {
    hide Reach, Acceptable, Launched;
    var op := CreateIt();
    RequestsJustStart(EMPTY, op);
    CreationBegins();
    var s1 := StartIt(d, INITIAL, 0, {}, op);
    assert {} + {0} == {0};
    sys := StepIt(d, s1, 1, {0}, 0);
    ReachOn(d, INITIAL, s1, sys);
  }

  lemma CreationBegins()
    ensures Begin(EMPTY, CreateIt(), NoFault) == CreateBody(CreateIt())
  {
    assert Decimal.ToLower("solana") == "solana";
  }

  /** Its event comes after the approval's, the rejection's or the cancellation's. */
  lemma LateCreation(d: Discipline, kind: Kind) returns (sys: Sys)
    requires kind in {Approval, Rejection, Cancellation} && !Apart(d, Creation, kind)
    ensures Reach(d, INITIAL, sys) && Unjournaled(sys)
  {
    hide Reach, Row, Apart, Begin, Saving, Launched, Finish, ToStart, Says, Unjournaled;
    RowId();
    RowFacts();
    var s1 := CreationWaits(d);
    if kind == Approval {
      var s2 := RunApproval(d, s1, 1, {0});
      sys := LastWord(d, s2, 2, 0, Row(Approved), [], 0, Pending);
      ReachOn(d, INITIAL, s1, s2);
      ReachOn(d, INITIAL, s2, sys);
    } else {
      var op := RefusalBy(kind);
      RequestsJustStart(s1.w, op);
      var s2 := RunIt(d, s1, 1, {0}, op);
      RefusalReads(s1.w, kind);
      SavingLeaves(s1.w, Begin(s1.w, op, NoFault), RefusedBy(kind), Row(Pending), [], 0);
      sys := LastWord(d, s2, 2, 0, RefusedBy(kind), [], 0, Pending);
      ReachOn(d, INITIAL, s1, s2);
      ReachOn(d, INITIAL, s2, sys);
    }
  }

  lemma RefusalSays(w: World, kind: Kind)
    requires w.rows == map["i" := Row(Pending)]
    ensures Saving(Begin(w, RefusalBy(kind), NoFault), RefusedBy(kind))
    ensures Says(Begin(w, RefusalBy(kind), NoFault).next, Rejected)
  {
    hide Begin, Row;
    RowFacts();
    RefusalReads(w, kind);
    if kind == Approval {
      DenialReads(w);
    } else {
      RejectReads(w, Row(Pending), kind == Cancellation);
    }
  }

  lemma RefusalKind(kind: Kind)
    requires kind in {Approval, Rejection, Cancellation}
    ensures KindOf(RefusalBy(kind)) == kind && RefusalBy(kind).tenant == "t" && KindOf(ApproveIt()) == Approval
    ensures ApproveIt().tenant == "t"
  {
  }

  lemma ApartSwaps(d: Discipline, a: Kind, b: Kind)
    ensures Apart(d, a, b) == Apart(d, b, a)
  {
  }

  /** Both read the pending row; the refusal is saved first and logged last. */
  lemma LateRefusal(d: Discipline, kind: Kind) returns (sys: Sys)
    requires kind in {Approval, Rejection, Cancellation} && !Apart(d, Approval, kind)
    ensures Reach(d, INITIAL, sys) && Unjournaled(sys)
  {
    hide Reach, Row, Apart, Begin, Launched, Finish, ToStart, Says, Unjournaled, DenyIt, ApproveIt;
    RowId();
    RowFacts();
    var op := RefusalBy(kind);
    RefusalKind(kind);
    ApartSwaps(d, Approval, kind);
    var s1 := PendingIntent(d);
    OneRow(s1.w, Row(Pending), [], 0);
    RequestsJustStart(s1.w, op);
    RequestsJustStart(s1.w, ApproveIt());
    RefusalSays(s1.w, kind);
    ApproveReads(s1.w);
    var s2 := StartIt(d, s1, 1, {}, op);
    assert {} + {1} == {1};
    var s3 := StartIt(d, s2, 2, {1}, ApproveIt());
    assert {1} + {2} == {1, 2} && {1, 2} - {2} == {1};
    var s4 := SaveFirst(d, s3, 3, {1, 2}, 1, RefusedBy(kind), Row(Pending), [], 0);
    var s5 := FinishIt(d, s4, 3, {1, 2}, 2);
    SavingLeaves(s4.w, s4.threads[T(2)].prog, Row(Approved), RefusedBy(kind), [], 0);
    sys := LastWord(d, s5, 3, 1, Row(Approved), [], 0, Rejected);
    ReachOn(d, INITIAL, s1, s2);
    ReachOn(d, INITIAL, s2, s3);
    ReachOn(d, INITIAL, s3, s4);
    ReachOn(d, INITIAL, s4, s5);
    ReachOn(d, INITIAL, s5, sys);
  }

  /** An execution between an approval's save and its event. */
  lemma LateApprovalEvent(d: Discipline) returns (sys: Sys)
    requires !Apart(d, Approval, Execution)
    ensures Reach(d, INITIAL, sys) && Unjournaled(sys)
  {
    hide Reach, Row, Apart, Begin, Launched, Finish, ToStart, Unjournaled, Stands, Record;
    RowId();
    RowFacts();
    var s1 := PendingIntent(d);
    OneRow(s1.w, Row(Pending), [], 0);
    RequestsJustStart(s1.w, ApproveIt());
    ApproveReads(s1.w);
    var s2 := StartIt(d, s1, 1, {}, ApproveIt());
    assert {} + {1} == {1};
    var s3 := SaveFirst(d, s2, 2, {1}, 1, Row(Approved), Row(Pending), [], 0);
    var s4 := RunExecution(d, s3, 2, {1}, true, 0);
    sys := LastWord(d, s4, 3, 1, Row(Submitted), [Record()], 1, Approved);
    ReachOn(d, INITIAL, s1, s2);
    ReachOn(d, INITIAL, s2, s3);
    ReachOn(d, INITIAL, s3, s4);
    ReachOn(d, INITIAL, s4, sys);
  }

  /** An execution that comes after the intent's expiry. */
  function ExpireIt(): Op {
    Execute("t", "req", "i", INTENT_LIFETIME + 1, None, OpenPolicies(), true, Err(SolanaClient.RetriesExhausted), 0, "tx")
  }

  function ExpiredRow(): Intent {
    Row(Approved).(status := Expired, failureReason := Some(IntentExpired))
  }

  lemma ExpiryReads(w: World)
    requires w.rows == map["i" := Row(Approved)]
    ensures Saving(Begin(w, ExpireIt(), NoFault), ExpiredRow()) && Says(Begin(w, ExpireIt(), NoFault).next, Expired)
  {
    hide ExecutingBody;
  }

  /** A handler that ends an approved intent: an expiring execution or a rejection. */
  function EndIt(kind: Kind): Op {
    if kind == Execution then ExpireIt() else RejectIt(false)
  }

  function EndedRow(kind: Kind): Intent {
    if kind == Execution then ExpiredRow() else Refused(Row(Approved), RejectedByUser)
  }

  lemma EndReads(w: World, kind: Kind)
    requires w.rows == map["i" := Row(Approved)]
    ensures Saving(Begin(w, EndIt(kind), NoFault), EndedRow(kind))
    ensures Says(Begin(w, EndIt(kind), NoFault).next, EndedRow(kind).status)
  {
    hide Begin, Row;
    RowFacts();
    ExpiryReads(w);
    RejectReads(w, Row(Approved), false);
  }

  lemma EndFacts(kind: Kind)
    requires kind in {Execution, Rejection}
    ensures KindOf(EndIt(kind)) == kind && EndIt(kind).tenant == "t"
    ensures EndedRow(kind).id == "i" && EndedRow(kind).status in {Expired, Rejected}
    ensures KindOf(ExecuteIt(true)) == Execution && ExecuteIt(true).tenant == "t"
  {
  }

  /** Beside an execution that is past its guard, such a handler saves first and logs last. */
  lemma LateEnd(d: Discipline, kind: Kind) returns (sys: Sys)
    requires kind in {Execution, Rejection} && !Apart(d, Execution, kind)
    ensures Reach(d, INITIAL, sys) && Unjournaled(sys)
  {
    hide Reach, Row, Apart, Begin, Launched, Finish, ToStart, Unjournaled, Decisions.StartExecuting, Stands,
      Record, EndIt, EndedRow, ExecuteIt, Says, Saving;
    RowFacts();
    EndFacts(kind);
    var op, row := EndIt(kind), EndedRow(kind);
    var s1 := ApprovedIntent(d);
    var s2 := PassGuard(d, s1, 2, {}, true);
    assert {} + {2} == {2} && {2} + {3} == {2, 3} && {2, 3} - {2} == {3} && [] + [Record()] == [Record()];
    OneRow(s2.w, Row(Approved), [], 0);
    RequestsJustStart(s2.w, op);
    EndReads(s2.w, kind);
    var s3 := StartIt(d, s2, 3, {2}, op);
    var s4 := SaveFirst(d, s3, 4, {2, 3}, 3, row, Row(Approved), [], 0);
    var s5 := FinishExecution(d, s4, 4, {2, 3}, 2, row, [], 0);
    sys := LastWord(d, s5, 4, 3, Row(Submitted), [Record()], 1, row.status);
    ReachOn(d, INITIAL, s1, s2);
    ReachOn(d, INITIAL, s2, s3);
    ReachOn(d, INITIAL, s3, s4);
    ReachOn(d, INITIAL, s4, s5);
    ReachOn(d, INITIAL, s5, sys);
  }

  /** A cancellation that read the executing row saves it before the execution's last save and logs it
      after. */
  lemma LateCancellation(d: Discipline) returns (sys: Sys)
    requires !Apart(d, Execution, Cancellation)
    ensures Reach(d, INITIAL, sys) && Unjournaled(sys)
  {
    hide Reach, Row, Apart, Begin, Launched, Finish, ToStart, Unjournaled, Decisions.StartExecuting;
    RowId();
    RowFacts();
    var row := Refused(Row(Executing), RejectedByUser);
    var s1 := CancellationReads(d);
    var s2 := SaveFirst(d, s1, 4, {2, 3}, 3, row, Row(Executing), [], 0);
    var s3 := FinishIt(d, s2, 4, {2, 3}, 2);
    assert {2, 3} - {2} == {3};
    LoggedLeaves(s2.w, true, row, [], 0);
    sys := LastWord(d, s3, 4, 3, Row(Submitted), [] + [Record()], 1, Rejected);
    ReachOn(d, INITIAL, s1, s2);
    ReachOn(d, INITIAL, s2, s3);
    ReachOn(d, INITIAL, s3, sys);
  }

  /** A rejection and a reconciliation have both read the submitted row. */
  lemma BothRead(d: Discipline) returns (sys: Sys)
    requires !Apart(d, Rejection, Reconciling)
    ensures Reach(d, INITIAL, sys) && Idle(sys, 5, {3, 4}) && Stands(sys.w, Row(Submitted), [Record()], 1)
    ensures sys.threads[T(3)].Running? && sys.threads[T(4)].Running?
    ensures sys.threads[T(4)].prog == ConfirmBody(ReconcileIt(false), Row(Submitted))
    ensures var p := sys.threads[T(3)].prog; Saving(p, Refused(Row(Submitted), RejectedByUser)) && Says(p.next, Rejected)
  {
    hide Reach, Row, Apart, Begin, Launched, ConfirmBody, Record, Stands, ReconcileIt;
    RowFacts();
    ReconcileFacts();
    var op, confirm := RejectIt(false), ReconcileIt(false);
    var s1 := SubmittedIntent(d);
    OneRow(s1.w, Row(Submitted), [Record()], 1);
    RequestsJustStart(s1.w, op);
    RejectReads(s1.w, Row(Submitted), false);
    var s2 := StartIt(d, s1, 3, {}, op);
    assert {} + {3} == {3} && {3} + {4} == {3, 4};
    LaunchedStands(s2.w, false, Row(Submitted), [Record()], 1);
    OneRow(Launched(s2.w, confirm), Row(Submitted), [Record()], 1);
    ReconcileReads(Launched(s2.w, confirm), false);
    sys := StartIt(d, s2, 4, {3}, confirm);
    ReachOn(d, INITIAL, s1, s2);
    ReachOn(d, INITIAL, s2, sys);
  }

  /** The rejection is saved before the confirmation and logged after it. */
  lemma LateRejection(d: Discipline) returns (sys: Sys)
    requires !Apart(d, Rejection, Reconciling)
    ensures Reach(d, INITIAL, sys) && Unjournaled(sys)
  {
    hide Reach, Row, Apart, Finish, Unjournaled, ConfirmBody, Record, ConfirmedRecord, Stands, ReconcileIt, Saving, Says;
    RowId();
    RowFacts();
    var row := Refused(Row(Submitted), RejectedByUser);
    var s1 := BothRead(d);
    var s2 := SaveFirst(d, s1, 5, {3, 4}, 3, row, Row(Submitted), [Record()], 1);
    var s3 := FinishIt(d, s2, 5, {3, 4}, 4);
    assert {3, 4} - {4} == {3};
    ConfirmLeaves(s2.w, row, [Record()], 1);
    sys := LastWord(d, s3, 5, 3, Row(Confirmed), [Record()][0 := ConfirmedRecord()], 1, Rejected);
    ReachOn(d, INITIAL, s1, s2);
    ReachOn(d, INITIAL, s2, s3);
    ReachOn(d, INITIAL, s3, sys);
  }

  lemma ReconcileFacts()
    ensures var op := ReconcileIt(false);
            KindOf(op) == Reconciling && op.Reconcile? && op.tenant == "t" && op.id == "i"
  {
  }

  lemma OutOfStep(d: Discipline) returns (sys: Sys)
    requires !LiveJournal.JournalStands(d)
    ensures Reach(d, INITIAL, sys) && Unjournaled(sys)
  {
    hide Reach, Unjournaled, Apart;
    if !Apart(d, Creation, Approval) {
      sys := LateCreation(d, Approval);
    } else if !Apart(d, Creation, Rejection) {
      sys := LateCreation(d, Rejection);
    } else if !Apart(d, Creation, Cancellation) {
      sys := LateCreation(d, Cancellation);
    } else if !Apart(d, Approval, Approval) {
      sys := LateRefusal(d, Approval);
    } else if !Apart(d, Approval, Rejection) {
      sys := LateRefusal(d, Rejection);
    } else if !Apart(d, Approval, Cancellation) {
      sys := LateRefusal(d, Cancellation);
    } else if !Apart(d, Approval, Execution) {
      sys := LateApprovalEvent(d);
    } else if !Apart(d, Execution, Execution) {
      sys := LateEnd(d, Execution);
    } else if !Apart(d, Execution, Rejection) {
      sys := LateEnd(d, Rejection);
    } else if !Apart(d, Execution, Cancellation) {
      sys := LateCancellation(d);
    } else {
      sys := LateRejection(d);
    }
  }

  // -------------------------------------------------------------- theorem

  /** In every run that keeps the discipline, without faults and crashes, an intent on which no handler
      is at work has the status that its events replay to. */
  ghost predicate KeepsJournal(d: Discipline) {
    forall es, id :: SerialRun(d, es) && FaultFree(es) && LiveJournal.AllDone(Run(INITIAL, es).threads, id) ==>
      Journal.Agrees(Run(INITIAL, es).w, id)
  }

  /** Exactly when approvals and executions are kept apart each from their own kind, from each other
      and from rejections and cancellations, creations from approvals, rejections and cancellations,
      and rejections from reconciliations. Rejections and cancellations may overlap each other. */
  lemma InterleavedJournalIff(d: Discipline)
    ensures KeepsJournal(d) <==> LiveJournal.JournalStands(d)
  {
    hide Run, SerialRun, FaultFree, LiveJournal.AllDone, LiveJournal.JournalStands, Journal.Replay, Journal.StatusOf;
    if LiveJournal.JournalStands(d) {
      forall es, id | SerialRun(d, es) && FaultFree(es) && LiveJournal.AllDone(Run(INITIAL, es).threads, id)
        ensures Journal.Agrees(Run(INITIAL, es).w, id)
      {
        LiveJournal.InterleavedLogIsAJournal(d, es, id);
      }
    } else {
      var sys := OutOfStep(d);
      FailingJournal(d, sys);
    }
  }

  lemma FailingJournal(d: Discipline, sys: Sys)
    requires Reach(d, INITIAL, sys) && Unjournaled(sys)
    ensures !KeepsJournal(d)
  {
    hide Run, SerialFrom, FaultFree, LiveJournal.AllDone, Journal.Agrees;
    var es :| Leads(d, INITIAL, es, sys);
    assert SerialRun(d, es) && !Journal.Agrees(Run(INITIAL, es).w, "i");
  }
}
