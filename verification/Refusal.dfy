/** A rejected intent is not submitted any more (I2 of docs/invariants.md), and exactly which handlers
    have to be kept apart for that. */
module Refusal {
  import opened Wrappers
  import opened Domain
  import opened Workflow
  import opened Invariants
  import opened Discipline
  import opened Serialised
  import opened Overlap
  import Decisions

  /** Approvals are kept apart from everything that rejects, other approvals included, and so are
      executions from rejections and cancellations. */
  predicate RejectionStands(d: Discipline) {
    && Apart(d, Approval, Approval) && Apart(d, Approval, Rejection) && Apart(d, Approval, Cancellation)
    && Apart(d, Execution, Rejection) && Apart(d, Execution, Cancellation)
  }

  predicate IsRejected(w: World, id: string) {
    id in w.rows && w.rows[id].status == Rejected
  }

  /** If the intent is rejected at one time, no submission has been added at the other. */
  predicate NotSubmittedSince(w: World, w': World, id: string) {
    IsRejected(w, id) ==> SubmissionCount(w'.submissions, id) == SubmissionCount(w.submissions, id)
  }

  // --------------------------------------------------------- sufficiency

  /** Neither an approval about to save its row nor an execution about to submit. */
  predicate Barred(t: Thread) {
    !(t.op.Approve? && Writing(t)) && !(t.op.Execute? && t.Running? && Ahead(t.prog).submits)
  }

  /** While an intent is rejected, every handler on it is barred. */
  ghost predicate RejectedAreBarred(sys: Sys) {
    forall t :: t in sys.threads && ViewOf(sys.w, Target(sys.threads[t].op)).status == Some(Rejected) ==>
      Barred(sys.threads[t])
  }

  /** The intent is neither pending nor approved, and every handler on it is barred. */
  ghost predicate Shut(sys: Sys, id: string, submitted: nat) {
    && !Early(ViewOf(sys.w, id).status) && ViewOf(sys.w, id).submitted == submitted
    && forall t :: t in sys.threads && Target(sys.threads[t].op) == id ==> Barred(sys.threads[t])
  }

  lemma OwnBarred(d: Discipline, v: View, op: Op, p: Prog, fault: Fault, rest: Prog, v': View)
    requires Fits(op, p) && Steps(v, p, fault, rest, v')
    ensures Barred(Running(op, p)) || v'.status == Some(Rejected) != v.status ==> Barred(Running(op, rest))
    ensures Barred(Running(op, p)) && !Early(v.status) ==> !Early(v'.status) && v'.submitted == v.submitted
  {
    PlanShrinks(v, p, fault, rest, v');
  }

  /** Whoever saves a row as rejected has kept the others out. */
  lemma RejectionBars(d: Discipline, v: View, op: Op, p: Prog, fault: Fault, rest: Prog, v': View, u: Thread)
    requires RejectionStands(d) && Fits(op, p) && Steps(v, p, fault, rest, v')
    requires v'.status == Some(Rejected) != v.status && PairFine(d, Running(op, p), u)
    ensures Barred(u)
  {
    assert p.Save? && p.row.status == Rejected && Ahead(p).writes;
    assert KindOf(op) in {Approval, Rejection, Cancellation};
  }

  lemma BeginBarred(w: World, op: Op, fault: Fault)
    requires RowsOk(w) && !Early(ViewOf(w, Target(op)).status)
    ensures Barred(Running(op, Begin(w, op, fault)))
  {
    hide Body, CreateBody, Acceptable, Duplicate, RowOk, Ahead;
    DonePlan(Done, "");
    if !op.Create? && op.id in w.rows {
      BodyPlan(op, w.rows[op.id]);
      DonePlan(Done, "");
    }
  }

  lemma TickBars(d: Discipline, sys: Sys, tid: Tid, fault: Fault)
    requires RejectionStands(d) && SysFine(d, sys) && RejectedAreBarred(sys)
    requires tid in sys.threads && sys.threads[tid].Running?
    ensures RejectedAreBarred(Next(sys, Tick(tid, fault)))
  {
    hide ThreadFine, PairFine, IntentFine, ViewOf, Effect, Rest, Steps, Fits, Barred, RejectionStands;
    var op, p := sys.threads[tid].op, sys.threads[tid].prog;
    var w', rest := Effect(sys.w, p, fault), Rest(sys.w, p, fault);
    var own := Target(op);
    var v, v' := ViewOf(sys.w, own), ViewOf(w', own);
    FineFits(d, v, op, p);
    FitsStaysOn(op, p);
    forall id ensures id != own ==> ViewOf(w', id) == ViewOf(sys.w, id) {
      EffectViews(sys.w, p, fault, own, id);
    }
    EffectViews(sys.w, p, fault, own, own);
    if v'.status == Some(Rejected) {
      OwnBarred(d, v, op, p, fault, rest, v');
      forall t | t in sys.threads && t != tid && Target(sys.threads[t].op) == own ensures Barred(sys.threads[t]) {
        if v.status != Some(Rejected) {
          RejectionBars(d, v, op, p, fault, rest, v', sys.threads[t]);
        }
      }
    }
  }

  lemma TickKeepsShut(d: Discipline, sys: Sys, tid: Tid, fault: Fault, id: string, submitted: nat)
    requires SysFine(d, sys) && Shut(sys, id, submitted) && tid in sys.threads && sys.threads[tid].Running?
    ensures Shut(Next(sys, Tick(tid, fault)), id, submitted)
  {
    hide ThreadFine, PairFine, IntentFine, ViewOf, Effect, Rest, Steps, Fits, Barred, Early;
    var op, p := sys.threads[tid].op, sys.threads[tid].prog;
    var own := Target(op);
    FineFits(d, ViewOf(sys.w, own), op, p);
    FitsStaysOn(op, p);
    EffectViews(sys.w, p, fault, own, id);
    if id == own {
      OwnBarred(d, ViewOf(sys.w, id), op, p, fault, Rest(sys.w, p, fault), ViewOf(Effect(sys.w, p, fault), id));
    }
  }

  /** A start changes neither status nor submissions. */
  lemma LaunchedLooks(w: World, op: Op, id: string)
    ensures var v, v' := ViewOf(w, id), ViewOf(Launched(w, op), id); v'.status == v.status && v'.submitted == v.submitted
  {
  }

  lemma StoppedIsBarred(op: Op)
    ensures Barred(Ready(op)) && Barred(Running(op, Done))
  {
    DonePlan(Done, "");
  }

  lemma NextBars(d: Discipline, sys: Sys, e: Event)
    requires RejectionStands(d) && SysFine(d, sys) && RowsOk(sys.w) && RejectedAreBarred(sys)
    ensures RejectedAreBarred(Next(sys, e))
  {
    hide SysFine, RowOk, ViewOf, Begin, Barred, Launched;
    match e {
      case Start(tid, op) =>
        StoppedIsBarred(op);
        forall t | t in sys.threads ensures
          ViewOf(Launched(sys.w, op), Target(sys.threads[t].op)).status == ViewOf(sys.w, Target(sys.threads[t].op)).status
        {
          LaunchedLooks(sys.w, op, Target(sys.threads[t].op));
        }
      case Crash(tid) =>
        if tid in sys.threads {
          StoppedIsBarred(sys.threads[tid].op);
        }
      case Tick(tid, fault) =>
        if tid in sys.threads {
          var t := sys.threads[tid];
          if t.Running? {
            TickBars(d, sys, tid, fault);
          } else if ViewOf(sys.w, Target(t.op)).status == Some(Rejected) {
            BeginBarred(sys.w, t.op, fault);
          }
        }
    }
  }

  lemma NextKeepsShut(d: Discipline, sys: Sys, e: Event, id: string, submitted: nat)
    requires SysFine(d, sys) && RowsOk(sys.w) && Shut(sys, id, submitted)
    ensures Shut(Next(sys, e), id, submitted)
  {
    hide SysFine, RowOk, ViewOf, Begin, Barred, Launched, Early;
    match e {
      case Start(tid, op) =>
        StoppedIsBarred(op);
        LaunchedLooks(sys.w, op, id);
      case Crash(tid) =>
        if tid in sys.threads {
          StoppedIsBarred(sys.threads[tid].op);
        }
      case Tick(tid, fault) =>
        if tid in sys.threads {
          var t := sys.threads[tid];
          if t.Running? {
            TickKeepsShut(d, sys, tid, fault, id, submitted);
          } else if Target(t.op) == id {
            BeginBarred(sys.w, t.op, fault);
          }
        }
    }
  }

  lemma {:induction false} RunBars(d: Discipline, es: seq<Event>)
    requires RejectionStands(d) && SerialRun(d, es)
    ensures RejectedAreBarred(Run(INITIAL, es))
  {
    if |es| == 0 {
    } else {
      var front := es[..|es| - 1];
      RunBars(d, front);
      SerialRunFine(d, front);
      InitialOk();
      RunOk(INITIAL, front);
      hide RejectedAreBarred, SysFine, Next, RowOk, SubmissionOk, TxOk, ProgOk;
      NextBars(d, Run(INITIAL, front), es[|es| - 1]);
    }
  }

  lemma {:induction false} SerialPrefix(d: Discipline, sys: Sys, a: seq<Event>, b: seq<Event>)
    requires SerialFrom(d, sys, a + b)
    ensures SerialFrom(d, sys, a)
    decreases |b|
  {
    if |b| == 0 {
      assert a + b == a;
    } else {
      assert (a + b)[..|a + b| - 1] == a + b[..|b| - 1];
      SerialPrefix(d, sys, a, b[..|b| - 1]);
    }
  }

  lemma {:induction false} ShutForGood(d: Discipline, a: seq<Event>, b: seq<Event>, id: string, submitted: nat)
    requires SerialRun(d, a + b) && Shut(Run(INITIAL, a), id, submitted)
    ensures Shut(Run(INITIAL, a + b), id, submitted)
    decreases |b|
  {
    if |b| == 0 {
      assert a + b == a;
    } else {
      var front, e := b[..|b| - 1], b[|b| - 1];
      assert a + b == (a + front) + [e];
      SerialPrefix(d, INITIAL, a + front, [e]);
      ShutForGood(d, a, front, id, submitted);
      SerialRunFine(d, a + front);
      InitialOk();
      RunOk(INITIAL, a + front);
      RunSnoc(INITIAL, a + front, e);
      hide Shut, SysFine, Next, Run, RowOk, SubmissionOk, TxOk, ProgOk;
      NextKeepsShut(d, Run(INITIAL, a + front), e, id, submitted);
    }
  }

  /** Once an intent has been saved as rejected it is never submitted again, even if the row is
      overwritten later, under all faults and crashes. */
  lemma RejectedNeverSubmitted(d: Discipline, a: seq<Event>, b: seq<Event>, id: string)
    requires RejectionStands(d) && SerialRun(d, a + b)
    ensures NotSubmittedSince(Run(INITIAL, a).w, Run(INITIAL, a + b).w, id)
  {
    var sys := Run(INITIAL, a);
    if IsRejected(sys.w, id) {
      SerialPrefix(d, INITIAL, a, b);
      RunBars(d, a);
      hide Run, Barred;
      var n := ViewOf(sys.w, id).submitted;
      assert Shut(sys, id, n);
      ShutForGood(d, a, b, id, n);
    }
  }

  // ----------------------------------------------------------- necessity

  /** A handler of a kind that reads the pending row and rejects it. */
  function RefusalBy(kind: Kind): Op {
    if kind == Approval then DenyIt() else RejectIt(kind == Cancellation)
  }

  function RefusedBy(kind: Kind): Intent {
    Refused(Row(Pending), if kind == Approval then PolicyDenied else RejectedByUser)
  }

  lemma RefusalReads(w: World, kind: Kind)
    requires w.rows == map["i" := Row(Pending)]
    ensures Saving(Begin(w, RefusalBy(kind), NoFault), RefusedBy(kind))
  {
    hide Begin, DenyIt, Row;
    RowFacts();
    if kind == Approval {
      DenialReads(w);
    } else {
      RejectReads(w, Row(Pending), kind == Cancellation);
    }
  }

  /** An approval that read the pending row before it was rejected saves it as approved, and an
      execution follows. */
  lemma LateApproval(d: Discipline, kind: Kind) returns (mid: Sys, sys: Sys)
    requires kind in {Approval, Rejection, Cancellation} && !Apart(d, Approval, kind)
    ensures Reach(d, INITIAL, mid) && Reach(d, mid, sys)
    ensures Stands(mid.w, RefusedBy(kind), [], 0) && SubmissionCount(sys.w.submissions, "i") == 1
  {
    hide Reach, Row, Apart, Begin, Saving, Launched, Finish, ToStart;
    var op := RefusalBy(kind);
    RowId();
    var s1 := PendingIntent(d);
    RequestsJustStart(s1.w, ApproveIt());
    var s2 := StartIt(d, s1, 1, {}, ApproveIt());
    assert {} + {1} == {1};
    OneRow(s1.w, Row(Pending), [], 0);
    ApproveReads(s1.w);
    RequestsJustStart(s2.w, op);
    mid := RunIt(d, s2, 2, {1}, op);
    RefusalReads(s2.w, kind);
    SavingLeaves(s2.w, Begin(s2.w, op, NoFault), RefusedBy(kind), Row(Pending), [], 0);
    ReachOn(d, INITIAL, s1, s2);
    ReachOn(d, INITIAL, s2, mid);
    var s4 := SaveStale(d, mid, 3, 1, Row(Approved), RefusedBy(kind), [], 0);
    sys := RunExecution(d, s4, 3, {}, true, 0);
    ReachOn(d, mid, s4, sys);
  }

  /** A rejection beside an execution that is past its guard. */
  lemma LateExecution(d: Discipline) returns (mid: Sys, sys: Sys)
    requires !Apart(d, Execution, Rejection)
    ensures Reach(d, INITIAL, mid) && Reach(d, mid, sys)
    ensures Stands(mid.w, Refused(Row(Approved), RejectedByUser), [], 0) && SubmissionCount(sys.w.submissions, "i") == 1
  {
    hide Reach, Row, Apart, Begin, Saving, Launched, Finish, ToStart, Decisions.StartExecuting;
    RowId();
    RowFacts();
    var s1 := ApprovedIntent(d);
    var s2 := PassGuard(d, s1, 2, {}, true);
    assert {} + {2} == {2};
    var op := RejectIt(false);
    RequestsJustStart(s2.w, op);
    mid := RunIt(d, s2, 3, {2}, op);
    RejectReads(s2.w, Row(Approved), false);
    SavingLeaves(s2.w, Begin(s2.w, op, NoFault), Refused(Row(Approved), RejectedByUser), Row(Approved), [], 0);
    ReachOn(d, INITIAL, s1, s2);
    ReachOn(d, INITIAL, s2, mid);
    sys := FinishExecution(d, mid, 4, {2}, 2, Refused(Row(Approved), RejectedByUser), [], 0);
  }

  /** A cancellation between the first save of an execution and its submission. */
  lemma LateCancelledExecution(d: Discipline) returns (mid: Sys, sys: Sys)
    requires !Apart(d, Execution, Cancellation)
    ensures Reach(d, INITIAL, mid) && Reach(d, mid, sys)
    ensures Stands(mid.w, Refused(Row(Executing), RejectedByUser), [], 0) && SubmissionCount(sys.w.submissions, "i") == 1
  {
    hide Reach, Row, Apart, Begin, Saving, Finish, ToStart, Decisions.StartExecuting;
    RowId();
    var s1 := CancellationReads(d);
    mid := FinishIt(d, s1, 4, {2, 3}, 3);
    SavingLeaves(s1.w, s1.threads[T(3)].prog, Refused(Row(Executing), RejectedByUser), Row(Executing), [], 0);
    ReachOn(d, INITIAL, s1, mid);
    sys := FinishIt(d, mid, 4, {2, 3} - {3}, 2);
    LoggedLeaves(mid.w, true, Refused(Row(Executing), RejectedByUser), [], 0);
  }

  lemma LateSubmission(d: Discipline) returns (mid: Sys, sys: Sys)
    requires !RejectionStands(d)
    ensures Reach(d, INITIAL, mid) && Reach(d, mid, sys) && !NotSubmittedSince(mid.w, sys.w, "i")
  {
    hide Reach, Apart, Row;
    if !Apart(d, Execution, Rejection) {
      mid, sys := LateExecution(d);
    } else if !Apart(d, Execution, Cancellation) {
      mid, sys := LateCancelledExecution(d);
    } else if !Apart(d, Approval, Approval) {
      mid, sys := LateApproval(d, Approval);
    } else {
      mid, sys := LateApproval(d, if Apart(d, Approval, Rejection) then Cancellation else Rejection);
    }
  }

  // ------------------------------------------------------------- theorem

  /** In every run that keeps the discipline, whatever the split into before and after. */
  ghost predicate KeepsRefusals(d: Discipline) {
    forall a, b, id :: SerialRun(d, a + b) ==> NotSubmittedSince(Run(INITIAL, a).w, Run(INITIAL, a + b).w, id)
  }

  ghost predicate RefusalFailsFaultFree(d: Discipline) {
    exists a, b, id ::
      FaultFree(a + b) && SerialRun(d, a + b) && !NotSubmittedSince(Run(INITIAL, a).w, Run(INITIAL, a + b).w, id)
  }

  /** A rejected intent is never submitted afterwards, under all faults and crashes, exactly when
      approvals are kept apart from each other, from rejections and from cancellations, and executions
      from rejections and cancellations. */
  lemma RejectedNeverSubmittedIff(d: Discipline)
    ensures KeepsRefusals(d) <==> RejectionStands(d)
    ensures !RejectionStands(d) ==> RefusalFailsFaultFree(d)
  {
    hide Run, SerialRun, NotSubmittedSince, RejectionStands;
    if RejectionStands(d) {
      forall a, b, id | SerialRun(d, a + b) ensures NotSubmittedSince(Run(INITIAL, a).w, Run(INITIAL, a + b).w, id) {
        RejectedNeverSubmitted(d, a, b, id);
      }
    } else {
      var mid, sys := LateSubmission(d);
      FailingSplit(d, mid, sys);
    }
  }

  lemma FailingSplit(d: Discipline, mid: Sys, sys: Sys)
    requires Reach(d, INITIAL, mid) && Reach(d, mid, sys) && !NotSubmittedSince(mid.w, sys.w, "i")
    ensures RefusalFailsFaultFree(d) && !KeepsRefusals(d)
  {
    hide Run, SerialFrom, NotSubmittedSince;
    var a :| Leads(d, INITIAL, a, mid);
    var b :| Leads(d, mid, b, sys);
    RunAppend(INITIAL, a, b);
    SerialAppend(d, INITIAL, a, b);
    assert FaultFree(a + b) && SerialRun(d, a + b);
    assert !NotSubmittedSince(Run(INITIAL, a).w, Run(INITIAL, a + b).w, "i");
  }
}
