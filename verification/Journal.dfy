/** Handlers run one after the other: the audit log as a journal of the statuses, and the order in
    which statuses can follow one another. */
module Journal {
  import opened Wrappers
  import opened Domain
  import opened Workflow
  import Decimal
  import PolicyEngine
  import ZkProof

  // ------------------------------------------------------- sequential runs

  /** A reconciliation runs only after the submission that starts it. */
  predicate Enabled(w: World, op: Op) {
    op.Reconcile? ==> Waiting(w.spawned, op.tenant, op.id) > 0
  }

  function RunOps(w: World, ops: seq<Op>, faults: nat -> Fault, k: nat): (World, nat)
    decreases |ops|
  {
    if |ops| == 0 then (w, k)
    else if !Enabled(w, ops[0]) then RunOps(w, ops[1..], faults, k)
    else
      var (w', k') := Atomic(Launched(w, ops[0]), ops[0], faults, k);
      RunOps(w', ops[1..], faults, k')
  }

  // ----------------------------------------------------------------- replay

  function StatusOf(w: World, id: string): Option<Status> {
    if id in w.rows then Some(w.rows[id].status) else None
  }

  /** What one event says about the status of its intent. A policy denial means rejected before
      approval and failed after it; a failure before approval changes nothing. */
  function ReplayStep(s: Option<Status>, e: AuditEvent): Option<Status> {
    match e.action
    case IntentCreated => Some(Pending)
    case IntentApproved => Some(Approved)
    case IntentPolicyDenied => if s == Some(Pending) then Some(Rejected) else Some(Failed)
    case IntentZkDenied => Some(Rejected)
    case IntentExecuting => Some(Executing)
    case IntentSimulated => if e.outcome == Success then s else Some(Failed)
    case IntentSigned => s
    case IntentSubmittedOnChain => Some(Submitted)
    case IntentConfirmed => Some(Confirmed)
    case IntentFailed => if s == Some(Pending) then s else Some(Failed)
    case IntentExpiredEvent => Some(Expired)
    case IntentRejected => Some(Rejected)
  }

  function Replay(log: seq<AuditEvent>, id: string): Option<Status> {
    if |log| == 0 then None
    else
      var s, e := Replay(log[..|log| - 1], id), log[|log| - 1];
      if e.intentId == id then ReplayStep(s, e) else s
  }

  predicate Agrees(w: World, id: string) {
    Replay(w.log, id) == StatusOf(w, id)
  }

  lemma ReplaySnoc(log: seq<AuditEvent>, e: AuditEvent, id: string)
    ensures Replay(log + [e], id) == if e.intentId == id then ReplayStep(Replay(log, id), e) else Replay(log, id)
  {
    assert (log + [e])[..|log|] == log;
  }

  // -------------------------------------------------- programs as journals

  /** Every row and event of the program is about one intent. */
  predicate About(p: Prog, id: string) {
    match p
    case Done => true
    case Insert(row, next) => row.id == id && About(next, id)
    case Save(row, _, next) => row.id == id && About(next, id)
    case Log(e, next) => e.intentId == id && About(next, id)
    case _ => About(p.next, id)
  }

  /** A program is a sequence of stages, each an update and the first event after it, with events
      between stages that say nothing. `seen` are the statuses that replay may be at, `due` the one
      whose event is still to come. */
  predicate Staged(p: Prog, seen: set<Option<Status>>, due: Option<Status>) {
    match p
    case Done => due.None?
    case Insert(row, next) => due.None? && seen == {None} && Staged(next, seen, Some(row.status))
    case FindNonce(_, next) => due.None? && Staged(next, seen, due)
    case NonceGuard(_, next) => due.None? && Staged(next, seen, due)
    case Save(row, _, next) => due.None? && Staged(next, seen, Some(row.status))
    case Log(e, next) =>
      if due.Some? then (forall x :: x in seen ==> ReplayStep(x, e) == due) && Staged(next, seen + {due}, None)
      else (forall x :: x in seen ==> ReplayStep(x, e) == x) && Staged(next, seen, None)
    case _ => Staged(p.next, seen, due)
  }

  /** Every update brings a status that has not been there before. */
  predicate Fresh(p: Prog, seen: set<Option<Status>>) {
    match p
    case Done => true
    case Insert(row, next) => Some(row.status) !in seen && Fresh(next, seen + {Some(row.status)})
    case Save(row, _, next) => Some(row.status) !in seen && Fresh(next, seen + {Some(row.status)})
    case _ => Fresh(p.next, seen)
  }

  predicate Keyed(w: World) {
    forall id :: id in w.rows ==> w.rows[id].id == id
  }

  // ------------------------------------------------------ which faults matter

  /** The update of a stage is carried out. */
  predicate Applied(w: World, p: Prog, fault: Fault) {
    || (p.Save? && !fault.Lost?)
    || (p.Insert? && !fault.Lost? && p.row.id !in w.rows && !NonceTaken(w, p.row.nonce))
  }

  /** The handler gets to its next event, and the event is written. */
  predicate EventKept(w: World, p: Prog, faults: nat -> Fault, k: nat)
    decreases Size(p)
  {
    if p.Done? then false
    else if p.Log? then !faults(k).Lost?
    else EventKept(Effect(w, p, faults(k)), Rest(w, p, faults(k)), faults, k + Accesses(p))
  }

  /** Some stage leaves a trace: its update is carried out or its event is written. */
  predicate Marks(w: World, p: Prog, faults: nat -> Fault, k: nat)
    decreases Size(p)
  {
    if p.Done? then false
    else
      var (w', rest, k') := (Effect(w, p, faults(k)), Rest(w, p, faults(k)), k + Accesses(p));
      || ((p.Save? || p.Insert?) && (Applied(w, p, faults(k)) || EventKept(w', rest, faults, k')))
      || Marks(w', rest, faults, k')
  }

  /** The last stage that leaves a trace leaves both. */
  predicate Balanced(w: World, p: Prog, faults: nat -> Fault, k: nat)
    decreases Size(p)
  {
    if p.Done? then true
    else
      var (w', rest, k') := (Effect(w, p, faults(k)), Rest(w, p, faults(k)), k + Accesses(p));
      if (p.Save? || p.Insert?) && !Marks(w', rest, faults, k') then
        Applied(w, p, faults(k)) <==> EventKept(w', rest, faults, k')
      else Balanced(w', rest, faults, k')
  }

  predicate BalancedAtomic(w: World, op: Op, faults: nat -> Fault, k: nat) {
    Balanced(w, Begin(w, op, faults(k)), faults, if Reads(op) then k + 1 else k)
  }

  /** A rejection of an intent that is rejected already says nothing new. */
  predicate Repeats(w: World, op: Op) {
    op.Reject? && op.id in w.rows && w.rows[op.id].status == Rejected
  }

  // ------------------------------------------------------- one program

  lemma StepElsewhere(w: World, p: Prog, fault: Fault, id: string, other: string)
    requires About(p, id) && other != id
    ensures var w' := Effect(w, p, fault);
            StatusOf(w', other) == StatusOf(w, other) && Replay(w'.log, other) == Replay(w.log, other)
    ensures About(Rest(w, p, fault), id)
  {
    if p.Log? {
      ReplaySnoc(w.log, p.event, other);
    }
  }

  lemma {:induction false} FinishElsewhere(w: World, p: Prog, faults: nat -> Fault, k: nat, id: string, other: string)
    requires About(p, id) && other != id
    ensures var w' := Finish(w, p, faults, k).0;
            StatusOf(w', other) == StatusOf(w, other) && Replay(w'.log, other) == Replay(w.log, other)
    decreases Size(p)
  {
    hide Effect, StatusOf, Replay, About;
    if p.Done? {
    } else {
      StepElsewhere(w, p, faults(k), id, other);
      FinishElsewhere(Effect(w, p, faults(k)), Rest(w, p, faults(k)), faults, k + Accesses(p), id, other);
    }
  }

  lemma StepKeyed(w: World, p: Prog, fault: Fault)
    requires Keyed(w)
    ensures Keyed(Effect(w, p, fault))
  {
  }

  lemma {:induction false} FinishKeyed(w: World, p: Prog, faults: nat -> Fault, k: nat)
    requires Keyed(w)
    ensures Keyed(Finish(w, p, faults, k).0)
    decreases Size(p)
  {
    hide Effect, Keyed;
    if p.Done? {
    } else {
      StepKeyed(w, p, faults(k));
      FinishKeyed(Effect(w, p, faults(k)), Rest(w, p, faults(k)), faults, k + Accesses(p));
    }
  }

  function DueSet(due: Option<Status>): set<Option<Status>> {
    if due.Some? then {due} else {}
  }

  /** The row and the log of the intent are where the program expects them. */
  predicate Expected(w: World, p: Prog, id: string, seen: set<Option<Status>>, due: Option<Status>) {
    && About(p, id) && Staged(p, seen, due) && Fresh(p, seen + DueSet(due))
    && StatusOf(w, id) in seen + DueSet(due) && Replay(w.log, id) in seen
  }

  function SeenAfter(p: Prog, fault: Fault, seen: set<Option<Status>>, due: Option<Status>): set<Option<Status>> {
    if p.Log? && due.Some? then seen + {due} else seen
  }

  function DueAfter(p: Prog, rest: Prog, due: Option<Status>): Option<Status> {
    if p.Log? || rest.Done? then None else if p.Save? || p.Insert? then Some(p.row.status) else due
  }

  /** One access moves the row as applied, the log as kept, and expectations along. */
  lemma StepExpected(w: World, p: Prog, fault: Fault, id: string, seen: set<Option<Status>>, due: Option<Status>)
    requires Expected(w, p, id, seen, due) && !p.Done? && !Rest(w, p, fault).Done?
    ensures var w', rest := Effect(w, p, fault), Rest(w, p, fault);
            Expected(w', rest, id, SeenAfter(p, fault, seen, due), DueAfter(p, rest, due))
  {
    if p.Log? {
      ReplaySnoc(w.log, p.event, id);
      assert seen + DueSet(due) == SeenAfter(p, fault, seen, due);
      assert seen + {due} + {} == seen + {due};
    } else if p.Save? || p.Insert? {
      assert seen + {} == seen;
    }
    assert SeenAfter(p, fault, seen, due) + {} == SeenAfter(p, fault, seen, due);
  }

  lemma StepMoves(w: World, p: Prog, fault: Fault, id: string, seen: set<Option<Status>>, due: Option<Status>)
    requires Expected(w, p, id, seen, due) && !p.Done?
    ensures var w' := Effect(w, p, fault);
            && StatusOf(w', id) == (if Applied(w, p, fault) then Some(p.row.status) else StatusOf(w, id))
            && Replay(w'.log, id) == (if p.Log? && !fault.Lost? && due.Some? then due else Replay(w.log, id))
  {
    if p.Log? {
      ReplaySnoc(w.log, p.event, id);
    }
  }

  lemma StageUnfolds(w: World, p: Prog, faults: nat -> Fault, k: nat)
    requires !p.Done?
    ensures var (w', rest, k') := (Effect(w, p, faults(k)), Rest(w, p, faults(k)), k + Accesses(p));
            var update, applied, kept := p.Save? || p.Insert?, Applied(w, p, faults(k)), EventKept(w', rest, faults, k');
            && Marks(w, p, faults, k) == ((update && (applied || kept)) || Marks(w', rest, faults, k'))
            && Balanced(w, p, faults, k)
               == (if update && !Marks(w', rest, faults, k') then applied == kept else Balanced(w', rest, faults, k'))
            && EventKept(w, p, faults, k) == (if p.Log? then !faults(k).Lost? else kept)
  {
    hide Effect, Rest, Applied, Marks, Balanced, EventKept;
    EventUnfolds(w, p, faults, k);
    MarksUnfolds(w, p, faults, k);
    BalanceUnfolds(w, p, faults, k);
  }

  lemma EventUnfolds(w: World, p: Prog, faults: nat -> Fault, k: nat)
    requires !p.Done?
    ensures EventKept(w, p, faults, k)
         == if p.Log? then !faults(k).Lost?
            else EventKept(Effect(w, p, faults(k)), Rest(w, p, faults(k)), faults, k + Accesses(p))
  {
    hide Effect, Rest;
  }

  lemma MarksUnfolds(w: World, p: Prog, faults: nat -> Fault, k: nat)
    requires !p.Done?
    ensures var (w', rest, k') := (Effect(w, p, faults(k)), Rest(w, p, faults(k)), k + Accesses(p));
            Marks(w, p, faults, k) ==
              (((p.Save? || p.Insert?) && (Applied(w, p, faults(k)) || EventKept(w', rest, faults, k')))
               || Marks(w', rest, faults, k'))
  {
    hide Effect, Rest, Applied, EventKept;
  }

  lemma BalanceUnfolds(w: World, p: Prog, faults: nat -> Fault, k: nat)
    requires !p.Done?
    ensures var (w', rest, k') := (Effect(w, p, faults(k)), Rest(w, p, faults(k)), k + Accesses(p));
            Balanced(w, p, faults, k) ==
              (if (p.Save? || p.Insert?) && !Marks(w', rest, faults, k')
               then Applied(w, p, faults(k)) <==> EventKept(w', rest, faults, k')
               else Balanced(w', rest, faults, k'))
  {
    hide Effect, Rest, Applied, EventKept, Marks;
  }

  lemma NothingLeft(w: World, faults: nat -> Fault, k: nat)
    ensures !Marks(w, Done, faults, k) && !EventKept(w, Done, faults, k) && Balanced(w, Done, faults, k)
    ensures Finish(w, Done, faults, k) == (w, k)
  {
  }

  /** What a run of a program does to one intent. */
  predicate Ends(w: World, w1: World, id: string, marks: bool, balanced: bool, due: Option<Status>, kept: bool) {
    if marks then Agrees(w1, id) <==> balanced
    else
      && balanced && StatusOf(w1, id) == StatusOf(w, id)
      && Replay(w1.log, id) == (if due.Some? && kept then due else Replay(w.log, id))
  }

  /** What the faults do to a staged program: without a trace row and replay stay, up to an event
      still due; with a trace they agree in the end exactly when the last stage is balanced. */
  lemma {:induction false} FinishBalanced(w: World, p: Prog, faults: nat -> Fault, k: nat, id: string,
                                          seen: set<Option<Status>>, due: Option<Status>)
    requires Expected(w, p, id, seen, due)
    ensures Ends(w, Finish(w, p, faults, k).0, id, Marks(w, p, faults, k), Balanced(w, p, faults, k), due,
                 EventKept(w, p, faults, k))
    decreases Size(p)
  {
    hide Finish, Marks, Balanced, EventKept, Expected, Effect, SeenAfter, DueAfter;
    if p.Done? {
      NothingLeft(w, faults, k);
      NothingDue(w, p, id, seen, due);
    } else {
      var (w', rest, k') := (Effect(w, p, faults(k)), Rest(w, p, faults(k)), k + Accesses(p));
      FinishStep(w, p, faults, k);
      if rest.Done? {
        NothingLeft(w', faults, k');
      } else {
        StepExpected(w, p, faults(k), id, seen, due);
        FinishBalanced(w', rest, faults, k', id, SeenAfter(p, faults(k), seen, due), DueAfter(p, rest, due));
      }
      StepEnds(w, p, faults, k, id, seen, due);
    }
  }

  lemma NothingDue(w: World, p: Prog, id: string, seen: set<Option<Status>>, due: Option<Status>)
    requires Expected(w, p, id, seen, due) && p.Done?
    ensures due.None?
  {
  }

  lemma StepEnds(w: World, p: Prog, faults: nat -> Fault, k: nat, id: string, seen: set<Option<Status>>, due: Option<Status>)
    requires Expected(w, p, id, seen, due) && !p.Done?
    requires var (w', rest, k') := (Effect(w, p, faults(k)), Rest(w, p, faults(k)), k + Accesses(p));
             if rest.Done? then
               && Finish(w', rest, faults, k').0 == w' && !Marks(w', rest, faults, k') && !EventKept(w', rest, faults, k')
               && Balanced(w', rest, faults, k')
             else Ends(w', Finish(w', rest, faults, k').0, id, Marks(w', rest, faults, k'), Balanced(w', rest, faults, k'),
                       DueAfter(p, rest, due), EventKept(w', rest, faults, k'))
    ensures Ends(w, Finish(w, p, faults, k).0, id, Marks(w, p, faults, k), Balanced(w, p, faults, k), due,
                 EventKept(w, p, faults, k))
  {
    hide Finish, Marks, Balanced, EventKept, Expected, Effect, Rest, StatusOf, Replay, Applied;
    FinishStep(w, p, faults, k);
    StageUnfolds(w, p, faults, k);
    StepMoves(w, p, faults(k), id, seen, due);
    FreshHere(w, p, id, seen, due);
    OnlyUpdatesApply(w, p, faults(k));
    if Rest(w, p, faults(k)).Done? {
      LastAccess(w, p, faults(k), id, seen, due);
    }
  }

  lemma FreshHere(w: World, p: Prog, id: string, seen: set<Option<Status>>, due: Option<Status>)
    requires Expected(w, p, id, seen, due)
    ensures p.Save? || p.Insert? ==> Some(p.row.status) !in seen && due.None? && StatusOf(w, id) in seen
    ensures Replay(w.log, id) in seen
  {
    assert due.None? ==> seen + DueSet(due) == seen;
  }

  lemma OnlyUpdatesApply(w: World, p: Prog, fault: Fault)
    ensures Applied(w, p, fault) ==> p.Save? || p.Insert?
  {
  }

  /** No event is still due where a handler ends. */
  lemma LastAccess(w: World, p: Prog, fault: Fault, id: string, seen: set<Option<Status>>, due: Option<Status>)
    requires Expected(w, p, id, seen, due) && !p.Done? && Rest(w, p, fault).Done?
    ensures p.Log? || due.None?
  {
    if p.Submit? || p.InsertTx? || p.Spawn? || p.FindTx? || p.ConfirmTx? {
      assert Staged(p.next, seen, due);
    }
  }

  // ------------------------------------------------------- each operation

  /** The stages of a handler that has found an intent at one status. */
  predicate Begins(p: Prog, id: string, s: Option<Status>) {
    About(p, id) && Staged(p, {s}, None)
  }

  lemma LogStaged(e: AuditEvent, next: Prog, id: string, seen: set<Option<Status>>)
    requires e.intentId == id
    ensures About(Done, id) && Staged(Done, seen, None) && Fresh(Done, seen)
    ensures About(Log(e, next), id) == About(next, id)
    ensures Fresh(Log(e, next), seen) == Fresh(next, seen)
    ensures (forall x :: x in seen ==> ReplayStep(x, e) == x) && Staged(next, seen, None) ==>
      Staged(Log(e, next), seen, None)
  {
  }

  lemma EventStaged(e: AuditEvent, next: Prog, seen: set<Option<Status>>, due: Option<Status>)
    requires due.Some? && forall x :: x in seen ==> ReplayStep(x, e) == due
    ensures Staged(next, seen + {due}, None) ==> Staged(Log(e, next), seen, due)
  {
  }

  lemma SaveAndLogStaged(row: Intent, checked: bool, e: AuditEvent, seen: set<Option<Status>>)
    requires e.intentId == row.id && forall x :: x in seen ==> ReplayStep(x, e) == Some(row.status)
    ensures var p := Save(row, checked, Log(e, Done));
            About(p, row.id) && Staged(p, seen, None) && (Some(row.status) !in seen ==> Fresh(p, seen))
  {
    LogStaged(e, Done, row.id, seen + {Some(row.status)});
    EventStaged(e, Done, seen, Some(row.status));
  }

  predicate StagedAfresh(p: Prog, id: string, seen: set<Option<Status>>) {
    About(p, id) && Staged(p, seen, None) && Fresh(p, seen)
  }

  lemma ApproveStaged(op: Op, row: Intent)
    requires op.Approve? && row.id == op.id
    ensures StagedAfresh(ApproveBody(op, row), op.id, {Some(row.status)})
  {
    hide PolicyEngine.Allows, PolicyEngine.Lookup, ZkProof.CanGenerate, ProofVerifies, About, Staged, Fresh;
    var seen := {Some(row.status)};
    LogStaged(Entry(op, op.actor, IntentFailed, Failure), Done, op.id, seen);
    if row.status == Pending {
      SaveAndLogStaged(Refused(row, PolicyDenied), false, Entry(op, op.actor, IntentPolicyDenied, Denied), seen);
      SaveAndLogStaged(Refused(row, PolicyDenied), false, Entry(op, op.actor, IntentZkDenied, Denied), seen);
      SaveAndLogStaged(row.(status := Approved, approvedAt := Some(op.now)), true,
                       Entry(op, op.actor, IntentApproved, Success), seen);
    }
  }

  const STARTED: set<Option<Status>> := {Some(Approved), Some(Executing)}

  lemma FailAsStaged(op: Op, row: Intent, reason: Reason, action: Action, outcome: Outcome)
    requires row.id == Target(op)
    requires action in {IntentFailed, IntentPolicyDenied} || (action == IntentSimulated && outcome != Success)
    ensures StagedAfresh(FailAs(op, row, reason, action, outcome), Target(op), STARTED)
  {
    SaveAndLogStaged(FailedRow(row, reason), false, Entry(op, "system", action, outcome), STARTED);
  }

  lemma SubmitStaged(op: Op, row: Intent)
    requires op.Execute? && row.id == op.id
    ensures StagedAfresh(SubmitBody(op, row), op.id, STARTED)
  {
    FailAsStaged(op, row, SubmissionFailed, IntentFailed, Failure);
    if op.submit.Ok? && op.submit.value.success {
      var p := SubmitBody(op, row);
      var save := p.next;
      var insert := save.next;
      var log := insert.next;
      var seen := STARTED + {Some(Submitted)};
      assert About(log.next, op.id) && Staged(log.next, seen, None) && Fresh(log.next, seen);
      EventStaged(log.event, log.next, STARTED, Some(Submitted));
      LogStaged(log.event, log.next, op.id, seen);
      assert About(insert, op.id) && Staged(insert, STARTED, Some(Submitted)) && Fresh(insert, seen);
      assert About(save, op.id) && Staged(save, STARTED, None) && Fresh(save, STARTED);
    }
  }

  lemma LogStagedAfresh(e: AuditEvent, next: Prog, id: string, seen: set<Option<Status>>)
    requires e.intentId == id && StagedAfresh(next, id, seen) && forall x :: x in seen ==> ReplayStep(x, e) == x
    ensures StagedAfresh(Log(e, next), id, seen)
  {
    LogStaged(e, next, id, seen);
  }

  lemma ExecutingStaged(op: Op, row: Intent)
    requires op.Execute? && row.id == op.id
    ensures StagedAfresh(ExecutingBody(op, row), op.id, STARTED)
  {
    hide FailAs, SubmitBody, PolicyEngine.Allows, Decimal.ParseInt64, StagedAfresh;
    FailAsStaged(op, row, SimulationFailed, IntentFailed, Failure);
    FailAsStaged(op, row, SimulationFailed, IntentSimulated, SimulationDenied);
    FailAsStaged(op, row, PolicyDenied, IntentPolicyDenied, Denied);
    FailAsStaged(op, row, SigningFailed, IntentFailed, Failure);
    SubmitStaged(op, row);
    var simulated, signed := Entry(op, "system", IntentSimulated, Success), Entry(op, "system", IntentSigned, Success);
    LogStagedAfresh(signed, SubmitBody(op, row), op.id, STARTED);
    LogStagedAfresh(simulated, Log(signed, SubmitBody(op, row)), op.id, STARTED);
    LogStagedAfresh(simulated, FailAs(op, row, PolicyDenied, IntentPolicyDenied, Denied), op.id, STARTED);
    LogStagedAfresh(simulated, FailAs(op, row, SigningFailed, IntentFailed, Failure), op.id, STARTED);
  }

  lemma ExecuteStaged(op: Op, row: Intent)
    requires op.Execute? && row.id == op.id
    ensures StagedAfresh(ExecuteBody(op, row), op.id, {Some(row.status)})
  {
    hide ExecutingBody;
    if row.status == Approved {
      var seen: set<Option<Status>> := {Some(Approved)};
      var executing, event := row.(status := Executing), Entry(op, "user", IntentExecuting, Success);
      var body := ExecutingBody(op, executing);
      ExecutingStaged(op, executing);
      assert seen + {Some(Executing)} == STARTED;
      EventStaged(event, body, seen, Some(Executing));
      LogStaged(event, body, op.id, STARTED);
      var p := Save(executing, true, Log(event, body));
      assert About(p, op.id) && Staged(p, seen, None) && Fresh(p, seen);
      SaveAndLogStaged(row.(status := Expired, failureReason := Some(IntentExpired)), false,
                       Entry(op, "system", IntentExpiredEvent, Success), seen);
    }
  }

  lemma RejectStaged(op: Op, row: Intent)
    requires (op.Reject? || op.Cancel?) && row.id == op.id
    ensures Begins(RejectBody(op, row), op.id, Some(row.status))
    ensures row.status != Rejected ==> StagedAfresh(RejectBody(op, row), op.id, {Some(row.status)})
  {
    SaveAndLogStaged(Refused(row, RejectedByUser), true, Entry(op, op.actor, IntentRejected, Success),
                     {Some(row.status)});
  }

  lemma ReconcileStaged(op: Op, row: Intent)
    requires op.Reconcile? && row.id == op.id
    ensures StagedAfresh(ReconcileBody(op, row), op.id, {Some(row.status)})
  {
    if row.status == Submitted {
      var seen: set<Option<Status>> := {Some(Submitted)};
      SaveAndLogStaged(FailedRow(row, if row.txSignature == "" then Reconciliation else ConfirmationTimeout), true,
        AuditEvent(row.tenantId, "system", IntentFailed, row.id, op.requestId, Failure), seen);
      var p := ConfirmBody(op, row);
      var log := p.next.next;
      LogStaged(log.event, Done, op.id, seen + {Some(Confirmed)});
      EventStaged(log.event, Done, seen, Some(Confirmed));
      assert About(p.next, op.id) && Staged(p.next, seen, Some(Confirmed)) && Fresh(p.next, seen + {Some(Confirmed)});
      assert About(p, op.id) && Staged(p, seen, None) && Fresh(p, seen);
    }
  }

  lemma BodyStaged(op: Op, row: Intent)
    requires !op.Create? && row.id == op.id
    ensures Begins(Body(op, row), op.id, Some(row.status))
    ensures !(op.Reject? && row.status == Rejected) ==> StagedAfresh(Body(op, row), op.id, {Some(row.status)})
  {
    hide ApproveBody, ExecuteBody, RejectBody, ReconcileBody;
    LogStaged(Entry(op, "", IntentSigned, Success), Done, op.id, {Some(row.status)});
    match op {
      case Approve(_, _, _, _, _, _, _) => ApproveStaged(op, row);
      case Execute(_, _, _, _, _, _, _, _, _, _) => ExecuteStaged(op, row);
      case Reject(_, _, _, _) => RejectStaged(op, row);
      case Cancel(_, _, _, _) => RejectStaged(op, row);
      case Reconcile(_, _, _, _, _, _, _) => ReconcileStaged(op, row);
    }
  }

  lemma CreateStaged(op: Op)
    requires op.Create?
    ensures StagedAfresh(CreateBody(op), op.newId, {None})
  {
    var event, seen := Entry(op, op.creator, IntentCreated, Success), {None};
    LogStaged(event, Done, op.newId, seen + {Some(Pending)});
    EventStaged(event, Done, seen, Some(Pending));
    var p := CreateBody(op);
    assert About(p, op.newId) && Staged(p, seen, None) && Fresh(p, seen);
  }

  lemma BeginAbout(w: World, op: Op, fault: Fault)
    requires Keyed(w)
    ensures About(Begin(w, op, fault), Target(op))
  {
    hide Acceptable, Body, CreateBody;
    if op.Create? {
      CreateStaged(op);
    } else if op.id in w.rows {
      BodyStaged(op, w.rows[op.id]);
    }
  }

  /** The program of an operation that does not repeat a rejection or try an id again. */
  lemma BeginExpected(w: World, op: Op, fault: Fault)
    requires Keyed(w) && Agrees(w, Target(op)) && !Repeats(w, op) && (op.Create? ==> op.newId !in w.rows)
    ensures Expected(w, Begin(w, op, fault), Target(op), {StatusOf(w, Target(op))}, None)
  {
    hide Acceptable, Body, CreateBody, Duplicate;
    var s := StatusOf(w, Target(op));
    assert {s} + DueSet(None) == {s};
    LogStaged(AuditEvent("", "", IntentSigned, Target(op), "", Success), Done, Target(op), {s});
    if op.Create? {
      CreateStaged(op);
    } else if op.id in w.rows {
      BodyStaged(op, w.rows[op.id]);
    }
  }

  // ------------------------------------------------------- the exact condition

  /** When an intent's journal survives a handler, whatever faults the handler meets: exactly when
      the last of its stages that leaves a trace, its update carried out or its event written, leaves
      both. So a lost event is harmless if its update is lost too or a later stage is complete, a lost
      update is not if the handler goes on to write its event, and an update that is carried out
      although it reports a failure parts the journal from the row. */
  lemma JournalSurvivesIff(w: World, op: Op, faults: nat -> Fault, k: nat)
    requires Keyed(w) && Agrees(w, Target(op))
    ensures Agrees(Atomic(w, op, faults, k).0, Target(op)) <==> Repeats(w, op) || BalancedAtomic(w, op, faults, k)
  {
    hide Finish, Balanced, Begin, Agrees, Expected, Marks;
    var k' := if Reads(op) then k + 1 else k;
    var p := Begin(w, op, faults(k));
    if Repeats(w, op) {
      RepeatAgrees(w, op, faults, k);
    } else if op.Create? && op.newId in w.rows {
      RetryAgrees(w, op, faults, k);
    } else {
      BeginExpected(w, op, faults(k));
      FinishBalanced(w, p, faults, k', Target(op), {StatusOf(w, Target(op))}, None);
      if !Marks(w, p, faults, k') {
        AgreesAgain(w, Finish(w, p, faults, k').0, Target(op));
      }
    }
  }

  lemma AgreesAgain(w: World, w': World, id: string)
    requires Agrees(w, id) && StatusOf(w', id) == StatusOf(w, id) && Replay(w'.log, id) == Replay(w.log, id)
    ensures Agrees(w', id)
  {
  }

  lemma RepeatAgrees(w: World, op: Op, faults: nat -> Fault, k: nat)
    requires Keyed(w) && Repeats(w, op) && Agrees(w, op.id)
    ensures Agrees(Atomic(w, op, faults, k).0, op.id)
  {
    hide Finish, Replay, Agrees;
    FinishDone(w, faults, k + 1);
    var p := Begin(w, op, faults(k));
    if !p.Done? {
      var w1 := Effect(w, p, faults(k + 1));
      AgreesHere(w, w1, op.id);
      FinishStep(w, p, faults, k + 1);
      FinishDone(w1, faults, k + 2);
      var w2 := Effect(w1, p.next, faults(k + 2));
      FinishStep(w1, p.next, faults, k + 2);
      FinishDone(w2, faults, k + 3);
      ReplaySnoc(w1.log, p.next.event, op.id);
      AgreesHere(w, w2, op.id);
    }
  }

  lemma AgreesHere(w: World, w': World, id: string)
    requires Agrees(w, id) && StatusOf(w, id) == StatusOf(w', id)
    ensures Replay(w'.log, id) == Replay(w.log, id) ==> Agrees(w', id)
    ensures StatusOf(w', id) == Replay(w'.log, id) ==> Agrees(w', id)
    ensures Replay(w.log, id) == StatusOf(w, id)
  {
  }

  /** Inserting an id again changes nothing. */
  lemma RetryAgrees(w: World, op: Op, faults: nat -> Fault, k: nat)
    requires Agrees(w, Target(op)) && op.Create? && op.newId in w.rows
    ensures Agrees(Atomic(w, op, faults, k).0, Target(op)) && BalancedAtomic(w, op, faults, k)
  {
    hide Agrees, Acceptable, Duplicate;
    var k' := if Reads(op) then k + 1 else k;
    var p := Begin(w, op, faults(k));
    FinishDone(w, faults, k');
    if !p.Done? {
      FinishStep(w, p, faults, k');
      FinishDone(w, faults, k' + 1);
      assert Rest(w, p, faults(k')).Done?;
    }
  }

  // -------------------------------------------------------------- two cases

  /** After a denied approval row and log agree exactly when the update, whose error is ignored, and
      the event are both lost or both not. */
  lemma DeniedApprovalJournalIff(w: World, op: Op, faults: nat -> Fault, k: nat)
    requires Keyed(w) && op.Approve? && Agrees(w, op.id) && op.id in w.rows
    requires w.rows[op.id].tenantId == op.tenant && w.rows[op.id].status == Pending
    requires PolicyEngine.Lookup(op.policy, w.rows[op.id]).Ok? && !PolicyEngine.Allows(op.policy, w.rows[op.id])
    requires faults(k).NoFault?
    ensures Agrees(Atomic(w, op, faults, k).0, op.id) <==> (faults(k + 1).Lost? <==> faults(k + 2).Lost?)
  {
    hide PolicyEngine.Allows, PolicyEngine.Lookup, Agrees, Keyed, Finish;
    var row := w.rows[op.id];
    var p := Begin(w, op, faults(k));
    var last := Log(Entry(op, op.actor, IntentPolicyDenied, Denied), Done);
    assert p == Save(Refused(row, PolicyDenied), false, last);
    JournalSurvivesIff(w, op, faults, k);
    StageBalanced(w, p, faults, k + 1);
  }

  lemma StageBalanced(w: World, p: Prog, faults: nat -> Fault, k: nat)
    requires p.Save? && !p.checked && p.next.Log? && p.next.next.Done?
    ensures Balanced(w, p, faults, k) <==> (faults(k).Lost? <==> faults(k + 1).Lost?)
  {
    var w' := Effect(w, p, faults(k));
    assert !Marks(Effect(w', p.next, faults(k + 1)), Done, faults, k + 2);
    assert !Marks(w', p.next, faults, k + 1);
  }

  /** A creation parts row and log when its event alone is lost, and when its insertion is carried out
      although it reports a failure. */
  lemma CreationJournalIff(w: World, op: Op, faults: nat -> Fault, k: nat)
    requires Keyed(w) && op.Create? && Agrees(w, op.newId) && Acceptable(op) && !op.idempotent
    requires op.newId !in w.rows && !NonceTaken(w, op.newNonce)
    ensures Agrees(Atomic(w, op, faults, k).0, op.newId) <==>
      faults(k).Lost? || (faults(k).NoFault? && !faults(k + 1).Lost?)
  {
    hide Acceptable, Agrees, Keyed, Finish;
    JournalSurvivesIff(w, op, faults, k);
    var p := CreateBody(op);
    var w' := Effect(w, p, faults(k));
    var rest := Rest(w, p, faults(k));
    assert !Marks(w', Done, faults, k + 1);
    if rest.Log? {
      assert !Marks(Effect(w', rest, faults(k + 1)), Done, faults, k + 2);
      assert !Marks(w', rest, faults, k + 1);
    }
  }

  /** The very first intent, its event the only access that fails: row and log disagree. */
  lemma OneLostEventParts(op: Op, faults: nat -> Fault)
    requires op.Create? && Acceptable(op) && !op.idempotent
    requires faults(1).Lost? && forall j: nat :: j != 1 ==> faults(j).NoFault?
    ensures Agrees(EMPTY, op.newId) && !Agrees(RunOps(EMPTY, [op], faults, 0).0, op.newId)
  {
    hide Acceptable, Atomic;
    CreationJournalIff(EMPTY, op, faults, 0);
    assert [op][1..] == [];
  }

  // -------------------------------------------------------------- theorems

  /** Every handler of the run leaves its intent's journal balanced. */
  predicate BalancedRun(w: World, ops: seq<Op>, faults: nat -> Fault, k: nat)
    decreases |ops|
  {
    |ops| == 0 ||
    (if !Enabled(w, ops[0]) then BalancedRun(w, ops[1..], faults, k)
     else
       && (Repeats(w, ops[0]) || BalancedAtomic(Launched(w, ops[0]), ops[0], faults, k))
       && var (w', k') := Atomic(Launched(w, ops[0]), ops[0], faults, k);
          BalancedRun(w', ops[1..], faults, k'))
  }

  lemma LaunchedAgrees(w: World, op: Op, id: string)
    ensures Keyed(w) ==> Keyed(Launched(w, op))
    ensures Agrees(w, id) ==> Agrees(Launched(w, op), id)
    ensures Repeats(Launched(w, op), op) == Repeats(w, op)
    ensures id in w.rows ==> id in Launched(w, op).rows && Launched(w, op).rows[id] == w.rows[id]
  {
  }

  lemma AtomicElsewhere(w: World, op: Op, faults: nat -> Fault, k: nat, id: string)
    requires Keyed(w)
    ensures Keyed(Atomic(w, op, faults, k).0)
    ensures id != Target(op) && Agrees(w, id) ==> Agrees(Atomic(w, op, faults, k).0, id)
  {
    hide Finish, Begin, Keyed;
    var p := Begin(w, op, faults(k));
    var k' := if Reads(op) then k + 1 else k;
    BeginAbout(w, op, faults(k));
    FinishKeyed(w, p, faults, k');
    if id != Target(op) {
      FinishElsewhere(w, p, faults, k', Target(op), id);
    }
  }

  lemma {:induction false} RunJournals(w: World, ops: seq<Op>, faults: nat -> Fault, k: nat)
    requires Keyed(w) && (forall id :: Agrees(w, id)) && BalancedRun(w, ops, faults, k)
    ensures forall id :: Agrees(RunOps(w, ops, faults, k).0, id)
    decreases |ops|
  {
    hide Atomic, Agrees, Keyed, BalancedAtomic, Repeats, Launched;
    if |ops| == 0 {
    } else if !Enabled(w, ops[0]) {
      RunJournals(w, ops[1..], faults, k);
    } else {
      var w1 := Launched(w, ops[0]);
      var (w', k') := Atomic(w1, ops[0], faults, k);
      LaunchedAgrees(w, ops[0], Target(ops[0]));
      JournalSurvivesIff(w1, ops[0], faults, k);
      forall id ensures Keyed(w') && Agrees(w', id) {
        LaunchedAgrees(w, ops[0], id);
        AtomicElsewhere(w1, ops[0], faults, k, id);
      }
      AtomicElsewhere(w1, ops[0], faults, k, "");
      RunJournals(w', ops[1..], faults, k');
    }
  }

  /** Replaying an intent's audit events gives exactly its stored status, after every sequence of
      handlers each of which meets only faults that leave its intent's journal balanced. */
  lemma AuditLogIsAJournal(ops: seq<Op>, faults: nat -> Fault, id: string)
    requires BalancedRun(EMPTY, ops, faults, 0)
    ensures var w := RunOps(EMPTY, ops, faults, 0).0;
            Replay(w.log, id) == StatusOf(w, id)
  {
    RunJournals(EMPTY, ops, faults, 0);
    assert Agrees(RunOps(EMPTY, ops, faults, 0).0, id);
  }

  ghost predicate NeverFails(faults: nat -> Fault) {
    forall k: nat :: faults(k).NoFault?
  }

  lemma {:induction false} NoFaultsBalanced(w: World, p: Prog, faults: nat -> Fault, k: nat, seen: set<Option<Status>>,
                                            due: Option<Status>)
    requires NeverFails(faults) && Staged(p, seen, due)
    ensures Balanced(w, p, faults, k) && (due.Some? ==> EventKept(w, p, faults, k))
    decreases Size(p)
  {
    hide Effect, Staged, Marks, Balanced, EventKept;
    if p.Done? {
      NothingLeft(w, faults, k);
      NoStageDue(p, seen, due);
    } else {
      var (w', rest, k') := (Effect(w, p, faults(k)), Rest(w, p, faults(k)), k + Accesses(p));
      GoesOn(w, p, faults(k), seen, due);
      StageUnfolds(w, p, faults, k);
      if rest.Done? {
        NothingLeft(w', faults, k');
      } else {
        NoFaultsBalanced(w', rest, faults, k', SeenAfter(p, faults(k), seen, due), DueAfter(p, rest, due));
      }
    }
  }

  lemma NoStageDue(p: Prog, seen: set<Option<Status>>, due: Option<Status>)
    requires p.Done? && Staged(p, seen, due)
    ensures due.None?
  {
  }

  /** Where a fault-free handler goes on, its stages do. */
  lemma GoesOn(w: World, p: Prog, fault: Fault, seen: set<Option<Status>>, due: Option<Status>)
    requires Staged(p, seen, due) && !p.Done? && fault.NoFault?
    ensures var rest := Rest(w, p, fault);
            if rest.Done? then (p.Log? || due.None?) && (p.Insert? || p.Save? ==> !Applied(w, p, fault))
            else Staged(rest, SeenAfter(p, fault, seen, due), DueAfter(p, rest, due))
  {
  }

  lemma {:induction false} NoFaultsRunBalanced(w: World, ops: seq<Op>, faults: nat -> Fault, k: nat)
    requires NeverFails(faults) && Keyed(w)
    ensures BalancedRun(w, ops, faults, k)
    decreases |ops|
  {
    hide Atomic, Keyed, Begin, Staged, Balanced;
    if |ops| == 0 {
    } else if !Enabled(w, ops[0]) {
      NoFaultsRunBalanced(w, ops[1..], faults, k);
    } else {
      var op := ops[0];
      var w1 := Launched(w, op);
      LaunchedAgrees(w, op, "");
      var seen := BeginStaged(w1, op, faults(k));
      NoFaultsBalanced(w1, Begin(w1, op, faults(k)), faults, if Reads(op) then k + 1 else k, seen, None);
      var (w', k') := Atomic(w1, op, faults, k);
      AtomicElsewhere(w1, op, faults, k, "");
      NoFaultsRunBalanced(w', ops[1..], faults, k');
    }
  }

  lemma BeginStaged(w: World, op: Op, fault: Fault) returns (seen: set<Option<Status>>)
    requires Keyed(w)
    ensures Staged(Begin(w, op, fault), seen, None)
  {
    hide Acceptable, Body, CreateBody, Duplicate;
    seen := {};
    LogStaged(AuditEvent("", "", IntentSigned, "", "", Success), Done, "", seen);
    if op.Create? {
      if Begin(w, op, fault).Insert? {
        CreateStaged(op);
        seen := {None};
      } else {
        assert Begin(w, op, fault).Done? by { CreateFirst(w, op, fault); }
      }
    } else if op.id in w.rows && fault.NoFault? {
      BodyStaged(op, w.rows[op.id]);
      seen := {Some(w.rows[op.id].status)};
    }
  }

  lemma CreateFirst(w: World, op: Op, fault: Fault)
    requires op.Create?
    ensures Begin(w, op, fault).Done? || Begin(w, op, fault).Insert?
  {
  }

  /** In particular when no database access ever fails. */
  lemma FaultFreeLogIsAJournal(ops: seq<Op>, faults: nat -> Fault, id: string)
    requires NeverFails(faults)
    ensures var w := RunOps(EMPTY, ops, faults, 0).0;
            Replay(w.log, id) == StatusOf(w, id)
  {
    NoFaultsRunBalanced(EMPTY, ops, faults, 0);
    AuditLogIsAJournal(ops, faults, id);
  }

  // ------------------------------------------------------- order of statuses

  function Rank(s: Status): nat {
    match s
    case Pending => 0
    case Approved => 1
    case Executing => 2
    case Submitted => 3
    case Confirmed => 4
    case Failed => 4
    case Expired => 4
    case Rejected => 5
  }

  predicate Advances(a: Status, b: Status) {
    a == b || Rank(a) < Rank(b)
  }

  /** Every update of the program moves on from the status before it, applied or not. */
  predicate Climbs(p: Prog, s: Status) {
    match p
    case Done => true
    case Insert(row, next) => Climbs(next, s)
    case Save(row, _, next) => Advances(s, row.status) && Climbs(next, row.status) && Climbs(next, s)
    case _ => Climbs(p.next, s)
  }

  lemma {:induction false} FinishClimbs(w: World, p: Prog, faults: nat -> Fault, k: nat, id: string)
    requires id in w.rows && About(p, id) && Climbs(p, w.rows[id].status)
    ensures var w' := Finish(w, p, faults, k).0;
            id in w'.rows && Advances(w.rows[id].status, w'.rows[id].status)
    decreases Size(p)
  {
    if p.Done? {
    } else {
      var w' := Effect(w, p, faults(k));
      var rest := Rest(w, p, faults(k));
      assert About(rest, id) && id in w'.rows && Climbs(rest, w'.rows[id].status);
      FinishClimbs(w', rest, faults, k + Accesses(p), id);
    }
  }

  lemma FailAsClimbs(op: Op, row: Intent, reason: Reason, action: Action, outcome: Outcome, s: Status)
    requires Rank(s) <= 3
    ensures Climbs(FailAs(op, row, reason, action, outcome), s)
  {
    var e := Entry(op, "system", action, outcome);
    assert Climbs(Log(e, Done), s) && Climbs(Log(e, Done), Failed);
  }

  lemma SubmitClimbs(op: Op, row: Intent, s: Status)
    requires op.Execute? && Rank(s) <= 2
    ensures Climbs(SubmitBody(op, row), s)
  {
    FailAsClimbs(op, row, SubmissionFailed, IntentFailed, Failure, s);
    if op.submit.Ok? && op.submit.value.success {
      var save := SubmitBody(op, row).next;
      var tail := save.next.next.next;
      assert Climbs(tail, s) && Climbs(tail, Submitted);
      assert Climbs(save.next.next, s) && Climbs(save.next.next, Submitted);
      assert Climbs(save.next, s) && Climbs(save.next, Submitted);
    }
  }

  lemma ExecutingClimbs(op: Op, row: Intent, s: Status)
    requires op.Execute? && Rank(s) <= 2
    ensures Climbs(ExecutingBody(op, row), s)
  {
    FailAsClimbs(op, row, SimulationFailed, IntentFailed, Failure, s);
    FailAsClimbs(op, row, SimulationFailed, IntentSimulated, SimulationDenied, s);
    FailAsClimbs(op, row, PolicyDenied, IntentPolicyDenied, Denied, s);
    FailAsClimbs(op, row, SigningFailed, IntentFailed, Failure, s);
    SubmitClimbs(op, row, s);
    hide FailAs, SubmitBody, PolicyEngine.Allows, Decimal.ParseInt64;
    assert Climbs(Log(Entry(op, "system", IntentSigned, Success), SubmitBody(op, row)), s);
  }

  lemma SaveAndLogClimbs(row: Intent, checked: bool, e: AuditEvent, s: Status)
    requires Advances(s, row.status)
    ensures Climbs(Save(row, checked, Log(e, Done)), s)
  {
    assert Climbs(Log(e, Done), s) && Climbs(Log(e, Done), row.status);
  }

  lemma BodyClimbs(op: Op, row: Intent)
    requires !op.Create?
    ensures Climbs(Body(op, row), row.status)
  {
    hide PolicyEngine.Allows, PolicyEngine.Lookup, ZkProof.CanGenerate, ExecutingBody;
    var s := row.status;
    match op {
      case Approve(_, _, _, _, _, _, _) =>
        if s == Pending {
          SaveAndLogClimbs(Refused(row, PolicyDenied), false, Entry(op, op.actor, IntentPolicyDenied, Denied), s);
          SaveAndLogClimbs(Refused(row, PolicyDenied), false, Entry(op, op.actor, IntentZkDenied, Denied), s);
          SaveAndLogClimbs(row.(status := Approved, approvedAt := Some(op.now)), true,
                           Entry(op, op.actor, IntentApproved, Success), s);
        }
      case Execute(_, _, _, _, _, _, _, _, _, _) =>
        if s == Approved {
          var executing, event := row.(status := Executing), Entry(op, "user", IntentExecuting, Success);
          ExecutingClimbs(op, executing, Approved);
          ExecutingClimbs(op, executing, Executing);
          var logged := Log(event, ExecutingBody(op, executing));
          assert Climbs(logged, Approved) && Climbs(logged, Executing);
          assert Climbs(Save(executing, true, logged), Approved);
          SaveAndLogClimbs(row.(status := Expired, failureReason := Some(IntentExpired)), false,
                           Entry(op, "system", IntentExpiredEvent, Success), s);
        }
      case Reject(_, _, _, _) =>
        SaveAndLogClimbs(Refused(row, RejectedByUser), true, Entry(op, op.actor, IntentRejected, Success), s);
      case Cancel(_, _, _, _) =>
        SaveAndLogClimbs(Refused(row, RejectedByUser), true, Entry(op, op.actor, IntentRejected, Success), s);
      case Reconcile(_, _, _, _, _, _, _) =>
        ReconcileClimbs(op, row);
    }
  }

  lemma ReconcileClimbs(op: Op, row: Intent)
    requires op.Reconcile?
    ensures Climbs(ReconcileBody(op, row), row.status)
  {
    if row.status == Submitted {
      SaveAndLogClimbs(FailedRow(row, if row.txSignature == "" then Reconciliation else ConfirmationTimeout), true,
        AuditEvent(row.tenantId, "system", IntentFailed, row.id, op.requestId, Failure), Submitted);
      var p := ConfirmBody(op, row);
      assert Climbs(p.next.next, Submitted) && Climbs(p.next.next, Confirmed);
      assert Climbs(p.next, Submitted) && Climbs(p.next, Confirmed);
    }
  }

  /** A handler that is not interleaved never moves an intent back, whatever faults it meets: the
      status stays or goes strictly up pending, approved, executing, submitted, then confirmed,
      failed or expired, then rejected. */
  lemma StatusesOnlyAdvance(w: World, op: Op, faults: nat -> Fault, k: nat, id: string)
    requires Keyed(w) && id in w.rows
    ensures var w' := Atomic(w, op, faults, k).0;
            id in w'.rows && Advances(w.rows[id].status, w'.rows[id].status)
  {
    var p := Begin(w, op, faults(k));
    var k' := if Reads(op) then k + 1 else k;
    BeginAbout(w, op, faults(k));
    hide Finish, Begin;
    if id != Target(op) {
      FinishElsewhere(w, p, faults, k', Target(op), id);
    } else {
      BeginClimbs(w, op, faults(k));
      FinishClimbs(w, p, faults, k', id);
    }
  }

  /** And so over whole sequences of handlers. */
  lemma {:induction false} StatusesOnlyAdvanceInRuns(w: World, ops: seq<Op>, faults: nat -> Fault, k: nat, id: string)
    requires Keyed(w) && id in w.rows
    ensures var w' := RunOps(w, ops, faults, k).0;
            id in w'.rows && Advances(w.rows[id].status, w'.rows[id].status)
    decreases |ops|
  {
    hide Atomic, Keyed;
    if |ops| == 0 {
    } else {
      if !Enabled(w, ops[0]) {
        StatusesOnlyAdvanceInRuns(w, ops[1..], faults, k, id);
      } else {
        var w1 := Launched(w, ops[0]);
        var (w', k') := Atomic(w1, ops[0], faults, k);
        LaunchedAgrees(w, ops[0], id);
        StatusesOnlyAdvance(w1, ops[0], faults, k, id);
        AtomicElsewhere(w1, ops[0], faults, k, "");
        StatusesOnlyAdvanceInRuns(w', ops[1..], faults, k', id);
      }
    }
  }

  lemma BeginClimbs(w: World, op: Op, fault: Fault)
    requires Target(op) in w.rows
    ensures Climbs(Begin(w, op, fault), w.rows[Target(op)].status)
  {
    hide Body, Acceptable;
    var s := w.rows[Target(op)].status;
    if op.Create? {
      assert Climbs(Log(Entry(op, op.creator, IntentCreated, Success), Done), s);
    } else {
      BodyClimbs(op, w.rows[op.id]);
    }
  }
}
