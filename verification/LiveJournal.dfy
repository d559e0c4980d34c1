/** The audit log as a journal while handlers interleave, without faults and crashes: which handlers of
    one intent have to be kept apart for its events to replay to its status whenever none of its
    handlers is at work. Those of different intents interleave freely. */
module LiveJournal {
  import opened Wrappers
  import opened Domain
  import opened Workflow
  import opened Invariants
  import opened Discipline
  import opened Journal
  import PolicyEngine
  import Serialised
  import SolanaClient
  import ZkProof

  /** Approvals and executions each by themselves, creations apart from whatever changes a pending
      row, rejections apart from reconciliations. */
  predicate JournalStands(d: Discipline) {
    && Apart(d, Creation, Approval) && Apart(d, Creation, Rejection) && Apart(d, Creation, Cancellation)
    && Apart(d, Approval, Approval) && Apart(d, Approval, Execution)
    && Apart(d, Approval, Rejection) && Apart(d, Approval, Cancellation)
    && Apart(d, Execution, Execution) && Apart(d, Execution, Rejection) && Apart(d, Execution, Cancellation)
    && Apart(d, Rejection, Reconciling)
  }

  predicate AllDone(threads: map<Tid, Thread>, id: string) {
    forall t :: t in threads && Target(threads[t].op) == id ==> !Live(threads[t])
  }

  // ------------------------------------------------- one handler's progress

  /** A handler in the middle of its work: the row is ahead of the log by the stage under way. */
  predicate Midway(w: World, p: Prog, id: string, seen: set<Option<Status>>, due: Option<Status>) {
    && About(p, id) && Staged(p, seen, due) && Replay(w.log, id) in seen
    && StatusOf(w, id) == if due.Some? then due else Replay(w.log, id)
  }

  ghost predicate Settling(w: World, p: Prog, id: string) {
    exists seen, due :: Midway(w, p, id, seen, due)
  }

  /** At work on a row that is there: everything but a creation that has not inserted its row. */
  predicate Busy(t: Thread) {
    t.Running? && !t.prog.Done? && !t.prog.Insert?
  }

  predicate Refusing(op: Op) {
    op.Reject? || op.Cancel?
  }

  /** A rejection or cancellation has one save and one event, and saves before it logs. */
  predicate Refuses(s: Option<Status>, p: Prog, id: string) {
    var last := if p.Save? then p.next else p;
    && last.Log? && last.event.intentId == id && last.event.action == IntentRejected && last.next.Done?
    && (p.Save? ==> p.row.id == id && p.row.status == Rejected) && (p.Log? ==> s == Some(Rejected))
  }

  /** Where the row and the log of a busy handler's intent are. */
  ghost predicate InStep(w: World, op: Op, p: Prog) {
    var id, s := Target(op), StatusOf(w, Target(op));
    && s.Some? && (if Refusing(op) then Refuses(s, p, id) else Settling(w, p, id))
    && (op.Create? ==> s == Some(Pending) && p == CreateBody(op).next)
    && (op.Approve? ==> s in {Some(Pending), Some(Approved), Some(Rejected)})
    && (op.Cancel? ==> s in {Some(Pending), Some(Executing), Some(Rejected)})
    && (op.Reconcile? ==> s in {Some(Submitted), Some(Confirmed), Some(Failed)})
  }

  ghost predicate ThreadJournals(w: World, t: Thread) {
    t.Running? ==>
      && About(t.prog, Target(t.op))
      && (t.prog.Insert? ==> t.op.Create? && t.prog == CreateBody(t.op))
      && (Busy(t) ==> InStep(w, t.op, t.prog))
  }

  /** The row of its intent may be ahead of the log. */
  predicate Owing(t: Thread) {
    Busy(t) && (!Refusing(t.op) || t.prog.Log?)
  }

  predicate Owed(threads: map<Tid, Thread>, id: string) {
    exists t :: t in threads && Target(threads[t].op) == id && Owing(threads[t])
  }

  /** Only rejections and cancellations are busy side by side. */
  predicate Beside(t: Thread, u: Thread) {
    Target(t.op) == Target(u.op) && Busy(t) && Busy(u) ==> Refusing(t.op) && Refusing(u.op)
  }

  ghost predicate SysJournals(sys: Sys) {
    && (forall t :: t in sys.threads ==> ThreadJournals(sys.w, sys.threads[t]))
    && (forall t, u :: t in sys.threads && u in sys.threads && t != u ==> Beside(sys.threads[t], sys.threads[u]))
    && (forall id :: Agrees(sys.w, id) || Owed(sys.threads, id))
  }

  lemma StepSettles(w: World, p: Prog, id: string)
    requires Settling(w, p, id) && !p.Done?
    ensures var w', rest := Effect(w, p, NoFault), Rest(w, p, NoFault);
            if rest.Done? then Agrees(w', id) else Settling(w', rest, id)
  {
    var w', rest := Effect(w, p, NoFault), Rest(w, p, NoFault);
    var seen, due :| Midway(w, p, id, seen, due);
    if p.Log? {
      ReplaySnoc(w.log, p.event, id);
    }
    GoesOn(w, p, NoFault, seen, due);
    if !rest.Done? {
      assert Midway(w', rest, id, SeenAfter(p, NoFault, seen, due), DueAfter(p, rest, due));
    }
  }

  /** A step of a busy handler on its own intent. */
  lemma BusyStep(w: World, op: Op, p: Prog)
    requires Serialised.Fits(op, p) && About(p, Target(op)) && Busy(Running(op, p)) && InStep(w, op, p)
    ensures var w', t' := Effect(w, p, NoFault), Running(op, Rest(w, p, NoFault));
            && ThreadJournals(w', t') && !t'.prog.Insert? && (Agrees(w', Target(op)) || Owing(t'))
            && (Refusing(op) && p.Save? ==> StatusOf(w', Target(op)) == Some(Rejected))
            && (!p.Save? ==> StatusOf(w', Target(op)) == StatusOf(w, Target(op)))
  {
    hide Replay, Staged;
    StepElsewhere(w, p, NoFault, Target(op), Target(op) + "'");
    if Refusing(op) {
      if p.Log? {
        ReplaySnoc(w.log, p.event, Target(op));
      }
    } else {
      StepSettles(w, p, Target(op));
    }
  }

  /** A creation inserts its row, or finds it there. */
  lemma InsertStep(w: World, op: Op)
    requires op.Create?
    ensures var p := CreateBody(op);
            var w', t' := Effect(w, p, NoFault), Running(op, Rest(w, p, NoFault));
            && (t'.prog.Done? <==> op.newId in w.rows || NonceTaken(w, op.newNonce)) && (t'.prog.Done? ==> w' == w)
            && (!t'.prog.Done? && Agrees(w, op.newId) ==> Busy(t') && ThreadJournals(w', t'))
  {
    hide Replay, NonceTaken;
    var p, none := CreateBody(op), StatusOf(w, op.newId);
    CreateStaged(op);
    if op.newId !in w.rows && !NonceTaken(w, op.newNonce) && Agrees(w, op.newId) {
      assert Midway(w, p, op.newId, {None}, None);
      StepSettles(w, p, op.newId);
    }
  }

  /** When reading a row makes a handler busy. */
  lemma BusyReads(op: Op, row: Intent)
    requires !op.Create? && row.id == op.id && !Body(op, row).Done?
    ensures op.Approve? ==> row.status == Pending
    ensures op.Execute? ==> row.status == Approved
    ensures op.Cancel? ==> row.status in {Pending, Executing}
    ensures op.Reconcile? ==> row.status == Submitted
    ensures Refusing(op) ==> Body(op, row) == RejectBody(op, row)
  {
    hide PolicyEngine.Allows, PolicyEngine.Lookup, ProofVerifies, ZkProof.CanGenerate, ExecutingBody, SolanaClient.Attempts;
  }

  lemma BodyJournals(w: World, op: Op)
    requires !op.Create? && RowsOk(w) && op.id in w.rows
    requires Refusing(op) || Agrees(w, op.id) || Body(op, w.rows[op.id]).Done?
    ensures ThreadJournals(w, Running(op, Body(op, w.rows[op.id])))
    ensures !Body(op, w.rows[op.id]).Insert?
  {
    hide Body, RowOk, Replay, Staged;
    var row, s := w.rows[op.id], StatusOf(w, op.id);
    BodyStaged(op, row);
    BodyNoInsert(op, row);
    if !Body(op, row).Done? {
      BusyReads(op, row);
      if !Refusing(op) {
        assert Midway(w, Body(op, row), op.id, {s}, None);
      }
    }
  }

  lemma BodyNoInsert(op: Op, row: Intent)
    requires !op.Create? && row.id == op.id
    ensures !Body(op, row).Insert?
  {
    Serialised.BodyPlan(op, row);
    hide Body;
  }

  /** Who can be busy beside a handler that becomes busy by reading its row. */
  lemma ReadsBeside(d: Discipline, w: World, op: Op, u: Thread)
    requires JournalStands(d) && RowsOk(w) && !op.Create? && op.id in w.rows && !Body(op, w.rows[op.id]).Done?
    requires var v := ViewOf(w, op.id); Serialised.ThreadFine(d, v, Ready(op)) && Serialised.ThreadFine(d, v, u)
    requires Target(u.op) == op.id && Serialised.PairFine(d, Ready(op), u) && Busy(u) && ThreadJournals(w, u)
    ensures Refusing(op) && Refusing(u.op)
  {
    hide Body, RowOk, Serialised.Fits, Serialised.Ahead, Settling, Refuses, About, Serialised.RecordThread,
      Serialised.ReturnThread, Serialised.ConfirmThread, SubmissionCount, RecordCount, Recorded, TxConfirmedFor;
    BusyReads(op, w.rows[op.id]);
  }

  // ---------------------------------------------------------- the system

  /** Others' intents keep their status and replay, and so their handlers their place. */
  lemma ElsewhereKept(w: World, w': World, t: Thread)
    requires ThreadJournals(w, t)
    requires StatusOf(w', Target(t.op)) == StatusOf(w, Target(t.op))
    requires Replay(w'.log, Target(t.op)) == Replay(w.log, Target(t.op))
    ensures ThreadJournals(w', t)
  {
    hide Replay, About, Staged, StatusOf;
    if Busy(t) && !Refusing(t.op) {
      var seen, due :| Midway(w, t.prog, Target(t.op), seen, due);
      assert Midway(w', t.prog, Target(t.op), seen, due);
    }
  }

  /** Beside a refusal that has taken its step. */
  lemma RefusalKept(w: World, w': World, t: Thread)
    requires ThreadJournals(w, t) && (Busy(t) ==> Refusing(t.op))
    requires StatusOf(w', Target(t.op)) in {StatusOf(w, Target(t.op)), Some(Rejected)}
    ensures ThreadJournals(w', t)
  {
    hide About, Settling, StatusOf;
  }

  /** A thread moves on to `t'`, and only its intent's row and events with it. */
  lemma MoveJournals(sys: Sys, tid: Tid, t': Thread, w': World)
    requires SysJournals(sys) && (tid in sys.threads ==> sys.threads[tid].op == t'.op)
    requires ThreadJournals(w', t')
    requires forall u :: u in sys.threads && u != tid ==> Beside(t', sys.threads[u])
    requires forall u :: u in sys.threads && u != tid && Target(sys.threads[u].op) == Target(t'.op) ==>
      ThreadJournals(w', sys.threads[u])
    requires forall id :: id != Target(t'.op) ==>
      StatusOf(w', id) == StatusOf(sys.w, id) && Replay(w'.log, id) == Replay(sys.w.log, id)
    requires
      || Agrees(w', Target(t'.op)) || Owing(t')
      || exists u :: u in sys.threads && u != tid && Target(sys.threads[u].op) == Target(t'.op) && Owing(sys.threads[u])
    ensures SysJournals(Sys(w', sys.threads[tid := t']))
  {
    hide ThreadJournals, Replay, StatusOf, Busy, Owing;
    var own, threads' := Target(t'.op), sys.threads[tid := t'];
    forall u | u in threads' ensures ThreadJournals(w', threads'[u]) {
      if u != tid && Target(threads'[u].op) != own {
        ElsewhereKept(sys.w, w', threads'[u]);
      }
    }
    forall id ensures Agrees(w', id) || Owed(threads', id) {
      if id == own {
        if Owing(t') {
          assert threads'[tid] == t';
        } else if u :| u in sys.threads && u != tid && Target(sys.threads[u].op) == own && Owing(sys.threads[u]) {
          assert threads'[u] == sys.threads[u];
        }
      } else if Owed(sys.threads, id) {
        var u :| u in sys.threads && Target(sys.threads[u].op) == id && Owing(sys.threads[u]);
        assert threads'[u] == sys.threads[u];
      }
    }
  }

  lemma ReadJournals(d: Discipline, sys: Sys, tid: Tid)
    requires JournalStands(d) && Serialised.SysFine(d, sys) && RowsOk(sys.w) && SysJournals(sys)
    requires tid in sys.threads && sys.threads[tid].Ready?
    ensures SysJournals(Next(sys, Tick(tid, NoFault)))
  {
    hide RowOk, Replay, StatusOf, Body, CreateBody, Acceptable, Duplicate, About, InStep, Serialised.ThreadFine,
      Serialised.PairFine, Serialised.IntentFine, ViewOf;
    var op := sys.threads[tid].op;
    var p := Begin(sys.w, op, NoFault);
    var t' := Running(op, p);
    DoneJournals(sys.w, op);
    if p.Done? {
      MoveJournals(sys, tid, t', sys.w);
    } else if op.Create? {
      CreateJournals(sys.w, op);
      MoveJournals(sys, tid, t', sys.w);
    } else {
      forall u | u in sys.threads && u != tid && Target(sys.threads[u].op) == op.id && Busy(sys.threads[u])
        ensures Refusing(op) && Refusing(sys.threads[u].op)
      {
        ReadsBeside(d, sys.w, op, sys.threads[u]);
      }
      BodyJournals(sys.w, op);
      MoveJournals(sys, tid, t', sys.w);
    }
  }

  lemma DoneJournals(w: World, op: Op)
    ensures ThreadJournals(w, Running(op, Done)) && !Busy(Running(op, Done)) && ThreadJournals(w, Ready(op))
  {
  }

  lemma CreateJournals(w: World, op: Op)
    requires op.Create?
    ensures ThreadJournals(w, Running(op, CreateBody(op))) && CreateBody(op).Insert?
  {
    CreateStaged(op);
  }

  lemma StepJournals(d: Discipline, sys: Sys, tid: Tid)
    requires Serialised.SysFine(d, sys) && SysJournals(sys)
    requires tid in sys.threads && sys.threads[tid].Running? && !sys.threads[tid].prog.Done?
    ensures SysJournals(Next(sys, Tick(tid, NoFault)))
  {
    hide Replay, StatusOf, CreateBody, About, InStep, Effect, Rest, Serialised.ThreadFine, Serialised.PairFine,
      Serialised.IntentFine, ViewOf, Serialised.Fits;
    var op, p := sys.threads[tid].op, sys.threads[tid].prog;
    var w', t' := Effect(sys.w, p, NoFault), Running(op, Rest(sys.w, p, NoFault));
    Serialised.FineFits(d, ViewOf(sys.w, Target(op)), op, p);
    forall id | id != Target(op)
      ensures StatusOf(w', id) == StatusOf(sys.w, id) && Replay(w'.log, id) == Replay(sys.w.log, id)
    {
      StepElsewhere(sys.w, p, NoFault, Target(op), id);
    }
    DoneJournals(w', op);
    if p.Insert? {
      InsertJournals(sys, tid, w', t');
    } else {
      BusyStep(sys.w, op, p);
      forall u | u in sys.threads && u != tid && Target(sys.threads[u].op) == Target(op)
        ensures ThreadJournals(w', sys.threads[u]) && Beside(t', sys.threads[u])
      {
        assert Beside(sys.threads[tid], sys.threads[u]);
        BesideBusy(sys.w, w', sys.threads[tid], sys.threads[u]);
      }
      MoveJournals(sys, tid, t', w');
    }
  }

  /** A handler beside a busy one that takes a step. */
  lemma BesideBusy(w: World, w': World, t: Thread, u: Thread)
    requires Busy(t) && Target(t.op) == Target(u.op) && Beside(t, u) && ThreadJournals(w, u)
    requires StatusOf(w', Target(t.op)) == StatusOf(w, Target(t.op))
         || (Refusing(t.op) ==> StatusOf(w', Target(t.op)) == Some(Rejected))
    ensures ThreadJournals(w', u)
  {
    hide About, InStep, StatusOf;
    if Busy(u) {
      RefusalKept(w, w', u);
    }
  }

  lemma InsertJournals(sys: Sys, tid: Tid, w': World, t': Thread)
    requires SysJournals(sys) && tid in sys.threads && sys.threads[tid].Running? && sys.threads[tid].prog.Insert?
    requires var t := sys.threads[tid];
             w' == Effect(sys.w, t.prog, NoFault) && t' == Running(t.op, Rest(sys.w, t.prog, NoFault))
    requires forall id :: id != Target(t'.op) ==>
      StatusOf(w', id) == StatusOf(sys.w, id) && Replay(w'.log, id) == Replay(sys.w.log, id)
    ensures SysJournals(Sys(w', sys.threads[tid := t']))
  {
    hide Replay, CreateBody, About, Effect, Rest, Settling, Refuses;
    var op := t'.op;
    InsertStep(sys.w, op);
    DoneJournals(w', op);
    if t'.prog.Done? {
      MoveJournals(sys, tid, t', sys.w);
    } else {
      assert forall u :: u in sys.threads && Target(sys.threads[u].op) == op.newId ==> !Busy(sys.threads[u]);
      assert Agrees(sys.w, op.newId);
      forall u | u in sys.threads && Target(sys.threads[u].op) == op.newId ensures ThreadJournals(w', sys.threads[u]) {
        IdleKept(sys.w, w', sys.threads[u]);
      }
      MoveJournals(sys, tid, t', w');
    }
  }

  lemma IdleKept(w: World, w': World, t: Thread)
    requires ThreadJournals(w, t) && !Busy(t)
    ensures ThreadJournals(w', t)
  {
  }

  lemma LaunchedSays(w: World, op: Op, id: string)
    ensures StatusOf(Launched(w, op), id) == StatusOf(w, id) && Replay(Launched(w, op).log, id) == Replay(w.log, id)
  {
  }

  lemma StartJournals(sys: Sys, tid: Tid, op: Op)
    requires SysJournals(sys)
    ensures SysJournals(Next(sys, Start(tid, op)))
  {
    hide Replay, StatusOf, InStep, Launched;
    if Startable(sys, tid, op) {
      var w', own := Launched(sys.w, op), Target(op);
      forall id ensures StatusOf(w', id) == StatusOf(sys.w, id) && Replay(w'.log, id) == Replay(sys.w.log, id) {
        LaunchedSays(sys.w, op, id);
      }
      forall u | u in sys.threads ensures ThreadJournals(w', sys.threads[u]) {
        ElsewhereKept(sys.w, w', sys.threads[u]);
      }
      assert Agrees(sys.w, own) || Owed(sys.threads, own);
      MoveJournals(sys, tid, Ready(op), w');
    }
  }

  lemma IdleTick(sys: Sys, tid: Tid, fault: Fault)
    requires tid in sys.threads ==> !Live(sys.threads[tid])
    ensures Next(sys, Tick(tid, fault)) == sys
  {
    if tid in sys.threads {
      assert sys.threads[tid := sys.threads[tid]] == sys.threads;
    }
  }

  lemma NextJournals(d: Discipline, sys: Sys, e: Event)
    requires JournalStands(d) && Serialised.SysFine(d, sys) && RowsOk(sys.w) && SysJournals(sys)
    requires !e.Crash? && (e.Tick? ==> e.fault.NoFault?)
    ensures SysJournals(Next(sys, e))
  {
    hide SysJournals, Next, Serialised.SysFine, RowOk;
    match e {
      case Start(tid, op) => StartJournals(sys, tid, op);
      case Tick(tid, _) =>
        if tid !in sys.threads || !Live(sys.threads[tid]) {
          IdleTick(sys, tid, NoFault);
        } else if sys.threads[tid].Ready? {
          ReadJournals(d, sys, tid);
        } else {
          StepJournals(d, sys, tid);
        }
    }
  }

  lemma {:induction false} RunJournalsLive(d: Discipline, es: seq<Event>)
    requires JournalStands(d) && SerialRun(d, es) && FaultFree(es)
    ensures SysJournals(Run(INITIAL, es))
  {
    if |es| == 0 {
    } else {
      var front := es[..|es| - 1];
      assert FaultFree(front);
      RunJournalsLive(d, front);
      Serialised.SerialRunFine(d, front);
      InitialOk();
      RunOk(INITIAL, front);
      hide SysJournals, Next, Serialised.SysFine, RowOk, SubmissionOk, TxOk, ProgOk, JournalStands;
      NextJournals(d, Run(INITIAL, front), es[|es| - 1]);
    }
  }

  /** Without faults and crashes, handlers interleaved in any way that keeps the discipline: an intent
      on which no handler is at work has exactly the status that its audit events replay to. */
  lemma InterleavedLogIsAJournal(d: Discipline, es: seq<Event>, id: string)
    requires JournalStands(d) && SerialRun(d, es) && FaultFree(es)
    requires AllDone(Run(INITIAL, es).threads, id)
    ensures var w := Run(INITIAL, es).w;
            Replay(w.log, id) == StatusOf(w, id)
  {
    RunJournalsLive(d, es);
    var sys := Run(INITIAL, es);
    hide Run, Replay, StatusOf, ThreadJournals;
    assert !Owed(sys.threads, id);
    assert Agrees(sys.w, id);
  }
}
