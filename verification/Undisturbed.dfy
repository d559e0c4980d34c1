/** Runs without faults and crashes. There the record of an intent is seen by every later lookup, so
    with executions kept apart no intent is reconciled twice, whatever approvals do. */
module Undisturbed {
  import opened Domain
  import opened Workflow
  import opened Invariants
  import opened Discipline
  import opened Serialised

  /** An execution that is past its lookup. */
  predicate LookedUp(t: Thread) {
    t.op.Execute? && t.Running? && !t.prog.FindNonce? && !t.prog.NonceGuard?
  }

  predicate CleanIntent(v: View) {
    OneCall(v.called) && (v.called != map[] ==> v.records > 0)
  }

  /** A reconciliation is the only one; an execution past its lookup finds neither a record nor a
      reconciliation of its intent but its own. */
  predicate CleanThread(v: View, t: Thread) {
    && (t.op.Reconcile? ==> t.op.tenant in v.called && forall s :: s in v.called ==> v.called[s] == 0)
    && (LookedUp(t) && Ahead(t.prog).records ==> v.records == 0)
    && (LookedUp(t) && Ahead(t.prog).spawns ==> v.called == map[] && (Ahead(t.prog).records || v.records > 0))
  }

  predicate CleanPair(t: Thread, u: Thread) {
    Target(t.op) == Target(u.op) ==> !(t.op.Reconcile? && u.op.Reconcile?)
  }

  ghost predicate SysClean(sys: Sys) {
    && (forall id :: CleanIntent(ViewOf(sys.w, id)))
    && (forall t :: t in sys.threads ==> CleanThread(ViewOf(sys.w, Target(sys.threads[t].op)), sys.threads[t]))
    && (forall t, u :: t in sys.threads && u in sys.threads && t != u ==> CleanPair(sys.threads[t], sys.threads[u]))
  }

  // ------------------------------------------------ one step on the view

  /** An access that works: a record is added, and a lookup answers as the records stand. */
  ghost predicate CleanSteps(v: View, p: Prog, rest: Prog, v': View) {
    && Steps(v, p, NoFault, rest, v')
    && (p.InsertTx? ==> v'.records > 0)
    && (p.FindNonce? ==> rest == NonceGuard(p.nonce, p.next))
    && (p.NonceGuard? && v.records > 0 ==> rest.Done?)
  }

  lemma CleanEffect(w: World, op: Op, p: Prog)
    requires WorldOk(w) && ProgOk(w, p) && Fits(op, p)
    ensures var v, v' := ViewOf(w, Target(op)), ViewOf(Effect(w, p, NoFault), Target(op));
            CleanSteps(v, p, Rest(w, p, NoFault), v')
  {
    hide SubmissionCount, RecordCount, Recorded, TxConfirmedFor, Called, RowOk, SubmissionOk, ConfirmFirst, Ahead;
    FitsStaysOn(op, p);
    EffectViews(w, p, NoFault, Target(op), Target(op));
    if p.FindNonce? || p.NonceGuard? {
      LookupSeesRecords(w, p.next.row, Target(op));
    } else if p.InsertTx? {
      RecordSnoc(w.txs, p.tx, Target(op));
    }
  }

  /** The two queries for a stored row's nonce. */
  lemma LookupSeesRecords(w: World, row: Intent, id: string)
    requires WorldOk(w) && Known(w, row) && row.id == id
    ensures NonceTaken(w, row.nonce) && (HasTxForNonce(w, row.nonce) <==> RecordCount(w.txs, id) > 0)
  {
    hide RowOk, SubmissionOk;
    SameCore(row, w.rows[id]);
    NoRecordCounted(w.txs, id);
    if i :| 0 <= i < |w.txs| && w.txs[i].intentId in w.rows && w.rows[w.txs[i].intentId].nonce == row.nonce {
      assert w.txs[i].intentId == id;
    }
    if i :| 0 <= i < |w.txs| && w.txs[i].intentId == id {
      assert w.rows[w.txs[i].intentId].nonce == row.nonce;
    }
  }

  lemma OwnClean(v: View, op: Op, p: Prog, rest: Prog, v': View)
    requires CleanThread(v, Running(op, p)) && CleanIntent(v) && Fits(op, p) && CleanSteps(v, p, rest, v')
    ensures CleanThread(v', Running(op, rest)) && CleanIntent(v')
  {
    if p.Spawn? {
      assert Ahead(p) == NOTHING.(spawns := true);
    }
  }

  /** Another handler's step, the two not being executions both. */
  lemma OtherClean(v: View, op: Op, p: Prog, rest: Prog, v': View, u: Thread)
    requires CleanThread(v, Running(op, p)) && Fits(op, p) && CleanSteps(v, p, rest, v') && CleanThread(v, u)
    requires !p.Done? ==> !(op.Execute? && u.op.Execute? && Live(u))
    ensures CleanThread(v', u)
  {
    if p.Spawn? {
      assert Ahead(p) == NOTHING.(spawns := true);
    }
  }

  lemma ReadClean(v: View, op: Op, row: Intent)
    requires !op.Create? && row.id == op.id && CleanThread(v, Ready(op))
    ensures CleanThread(v, Running(op, Body(op, row)))
  {
    BodyPlan(op, row);
    hide Body, Fits, KeepsSignature;
    if Body(op, row).Done? {
      DonePlan(Body(op, row), "");
    }
  }

  // ---------------------------------------------------------------- runs

  predicate ExecutionsApart(d: Discipline) {
    Apart(d, Execution, Execution)
  }

  lemma BeginClean(w: World, op: Op)
    requires RowsOk(w) && CleanThread(ViewOf(w, Target(op)), Ready(op))
    ensures CleanThread(ViewOf(w, Target(op)), Running(op, Begin(w, op, NoFault)))
  {
    hide Body, CreateBody, Acceptable, Duplicate, RowOk, ViewOf, Ahead;
    var v := ViewOf(w, Target(op));
    DonePlan(Done, "");
    if !op.Create? && op.id in w.rows {
      ReadClean(v, op, w.rows[op.id]);
    }
  }

  /** A thread goes on as `t'`, the tables staying as they are. */
  lemma ReplaceClean(sys: Sys, tid: Tid, t': Thread)
    requires SysClean(sys) && CleanThread(ViewOf(sys.w, Target(t'.op)), t')
    requires forall u :: u in sys.threads && u != tid ==> CleanPair(t', sys.threads[u])
    ensures SysClean(sys.(threads := sys.threads[tid := t']))
  {
    hide CleanThread, CleanIntent, ViewOf;
  }

  lemma StepClean(d: Discipline, sys: Sys, tid: Tid)
    requires ExecutionsApart(d) && SysFine(d, sys) && SysOk(sys) && SysClean(sys)
    requires tid in sys.threads && sys.threads[tid].Running?
    ensures SysClean(Next(sys, Tick(tid, NoFault)))
  {
    hide ThreadFine, IntentFine, ViewOf, Effect, Rest, Steps, CleanSteps, CleanThread, CleanIntent, WorldOk, ProgOk, Fits;
    var op, p := sys.threads[tid].op, sys.threads[tid].prog;
    var w', rest := Effect(sys.w, p, NoFault), Rest(sys.w, p, NoFault);
    var own := Target(op);
    var v, v' := ViewOf(sys.w, own), ViewOf(w', own);
    FineFits(d, v, op, p);
    FitsStaysOn(op, p);
    forall id ensures CleanIntent(ViewOf(w', id)) && (id != own ==> ViewOf(w', id) == ViewOf(sys.w, id)) {
      EffectViews(sys.w, p, NoFault, own, id);
      CleanEffect(sys.w, op, p);
      OwnClean(v, op, p, rest, v');
    }
    CleanEffect(sys.w, op, p);
    OwnClean(v, op, p, rest, v');
    forall t | t in sys.threads && t != tid && Target(sys.threads[t].op) == own
      ensures CleanThread(v', sys.threads[t])
    {
      ExecutionsExclude(d, sys.threads[tid], sys.threads[t]);
      OtherClean(v, op, p, rest, v', sys.threads[t]);
    }
  }

  lemma ExecutionsExclude(d: Discipline, t: Thread, u: Thread)
    requires ExecutionsApart(d) && PairFine(d, t, u)
    ensures !(t.op.Execute? && u.op.Execute? && Live(t) && Live(u))
  {
  }

  lemma LaunchClean(sys: Sys, op: Op)
    requires SysClean(sys) && (op.Reconcile? ==> Waiting(sys.w.spawned, op.tenant, op.id) > 0)
    ensures SysClean(sys.(w := Launched(sys.w, op)))
    ensures CleanThread(ViewOf(Launched(sys.w, op), Target(op)), Ready(op))
    ensures op.Reconcile? ==> forall t :: t in sys.threads ==> !(sys.threads[t].op.Reconcile? && Target(sys.threads[t].op) == op.id)
  {
    hide CleanThread, CleanIntent, ViewOf, Fewer;
    var w', v := Launched(sys.w, op), ViewOf(sys.w, Target(op));
    if op.Reconcile? {
      LaunchViews(sys.w, op, op.id);
      forall id ensures CleanIntent(ViewOf(w', id)) && (id != op.id ==> ViewOf(w', id) == ViewOf(sys.w, id)) {
        LaunchViews(sys.w, op, id);
        if id == op.id {
          FewerClean(v, op, Ready(op));
        }
      }
      forall t | t in sys.threads
        ensures CleanThread(ViewOf(w', Target(sys.threads[t].op)), sys.threads[t])
        ensures !(sys.threads[t].op.Reconcile? && Target(sys.threads[t].op) == op.id)
      {
        if Target(sys.threads[t].op) == op.id {
          FewerClean(v, op, sys.threads[t]);
        }
      }
      FewerClean(v, op, Ready(op));
    } else {
      assert w' == sys.w;
      RequestClean(v, op);
    }
  }

  lemma RequestClean(v: View, op: Op)
    requires !op.Reconcile?
    ensures CleanThread(v, Ready(op))
  {
  }

  /** The only reconciliation of the intent starts. */
  lemma FewerClean(v: View, op: Op, u: Thread)
    requires op.Reconcile? && op.tenant in v.called && v.called[op.tenant] > 0 && CleanIntent(v)
    ensures CleanIntent(Fewer(v, op.tenant)) && CleanThread(Fewer(v, op.tenant), Ready(op))
    ensures CleanThread(v, u) ==> CleanThread(Fewer(v, op.tenant), u) && !u.op.Reconcile?
  {
    hide Ahead;
  }

  lemma NextClean(d: Discipline, sys: Sys, e: Event)
    requires ExecutionsApart(d) && SysFine(d, sys) && SysOk(sys) && SysClean(sys)
    requires !e.Crash? && (e.Tick? ==> e.fault.NoFault?)
    ensures SysClean(Next(sys, e))
  {
    hide SysFine, CleanThread, CleanIntent, ViewOf, Begin, Effect, Rest, ProgOk, RowOk, SubmissionOk, TxOk;
    match e {
      case Start(tid, op) =>
        if Startable(sys, tid, op) {
          LaunchClean(sys, op);
          ReplaceClean(sys.(w := Launched(sys.w, op)), tid, Ready(op));
        }
      case Tick(tid, _) =>
        if tid in sys.threads {
          var t := sys.threads[tid];
          if t.Ready? {
            BeginClean(sys.w, t.op);
            ReplaceClean(sys, tid, Running(t.op, Begin(sys.w, t.op, NoFault)));
          } else {
            StepClean(d, sys, tid);
          }
        }
    }
  }

  lemma {:induction false} RunClean(d: Discipline, es: seq<Event>)
    requires ExecutionsApart(d) && SerialRun(d, es) && FaultFree(es)
    ensures SysClean(Run(INITIAL, es))
  {
    if |es| == 0 {
    } else {
      var front := es[..|es| - 1];
      assert FaultFree(front);
      RunClean(d, front);
      SerialRunFine(d, front);
      InitialOk();
      RunOk(INITIAL, front);
      hide SysClean, SysFine, SysOk, Next, Apart;
      NextClean(d, Run(INITIAL, front), es[|es| - 1]);
    }
  }

  // -------------------------------------------------------------- theorem

  /** The same discipline with reconciliations kept apart from each other as well. */
  function Reconciled(d: Discipline): Discipline {
    d + {(Reconciling, Reconciling)}
  }

  lemma StartsAloneStill(d: Discipline, sys: Sys, e: Event)
    requires SysClean(sys) && StartsAlone(d, sys, e)
    ensures StartsAlone(Reconciled(d), sys, e)
  {
    hide SysClean, Launched;
    if e.Start? && Startable(sys, e.tid, e.op) {
      LaunchClean(sys, e.op);
      forall t | t in sys.threads ensures !Overlaps(Reconciled(d), sys.threads[t], e.op) {
        assert !Overlaps(d, sys.threads[t], e.op);
      }
    }
  }

  /** Without faults and crashes, keeping executions apart keeps reconciliations apart. */
  lemma {:induction false} OneReconciliation(d: Discipline, es: seq<Event>)
    requires ExecutionsApart(d) && SerialRun(d, es) && FaultFree(es)
    ensures SerialRun(Reconciled(d), es)
  {
    if |es| == 0 {
    } else {
      var front, e := es[..|es| - 1], es[|es| - 1];
      assert FaultFree(front);
      OneReconciliation(d, front);
      RunClean(d, front);
      hide Run, SysClean, StartsAlone, Reconciled, Apart;
      StartsAloneStill(d, Run(INITIAL, front), e);
    }
  }
}
