/** Tenant isolation. Deleting every other tenant's events from a run, whatever its interleaving,
    faults and crashes, leaves exactly one tenant's part of the system: its intents, records, audit
    events, submissions, pending reconciliations and handlers. */
module Isolation {
  import opened Wrappers
  import opened Domain
  import opened Workflow
  import opened Invariants
  import PolicyEngine

  // ------------------------------------------------------------ projection

  function RowsOf(rows: map<string, Intent>, tenant: string): map<string, Intent> {
    map id | id in rows && rows[id].tenantId == tenant :: rows[id]
  }

  function TxsOf(txs: seq<Transaction>, tenant: string): seq<Transaction> {
    if |txs| == 0 then []
    else (if txs[0].tenantId == tenant then [txs[0]] else []) + TxsOf(txs[1..], tenant)
  }

  function LogOf(log: seq<AuditEvent>, tenant: string): seq<AuditEvent> {
    if |log| == 0 then []
    else LogOf(log[..|log| - 1], tenant) + (if log[|log| - 1].tenantId == tenant then [log[|log| - 1]] else [])
  }

  function SubmissionsOf(s: seq<Submission>, tenant: string): seq<Submission> {
    if |s| == 0 then []
    else SubmissionsOf(s[..|s| - 1], tenant) + (if s[|s| - 1].row.tenantId == tenant then [s[|s| - 1]] else [])
  }

  function SpawnedOf(spawned: map<(string, string), nat>, tenant: string): map<(string, string), nat> {
    map p | p in spawned && p.0 == tenant :: spawned[p]
  }

  function WorldOf(w: World, tenant: string): World {
    World(RowsOf(w.rows, tenant), TxsOf(w.txs, tenant), LogOf(w.log, tenant), SubmissionsOf(w.submissions, tenant),
          SpawnedOf(w.spawned, tenant))
  }

  function ThreadsOf(threads: map<Tid, Thread>, tenant: string): map<Tid, Thread> {
    map t | t in threads && t.tenant == tenant :: threads[t]
  }

  /** One tenant's part of the system. */
  function Project(sys: Sys, tenant: string): Sys {
    Sys(WorldOf(sys.w, tenant), ThreadsOf(sys.threads, tenant))
  }

  function Only(es: seq<Event>, tenant: string): seq<Event> {
    if |es| == 0 then []
    else Only(es[..|es| - 1], tenant) + (if es[|es| - 1].tid.tenant == tenant then [es[|es| - 1]] else [])
  }

  /** One tenant's part is what carries its name: rows, records, events, submissions, reconciliations to
      start, handlers and events of a run, sequences in their order. */
  lemma PartOfOne(sys: Sys, tenant: string, tx: Transaction, e: AuditEvent, s: Submission, step: Event)
    ensures var p := Project(sys, tenant);
            && (forall id :: id in p.w.rows <==> id in sys.w.rows && sys.w.rows[id].tenantId == tenant)
            && (forall id :: id in p.w.rows ==> p.w.rows[id] == sys.w.rows[id])
            && (forall t, id :: (t, id) in p.w.spawned <==> (t, id) in sys.w.spawned && t == tenant)
            && (forall t, id :: (t, id) in p.w.spawned ==> p.w.spawned[(t, id)] == sys.w.spawned[(t, id)])
            && (forall t :: t in p.threads <==> t in sys.threads && t.tenant == tenant)
            && (forall t :: t in p.threads ==> p.threads[t] == sys.threads[t])
    ensures TxsOf([tx], tenant) == (if tx.tenantId == tenant then [tx] else [])
    ensures LogOf([e], tenant) == (if e.tenantId == tenant then [e] else [])
    ensures SubmissionsOf([s], tenant) == (if s.row.tenantId == tenant then [s] else [])
    ensures Only([step], tenant) == (if step.tid.tenant == tenant then [step] else [])
  {
    assert [tx][1..] == [] && [e][..0] == [] && [s][..0] == [] && [step][..0] == [];
  }

  lemma NoRecords(txs: seq<Transaction>, tenant: string)
    requires |txs| == 0
    ensures TxsOf(txs, tenant) == []
  {
  }

  lemma {:induction false} PartOfRecords(a: seq<Transaction>, b: seq<Transaction>, tenant: string)
    ensures TxsOf(a + b, tenant) == TxsOf(a, tenant) + TxsOf(b, tenant)
  {
    hide TxsOf;
    if |a| == 0 {
      assert a + b == b;
      NoRecords(a, tenant);
    } else {
      var rest := a[1..];
      assert a == [a[0]] + rest && a + b == [a[0]] + (rest + b);
      PartOfRecords(rest, b, tenant);
      TxsOfCons(a[0], rest, tenant);
      TxsOfCons(a[0], rest + b, tenant);
    }
  }

  lemma {:induction false} PartOfLog(a: seq<AuditEvent>, b: seq<AuditEvent>, tenant: string)
    ensures LogOf(a + b, tenant) == LogOf(a, tenant) + LogOf(b, tenant)
  {
    if |b| == 0 {
      assert a + b == a;
    } else {
      assert (a + b)[..|a + b| - 1] == a + b[..|b| - 1];
      PartOfLog(a, b[..|b| - 1], tenant);
    }
  }

  lemma {:induction false} PartOfSubmissions(a: seq<Submission>, b: seq<Submission>, tenant: string)
    ensures SubmissionsOf(a + b, tenant) == SubmissionsOf(a, tenant) + SubmissionsOf(b, tenant)
  {
    if |b| == 0 {
      assert a + b == a;
    } else {
      assert (a + b)[..|a + b| - 1] == a + b[..|b| - 1];
      PartOfSubmissions(a, b[..|b| - 1], tenant);
    }
  }

  lemma {:induction false} PartOfRun(a: seq<Event>, b: seq<Event>, tenant: string)
    ensures Only(a + b, tenant) == Only(a, tenant) + Only(b, tenant)
  {
    if |b| == 0 {
      assert a + b == a;
    } else {
      assert (a + b)[..|a + b| - 1] == a + b[..|b| - 1];
      PartOfRun(a, b[..|b| - 1], tenant);
    }
  }

  // ------------------------------------------------------ fresh identifiers

  predicate Creates(e: Event) {
    e.Start? && e.op.Create?
  }

  predicate IssuedAt(es: seq<Event>, k: int, tenant: string, id: string, nonce: string) {
    && 0 <= k < |es| && Creates(es[k])
    && es[k].op.tenant == tenant && es[k].op.newId == id && es[k].op.newNonce == nonce
  }

  ghost predicate Issued(es: seq<Event>, tenant: string, id: string, nonce: string) {
    exists k :: IssuedAt(es, k, tenant, id, nonce)
  }

  /** Intent ids and nonces generated for different tenants differ. */
  predicate IdsDiffer(es: seq<Event>) {
    forall i, j | 0 <= i < |es| && 0 <= j < |es| && Creates(es[i]) && Creates(es[j]) ::
      es[i].op.tenant == es[j].op.tenant
      || (es[i].op.newId != es[j].op.newId && es[i].op.newNonce != es[j].op.newNonce)
  }

  // -------------------------------------------------------------- ownership

  predicate OwnsRow(w: World, tenant: string, id: string) {
    id in w.rows && w.rows[id].tenantId == tenant
  }

  ghost predicate OwnsNonce(w: World, tenant: string, nonce: string) {
    exists id :: OwnsRow(w, tenant, id) && w.rows[id].nonce == nonce
  }

  /** Everything a handler may still touch belongs to its tenant. */
  ghost predicate Owned(es: seq<Event>, w: World, p: Prog, tenant: string) {
    match p
    case Done => true
    case Insert(row, next) =>
      row.tenantId == tenant && Issued(es, tenant, row.id, row.nonce) && Owned(es, w, next, tenant)
    case FindNonce(nonce, next) => OwnsNonce(w, tenant, nonce) && Owned(es, w, next, tenant)
    case NonceGuard(nonce, next) => OwnsNonce(w, tenant, nonce) && Owned(es, w, next, tenant)
    case Save(row, _, next) => OwnsRow(w, tenant, row.id) && row.tenantId == tenant && Owned(es, w, next, tenant)
    case Log(event, next) => event.tenantId == tenant && Owned(es, w, next, tenant)
    case Submit(s, next) => s.row.tenantId == tenant && Owned(es, w, next, tenant)
    case InsertTx(tx, next) => tx.tenantId == tenant && Owned(es, w, next, tenant)
    case Spawn(t, id, next) => t == tenant && OwnsRow(w, tenant, id) && Owned(es, w, next, tenant)
    case FindTx(id, _, next) => OwnsRow(w, tenant, id) && Owned(es, w, next, tenant)
    case ConfirmTx(id, _, next) => OwnsRow(w, tenant, id) && Owned(es, w, next, tenant)
  }

  ghost predicate ThreadOwned(es: seq<Event>, w: World, tid: Tid, t: Thread) {
    && t.op.tenant == tid.tenant
    && (t.op.Create? ==> Issued(es, t.op.tenant, t.op.newId, t.op.newNonce))
    && (t.op.Reconcile? ==> (t.op.tenant, t.op.id) in w.spawned)
    && (t.Running? ==> Owned(es, w, t.prog, tid.tenant))
  }

  ghost predicate RowsIssued(es: seq<Event>, w: World) {
    forall id :: id in w.rows ==> Issued(es, w.rows[id].tenantId, id, w.rows[id].nonce)
  }

  predicate SpawnsOwned(w: World) {
    forall p :: p in w.spawned ==> OwnsRow(w, p.0, p.1)
  }

  ghost predicate IsolationOk(es: seq<Event>, sys: Sys) {
    && SysOk(sys) && RowsIssued(es, sys.w) && SpawnsOwned(sys.w)
    && (forall t :: t in sys.threads ==> ThreadOwned(es, sys.w, t, sys.threads[t]))
  }

  lemma OwnershipGrows(w: World, w': World, tenant: string, id: string)
    requires Grows(w, w') && OwnsRow(w, tenant, id)
    ensures OwnsRow(w', tenant, id) && w'.rows[id].nonce == w.rows[id].nonce
  {
    SameCore(w.rows[id], w'.rows[id]);
  }

  lemma NonceStaysOwned(w: World, w': World, tenant: string, nonce: string)
    requires Grows(w, w') && OwnsNonce(w, tenant, nonce)
    ensures OwnsNonce(w', tenant, nonce)
  {
    var id :| OwnsRow(w, tenant, id) && w.rows[id].nonce == nonce;
    OwnershipGrows(w, w', tenant, id);
  }

  lemma {:induction false} OwnedGrows(es: seq<Event>, w: World, w': World, p: Prog, tenant: string)
    requires Grows(w, w') && Owned(es, w, p, tenant)
    ensures Owned(es, w', p, tenant)
    decreases p
  {
    hide Grows, Issued;
    if p.Done? {
    } else {
      OwnedGrows(es, w, w', p.next, tenant);
      match p {
        case FindNonce(nonce, _) => NonceStaysOwned(w, w', tenant, nonce);
        case NonceGuard(nonce, _) => NonceStaysOwned(w, w', tenant, nonce);
        case Save(row, _, _) => OwnershipGrows(w, w', tenant, row.id);
        case Spawn(_, id, _) => OwnershipGrows(w, w', tenant, id);
        case FindTx(id, _, _) => OwnershipGrows(w, w', tenant, id);
        case ConfirmTx(id, _, _) => OwnershipGrows(w, w', tenant, id);
        case _ =>
      }
    }
  }

  lemma SaveAndLogOwned(es: seq<Event>, w: World, row: Intent, checked: bool, event: AuditEvent, tenant: string)
    requires OwnsRow(w, tenant, row.id) && row.tenantId == tenant && event.tenantId == tenant
    ensures Owned(es, w, Save(row, checked, Log(event, Done)), tenant)
  {
    assert Owned(es, w, Log(event, Done), tenant);
  }

  lemma LogOwned(es: seq<Event>, w: World, event: AuditEvent, next: Prog, tenant: string)
    requires event.tenantId == tenant
    ensures Owned(es, w, Done, tenant)
    ensures Owned(es, w, Log(event, next), tenant) == Owned(es, w, next, tenant)
  {
  }

  lemma ExecutingOwned(es: seq<Event>, w: World, op: Op, row: Intent)
    requires op.Execute? && OwnsRow(w, op.tenant, row.id) && row.tenantId == op.tenant
    ensures Owned(es, w, ExecutingBody(op, row), op.tenant)
  {
    hide Owned, OwnsRow;
    var t := op.tenant;
    forall reason: Reason, action: Action, outcome: Outcome
      ensures Owned(es, w, FailAs(op, row, reason, action, outcome), t)
    {
      SaveAndLogOwned(es, w, FailedRow(row, reason), false, Entry(op, "system", action, outcome), t);
    }
    hide FailAs, SubmitBody;
    SubmitOwned(es, w, op, row);
    var simulated, signed := Entry(op, "system", IntentSimulated, Success), Entry(op, "system", IntentSigned, Success);
    LogOwned(es, w, signed, SubmitBody(op, row), t);
    LogOwned(es, w, simulated, Log(signed, SubmitBody(op, row)), t);
    LogOwned(es, w, simulated, FailAs(op, row, PolicyDenied, IntentPolicyDenied, Denied), t);
    LogOwned(es, w, simulated, FailAs(op, row, SigningFailed, IntentFailed, Failure), t);
  }

  lemma SubmitOwned(es: seq<Event>, w: World, op: Op, row: Intent)
    requires op.Execute? && OwnsRow(w, op.tenant, row.id) && row.tenantId == op.tenant
    ensures Owned(es, w, SubmitBody(op, row), op.tenant)
  {
    hide OwnsRow;
    SaveAndLogOwned(es, w, FailedRow(row, SubmissionFailed), false, Entry(op, "system", IntentFailed, Failure), op.tenant);
    LogOwned(es, w, Entry(op, "system", IntentSubmittedOnChain, Success), Spawn(op.tenant, row.id, Done), op.tenant);
    var spawn := Spawn(op.tenant, row.id, Done);
    assert Owned(es, w, spawn, op.tenant);
    if op.submit.Ok? && op.submit.value.success {
      var logged := Log(Entry(op, "system", IntentSubmittedOnChain, Success), spawn);
      assert Owned(es, w, logged, op.tenant);
      var p := SubmitBody(op, row);
      assert Owned(es, w, p.next.next, op.tenant);
      assert Owned(es, w, p.next, op.tenant);
    }
  }

  lemma ExecuteOwned(es: seq<Event>, w: World, op: Op, row: Intent)
    requires op.Execute? && OwnsRow(w, op.tenant, row.id) && w.rows[row.id] == row
    ensures Owned(es, w, ExecuteBody(op, row), op.tenant)
  {
    hide ExecutingBody;
    var executing := row.(status := Executing);
    var event := Entry(op, "user", IntentExecuting, Success);
    ExecutingOwned(es, w, op, executing);
    LogOwned(es, w, event, ExecutingBody(op, executing), op.tenant);
    assert Owned(es, w, Save(executing, true, Log(event, ExecutingBody(op, executing))), op.tenant);
    SaveAndLogOwned(es, w, row.(status := Expired, failureReason := Some(IntentExpired)), false,
                    Entry(op, "system", IntentExpiredEvent, Success), op.tenant);
  }

  lemma BodyOwned(es: seq<Event>, w: World, op: Op)
    requires !op.Create? && op.id in w.rows && w.rows[op.id].id == op.id
    requires op.Reconcile? ==> OwnsRow(w, op.tenant, op.id)
    ensures Owned(es, w, Body(op, w.rows[op.id]), op.tenant)
  {
    var row := w.rows[op.id];
    if row.tenantId == op.tenant {
      match op {
        case Execute(_, _, _, _, _, _, _, _, _, _) => ExecuteOwned(es, w, op, row);
        case Approve(_, _, _, _, _, _, _) =>
          ApproveOwned(es, w, op, row);
        case Reject(_, _, _, _) =>
          SaveAndLogOwned(es, w, Refused(row, RejectedByUser), true, Entry(op, op.actor, IntentRejected, Success), op.tenant);
        case Cancel(_, _, _, _) =>
          SaveAndLogOwned(es, w, Refused(row, RejectedByUser), true, Entry(op, op.actor, IntentRejected, Success), op.tenant);
        case Reconcile(_, _, _, _, _, _, _) => ReconcileOwned(es, w, op, row);
      }
    }
  }

  lemma ApproveOwned(es: seq<Event>, w: World, op: Op, row: Intent)
    requires op.Approve? && OwnsRow(w, op.tenant, row.id) && row.tenantId == op.tenant
    ensures Owned(es, w, ApproveBody(op, row), op.tenant)
  {
    hide PolicyEngine.Allows, PolicyEngine.Lookup, OwnsRow, Owned;
    SaveAndLogOwned(es, w, Refused(row, PolicyDenied), false, Entry(op, op.actor, IntentPolicyDenied, Denied), op.tenant);
    SaveAndLogOwned(es, w, Refused(row, PolicyDenied), false, Entry(op, op.actor, IntentZkDenied, Denied), op.tenant);
    SaveAndLogOwned(es, w, row.(status := Approved, approvedAt := Some(op.now)), true,
                    Entry(op, op.actor, IntentApproved, Success), op.tenant);
    LogOwned(es, w, Entry(op, op.actor, IntentFailed, Failure), Done, op.tenant);
  }

  lemma ReconcileOwned(es: seq<Event>, w: World, op: Op, row: Intent)
    requires op.Reconcile? && OwnsRow(w, op.tenant, row.id) && row.tenantId == op.tenant
    ensures Owned(es, w, ReconcileBody(op, row), op.tenant)
  {
    hide OwnsRow;
    forall reason: Reason
      ensures Owned(es, w, Save(FailedRow(row, reason), true,
        Log(AuditEvent(row.tenantId, "system", IntentFailed, row.id, op.requestId, Failure), Done)), op.tenant)
    {
      SaveAndLogOwned(es, w, FailedRow(row, reason), true,
        AuditEvent(row.tenantId, "system", IntentFailed, row.id, op.requestId, Failure), op.tenant);
    }
    var event := AuditEvent(row.tenantId, "system", IntentConfirmed, row.id, op.requestId, Success);
    assert Owned(es, w, Log(event, Done), op.tenant);
    assert Owned(es, w, ConfirmTx(row.id, op.now, Log(event, Done)), op.tenant);
  }

  lemma BeginOwned(es: seq<Event>, w: World, op: Op, fault: Fault)
    requires WorldOk(w) && SpawnsOwned(w)
    requires op.Create? ==> Issued(es, op.tenant, op.newId, op.newNonce)
    requires op.Reconcile? ==> (op.tenant, op.id) in w.spawned
    ensures Owned(es, w, Begin(w, op, fault), op.tenant)
  {
    hide Body, RowOk;
    if op.Create? {
      LogOwned(es, w, Entry(op, op.creator, IntentCreated, Success), Done, op.tenant);
    } else if op.id in w.rows {
      BodyOwned(es, w, op);
    }
  }

  lemma EffectIssued(es: seq<Event>, w: World, p: Prog, fault: Fault, tenant: string)
    requires WorldOk(w) && ProgOk(w, p) && Owned(es, w, p, tenant) && RowsIssued(es, w) && SpawnsOwned(w)
    ensures RowsIssued(es, Effect(w, p, fault)) && SpawnsOwned(Effect(w, p, fault))
  {
    hide Effect, Grows, WorldOk, ProgOk, RowsIssued, Issued;
    EffectRowsIssued(es, w, p, fault, tenant);
    EffectGrows(w, p, fault);
    EffectCalls(w, p, fault);
    var w' := Effect(w, p, fault);
    forall q | q in w'.spawned.Keys ensures OwnsRow(w', q.0, q.1) {
      OwnershipGrows(w, w', q.0, q.1);
    }
  }

  lemma EffectCalls(w: World, p: Prog, fault: Fault)
    ensures Effect(w, p, fault).spawned.Keys == w.spawned.Keys + (if p.Spawn? then {(p.tenant, p.id)} else {})
  {
    hide ConfirmFirst, NonceTaken;
  }

  lemma EffectRowsIssued(es: seq<Event>, w: World, p: Prog, fault: Fault, tenant: string)
    requires WorldOk(w) && ProgOk(w, p) && Owned(es, w, p, tenant) && RowsIssued(es, w)
    ensures RowsIssued(es, Effect(w, p, fault))
  {
    hide RowOk, Issued, SubmissionOk, TxOk, NonceTaken, ConfirmFirst;
    if p.Save? {
      SameCore(p.row, w.rows[p.row.id]);
    }
  }

  lemma NextIsolationOk(es: seq<Event>, sys: Sys, k: nat)
    requires k < |es| && IsolationOk(es, sys)
    ensures IsolationOk(es, Next(sys, es[k]))
  {
    hide SysOk, RowsIssued, SpawnsOwned, Owned, Issued, Begin, Effect, Rest, WorldOk, ProgOk, Grows;
    var e := es[k];
    var sys' := Next(sys, e);
    NextOk(sys, e);
    if e.Tick? && e.tid in sys.threads {
      UnfoldSysOk(sys, e.tid);
      match sys.threads[e.tid] {
        case Ready(op) => BeginOwned(es, sys.w, op, e.fault);
        case Running(op, p) =>
          EffectIssued(es, sys.w, p, e.fault, e.tid.tenant);
          RestOwned(es, sys.w, p, e.fault, e.tid.tenant);
      }
      SpawnedGrows(sys, e);
      forall t | t in sys'.threads ensures ThreadOwned(es, sys'.w, t, sys'.threads[t]) {
        assert ThreadOwned(es, sys.w, t, sys.threads[t]);
        if sys'.threads[t].Running? {
          if t != e.tid {
            OwnedGrows(es, sys.w, sys'.w, sys'.threads[t].prog, t.tenant);
          } else if sys.threads[t].Running? {
            OwnedGrows(es, sys.w, sys'.w, sys'.threads[t].prog, t.tenant);
          }
        }
      }
    } else if e.Start? {
      if e.op.Create? {
        IssuedHere(es, k);
      }
      LaunchedOwned(es, sys.w, e.op);
      NoStartNoChange(sys, e);
      forall t | t in sys.threads ensures ThreadOwned(es, sys'.w, t, sys.threads[t]) {
        assert ThreadOwned(es, sys.w, t, sys.threads[t]);
        if sys.threads[t].Running? {
          OwnedGrows(es, sys.w, sys'.w, sys.threads[t].prog, t.tenant);
        }
      }
    } else {
      DoneOwned(es, sys.w, e.tid.tenant);
    }
  }

  lemma NoStartNoChange(sys: Sys, e: Event)
    requires e.Start?
    ensures Next(sys, e).w == sys.w || Next(sys, e).w == Launched(sys.w, e.op)
    ensures Grows(sys.w, sys.w) && Grows(sys.w, Launched(sys.w, e.op))
  {
    hide Core;
  }

  lemma LaunchedOwned(es: seq<Event>, w: World, op: Op)
    requires RowsIssued(es, w) && SpawnsOwned(w)
    ensures RowsIssued(es, Launched(w, op)) && SpawnsOwned(Launched(w, op))
    ensures w.spawned.Keys <= Launched(w, op).spawned.Keys
    ensures op.Reconcile? && Waiting(w.spawned, op.tenant, op.id) > 0 ==> (op.tenant, op.id) in w.spawned
  {
    hide Issued;
  }

  lemma IssuedHere(es: seq<Event>, k: nat)
    requires k < |es| && Creates(es[k])
    ensures Issued(es, es[k].op.tenant, es[k].op.newId, es[k].op.newNonce)
  {
    assert IssuedAt(es, k, es[k].op.tenant, es[k].op.newId, es[k].op.newNonce);
  }

  lemma DoneOwned(es: seq<Event>, w: World, tenant: string)
    ensures Owned(es, w, Done, tenant)
  {
  }

  lemma UnfoldSysOk(sys: Sys, tid: Tid)
    requires SysOk(sys) && tid in sys.threads
    ensures WorldOk(sys.w) && (sys.threads[tid].Running? ==> ProgOk(sys.w, sys.threads[tid].prog))
  {
  }

  lemma RestOwned(es: seq<Event>, w: World, p: Prog, fault: Fault, tenant: string)
    requires Owned(es, w, p, tenant)
    ensures Owned(es, w, Rest(w, p, fault), tenant)
  {
  }

  lemma SpawnedGrows(sys: Sys, e: Event)
    ensures sys.w.spawned.Keys <= Next(sys, e).w.spawned.Keys
  {
  }

  // ------------------------------------------------- projection of one step

  lemma TxsOfCons(t: Transaction, rest: seq<Transaction>, tenant: string)
    ensures TxsOf([t] + rest, tenant) == if t.tenantId == tenant then [t] + TxsOf(rest, tenant) else TxsOf(rest, tenant)
  {
    assert ([t] + rest)[1..] == rest;
  }

  lemma {:induction false} TxsOfSnoc(txs: seq<Transaction>, t: Transaction, tenant: string)
    ensures TxsOf(txs + [t], tenant) == if t.tenantId == tenant then TxsOf(txs, tenant) + [t] else TxsOf(txs, tenant)
  {
    if |txs| == 0 {
      assert txs + [t] == [t] + [];
      TxsOfCons(t, [], tenant);
    } else {
      assert txs + [t] == [txs[0]] + (txs[1..] + [t]);
      TxsOfCons(txs[0], txs[1..] + [t], tenant);
      TxsOfSnoc(txs[1..], t, tenant);
    }
  }

  lemma ConfirmFirstCons(t: Transaction, rest: seq<Transaction>, id: string, now: int)
    requires t.intentId != id
    ensures ConfirmFirst([t] + rest, id, now) == [t] + ConfirmFirst(rest, id, now)
  {
    assert ([t] + rest)[1..] == rest;
  }

  lemma LogOfSnoc(log: seq<AuditEvent>, e: AuditEvent, tenant: string)
    ensures LogOf(log + [e], tenant) == LogOf(log, tenant) + (if e.tenantId == tenant then [e] else [])
  {
    assert (log + [e])[..|log|] == log;
  }

  lemma SubmissionsOfSnoc(s: seq<Submission>, x: Submission, tenant: string)
    ensures SubmissionsOf(s + [x], tenant) == SubmissionsOf(s, tenant) + (if x.row.tenantId == tenant then [x] else [])
  {
    assert (s + [x])[..|s|] == s;
  }

  /** Confirming an intent's record is confirming it among its tenant's records, and is invisible
      to every other tenant. */
  lemma {:induction false} ConfirmFirstProjects(txs: seq<Transaction>, id: string, now: int, owner: string, tenant: string)
    requires forall i :: 0 <= i < |txs| && txs[i].intentId == id ==> txs[i].tenantId == owner
    ensures TxsOf(ConfirmFirst(txs, id, now), tenant)
         == if owner == tenant then ConfirmFirst(TxsOf(txs, tenant), id, now) else TxsOf(txs, tenant)
  {
    if |txs| == 0 {
    } else {
      var t, rest := txs[0], txs[1..];
      assert txs == [t] + rest;
      TxsOfCons(t, rest, tenant);
      if t.intentId == id {
        TxsOfCons(t.(status := TxConfirmed, confirmedAt := Some(now)), rest, tenant);
      } else {
        ConfirmFirstProjects(rest, id, now, owner, tenant);
        ConfirmFirstCons(t, rest, id, now);
        TxsOfCons(t, ConfirmFirst(rest, id, now), tenant);
        ConfirmFirstCons(t, TxsOf(rest, tenant), id, now);
      }
    }
  }

  /** An insertion by one tenant cannot meet another tenant's id or nonce. */
  lemma InsertProjects(es: seq<Event>, w: World, row: Intent, tenant: string)
    requires IdsDiffer(es) && RowsIssued(es, w) && RowsOk(w) && row.tenantId == tenant
    requires Issued(es, tenant, row.id, row.nonce)
    ensures row.id in w.rows <==> row.id in RowsOf(w.rows, tenant)
    ensures row.id in w.rows ==> w.rows[row.id].tenantId == tenant
    ensures NonceTaken(w, row.nonce) <==> NonceTaken(WorldOf(w, tenant), row.nonce)
  {
    hide RowOk;
    var k :| IssuedAt(es, k, tenant, row.id, row.nonce);
    forall id | id in w.rows && w.rows[id].tenantId != tenant
      ensures id != row.id && w.rows[id].nonce != row.nonce
    {
      var j :| IssuedAt(es, j, w.rows[id].tenantId, id, w.rows[id].nonce);
    }
    if NonceTaken(w, row.nonce) {
      var id :| id in w.rows && w.rows[id].nonce == row.nonce;
      assert id in WorldOf(w, tenant).rows;
    }
  }

  /** A record of one of the tenant's intents is one of the tenant's records. */
  lemma {:induction false} TxsOfContains(txs: seq<Transaction>, i: nat, tenant: string)
    requires i < |txs| && txs[i].tenantId == tenant
    ensures txs[i] in TxsOf(txs, tenant)
  {
    if i == 0 {
    } else {
      TxsOfContains(txs[1..], i - 1, tenant);
    }
  }

  lemma {:induction false} TxsOfSubset(txs: seq<Transaction>, tenant: string, t: Transaction)
    requires t in TxsOf(txs, tenant)
    ensures t in txs
  {
    if txs[0].tenantId == tenant && t == txs[0] {
    } else {
      TxsOfSubset(txs[1..], tenant, t);
    }
  }

  /** A nonce lookup never crosses tenants. */
  lemma NonceLookupProjects(w: World, nonce: string, tenant: string)
    requires WorldOk(w) && OwnsNonce(w, tenant, nonce)
    ensures HasTxForNonce(w, nonce) <==> HasTxForNonce(WorldOf(w, tenant), nonce)
  {
    hide RowOk, SubmissionOk;
    var own :| OwnsRow(w, tenant, own) && w.rows[own].nonce == nonce;
    var v := WorldOf(w, tenant);
    if HasTxForNonce(w, nonce) {
      var i :| 0 <= i < |w.txs| && w.txs[i].intentId in w.rows && w.rows[w.txs[i].intentId].nonce == nonce;
      assert TxOk(w, w.txs[i]) && w.txs[i].intentId == own;
      TxsOfContains(w.txs, i, tenant);
      var j :| 0 <= j < |v.txs| && v.txs[j] == w.txs[i];
      assert v.txs[j].intentId in v.rows;
    }
    if HasTxForNonce(v, nonce) {
      var j :| 0 <= j < |v.txs| && v.txs[j].intentId in v.rows && v.rows[v.txs[j].intentId].nonce == nonce;
      TxsOfSubset(w.txs, tenant, v.txs[j]);
      var i :| 0 <= i < |w.txs| && w.txs[i] == v.txs[j];
      assert w.txs[i].intentId in w.rows;
    }
  }

  /** A lookup of the own nonce, or of a record of an own intent, answers alike on the tenant's part. */
  lemma OwnLookupsProject(w: World, tenant: string)
    requires WorldOk(w)
    ensures forall nonce :: OwnsNonce(w, tenant, nonce) ==> NonceTaken(w, nonce) && NonceTaken(WorldOf(w, tenant), nonce)
    ensures forall id :: OwnsRow(w, tenant, id) ==> (HasTx(w, id) <==> HasTx(WorldOf(w, tenant), id))
  {
    hide RowOk, SubmissionOk;
    var v := WorldOf(w, tenant);
    forall nonce | OwnsNonce(w, tenant, nonce) ensures NonceTaken(w, nonce) && NonceTaken(v, nonce) {
      var own :| OwnsRow(w, tenant, own) && w.rows[own].nonce == nonce;
      assert own in v.rows;
    }
    forall id | OwnsRow(w, tenant, id) ensures HasTx(w, id) <==> HasTx(v, id) {
      if HasTx(w, id) {
        var i :| 0 <= i < |w.txs| && w.txs[i].intentId == id;
        assert TxOk(w, w.txs[i]);
        TxsOfContains(w.txs, i, tenant);
        var j :| 0 <= j < |v.txs| && v.txs[j] == w.txs[i];
      }
      if HasTx(v, id) {
        var j :| 0 <= j < |v.txs| && v.txs[j].intentId == id;
        TxsOfSubset(w.txs, tenant, v.txs[j]);
        var i :| 0 <= i < |w.txs| && w.txs[i] == v.txs[j];
      }
    }
  }

  lemma EffectProjects(es: seq<Event>, w: World, p: Prog, fault: Fault, owner: string, tenant: string)
    requires IdsDiffer(es) && WorldOk(w) && ProgOk(w, p) && RowsIssued(es, w) && Owned(es, w, p, owner)
    ensures WorldOf(Effect(w, p, fault), tenant)
         == if owner == tenant then Effect(WorldOf(w, tenant), p, fault) else WorldOf(w, tenant)
  {
    hide RowsOk, NoncesUnique, SubmissionOk, TxOk, Issued, IdsDiffer, RowsIssued, ProgOk, NonceTaken, RowsOf, LogOf, SubmissionsOf;
    hide TxsOf, SpawnedOf, ConfirmFirst;
    match p {
      case Insert(row, _) => InsertProjects(es, w, row, owner); InsertedRows(w.rows, row, tenant);
      case Save(row, _, _) => InsertedRows(w.rows, row, tenant);
      case Log(event, _) => LogOfSnoc(w.log, event, tenant);
      case Submit(s, _) => SubmissionsOfSnoc(w.submissions, s, tenant);
      case InsertTx(tx, _) => TxsOfSnoc(w.txs, tx, tenant);
      case Spawn(t, id, _) => SpawnedOfAdd(w.spawned, t, id, Waiting(w.spawned, t, id) + 1, tenant);
      case ConfirmTx(id, now, _) => RecordsAreOwned(w, id, owner); ConfirmFirstProjects(w.txs, id, now, owner, tenant);
      case _ =>
    }
  }

  lemma SpawnedOfAdd(spawned: map<(string, string), nat>, t: string, id: string, n: nat, tenant: string)
    ensures SpawnedOf(spawned[(t, id) := n], tenant)
         == if t == tenant then SpawnedOf(spawned, tenant)[(t, id) := n] else SpawnedOf(spawned, tenant)
    ensures Waiting(SpawnedOf(spawned, t), t, id) == Waiting(spawned, t, id)
  {
  }

  lemma RecordsAreOwned(w: World, id: string, owner: string)
    requires WorldOk(w) && OwnsRow(w, owner, id)
    ensures forall i :: 0 <= i < |w.txs| && w.txs[i].intentId == id ==> w.txs[i].tenantId == owner
  {
    hide RowOk, SubmissionOk;
    forall i | 0 <= i < |w.txs| && w.txs[i].intentId == id ensures w.txs[i].tenantId == owner {
      assert TxOk(w, w.txs[i]);
    }
  }

  lemma InsertedRows(rows: map<string, Intent>, row: Intent, tenant: string)
    requires row.id in rows ==> rows[row.id].tenantId == row.tenantId
    ensures RowsOf(rows[row.id := row], tenant)
         == if row.tenantId == tenant then RowsOf(rows, tenant)[row.id := row] else RowsOf(rows, tenant)
  {
  }

  lemma RestProjects(es: seq<Event>, w: World, p: Prog, fault: Fault, tenant: string)
    requires IdsDiffer(es) && WorldOk(w) && ProgOk(w, p) && RowsIssued(es, w) && Owned(es, w, p, tenant)
    ensures Rest(w, p, fault) == Rest(WorldOf(w, tenant), p, fault)
  {
    hide RowOk, SubmissionOk, Issued, IdsDiffer, HasTxForNonce, NonceTaken, HasTx;
    match p {
      case Insert(row, _) => InsertProjects(es, w, row, tenant);
      case FindNonce(nonce, _) => OwnLookupsProject(w, tenant);
      case NonceGuard(nonce, _) => NonceLookupProjects(w, nonce, tenant);
      case FindTx(id, _, _) => OwnLookupsProject(w, tenant);
      case _ =>
    }
  }

  lemma BeginProjects(w: World, op: Op, fault: Fault)
    requires SpawnsOwned(w) && (op.Reconcile? ==> (op.tenant, op.id) in w.spawned)
    ensures Begin(w, op, fault) == Begin(WorldOf(w, op.tenant), op, fault)
  {
    hide ApproveBody, ExecuteBody, RejectBody, ReconcileBody, CreateBody, Acceptable;
    if op.Create? {
      if Duplicate(w, op) {
        var id :| id in w.rows && SameRequest(w.rows[id], op);
        assert id in WorldOf(w, op.tenant).rows;
      }
    } else if op.id in w.rows && w.rows[op.id].tenantId != op.tenant {
      ForeignBodyIsDone(op, w.rows[op.id]);
    }
  }

  lemma ForeignBodyIsDone(op: Op, row: Intent)
    requires !op.Create? && !op.Reconcile? && row.tenantId != op.tenant
    ensures Body(op, row) == Done
  {
  }

  // --------------------------------------------------------- the theorem

  lemma NextProjects(es: seq<Event>, sys: Sys, e: Event, tenant: string)
    requires IdsDiffer(es) && IsolationOk(es, sys)
    ensures Project(Next(sys, e), tenant)
         == if e.tid.tenant == tenant then Next(Project(sys, tenant), e) else Project(sys, tenant)
  {
    hide IdsDiffer, SysOk, RowsIssued, SpawnsOwned, Owned, Issued, Begin, Effect, Rest, WorldOk, ProgOk, WorldOf;
    var sys', mine := Next(sys, e), e.tid.tenant == tenant;
    match e {
      case Start(tid, op) =>
        SpawnedProjects(sys.w, op.tenant, op);
        LaunchedProjects(sys.w, op, tenant);
        if Startable(sys, tid, op) {
          ThreadsUpdated(sys.threads, tid, Ready(op), tenant);
        }
      case Crash(tid) =>
        if tid in sys.threads {
          ThreadsUpdated(sys.threads, tid, Running(sys.threads[tid].op, Done), tenant);
        }
      case Tick(tid, fault) =>
        if tid in sys.threads {
          UnfoldSysOk(sys, tid);
          assert ThreadOwned(es, sys.w, tid, sys.threads[tid]);
          ThreadsUpdated(sys.threads, tid, sys'.threads[tid], tenant);
          match sys.threads[tid] {
            case Ready(op) => BeginProjects(sys.w, op, fault);
            case Running(op, p) =>
              EffectProjects(es, sys.w, p, fault, tid.tenant, tenant);
              RestProjects(es, sys.w, p, fault, tid.tenant);
          }
        }
    }
  }

  lemma SpawnedProjects(w: World, tenant: string, op: Op)
    ensures op.Reconcile? ==> Waiting(w.spawned, tenant, op.id) == Waiting(WorldOf(w, tenant).spawned, tenant, op.id)
  {
  }

  lemma LaunchedProjects(w: World, op: Op, tenant: string)
    ensures WorldOf(Launched(w, op), tenant)
         == if op.tenant == tenant then Launched(WorldOf(w, tenant), op) else WorldOf(w, tenant)
  {
    hide SpawnedOf;
    if op.Reconcile? && Waiting(w.spawned, op.tenant, op.id) > 0 {
      SpawnedOfAdd(w.spawned, op.tenant, op.id, Waiting(w.spawned, op.tenant, op.id) - 1, tenant);
    }
    SpawnedOfAdd(w.spawned, op.tenant, Target(op), 0, tenant);
  }

  lemma ThreadsUpdated(threads: map<Tid, Thread>, tid: Tid, t: Thread, tenant: string)
    ensures ThreadsOf(threads[tid := t], tenant)
         == if tid.tenant == tenant then ThreadsOf(threads, tenant)[tid := t] else ThreadsOf(threads, tenant)
  {
  }

  lemma InitialIsolated(es: seq<Event>, tenant: string)
    ensures IsolationOk(es, INITIAL) && Project(INITIAL, tenant) == INITIAL
  {
    InitialOk();
  }

  lemma OnlySnoc(es: seq<Event>, e: Event, tenant: string)
    ensures Only(es + [e], tenant) == if e.tid.tenant == tenant then Only(es, tenant) + [e] else Only(es, tenant)
  {
    assert (es + [e])[..|es|] == es;
  }

  lemma EmptyRun(sys: Sys, es: seq<Event>, tenant: string)
    requires |es| == 0
    ensures Run(sys, es) == sys && Only(es, tenant) == es
  {
  }

  lemma {:induction false} PrefixProjects(es: seq<Event>, n: nat, tenant: string)
    requires IdsDiffer(es) && n <= |es|
    ensures IsolationOk(es, Run(INITIAL, es[..n]))
    ensures Project(Run(INITIAL, es[..n]), tenant) == Run(INITIAL, Only(es[..n], tenant))
    decreases n
  {
    hide IdsDiffer, IsolationOk, Project, Next, Run, Only;
    InitialIsolated(es, tenant);
    if n == 0 {
      EmptyRun(INITIAL, es[..0], tenant);
    } else {
      var before, e := Run(INITIAL, es[..n - 1]), es[n - 1];
      PrefixProjects(es, n - 1, tenant);
      NextIsolationOk(es, before, n - 1);
      NextProjects(es, before, e, tenant);
      OnlySnoc(es[..n - 1], e, tenant);
      assert es[..n] == es[..n - 1] + [e];
      RunSnoc(INITIAL, es[..n - 1], e);
      RunSnoc(INITIAL, Only(es[..n - 1], tenant), e);
    }
  }

  /** If ids and nonces generated for different tenants differ, then in every run one tenant's part
      of the system is what the run of that tenant's events alone produces. */
  lemma TenantPurge(es: seq<Event>, tenant: string)
    requires IdsDiffer(es)
    ensures Project(Run(INITIAL, es), tenant) == Run(INITIAL, Only(es, tenant))
  {
    PrefixProjects(es, |es|, tenant);
    assert es[..|es|] == es;
  }
}
