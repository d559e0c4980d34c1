/** What every stored row, record and submission satisfies in every run of the machine, with any
    interleaving of handlers, any database faults and any handler stopping anywhere. */
module Invariants {
  import opened Wrappers
  import opened Domain
  import opened Workflow
  import Decimal
  import PolicyEngine
  import ZkProof

  function AmountOf(row: Intent): int {
    Decimal.IntentAmount(row.amount)
  }

  /** The stored string is the decimal form of an amount that validation accepts. */
  predicate GoodAmount(amount: string) {
    var n := Decimal.IntentAmount(amount);
    1 <= n <= Decimal.MAX_INT64 / 2 && amount == Decimal.AmountToString(n)
  }

  predicate RowOk(row: Intent) {
    && GoodAmount(row.amount)
    && row.approvers == [] && row.expiry == row.createdAt + INTENT_LIFETIME
    && (row.failureReason.Some? <==> row.status in {Rejected, Expired, Failed})
    && (row.status !in {Pending, Rejected} ==> row.approvedAt.Some?)
    && (row.approvedAt.Some? ==> AmountOf(row) <= APPROVAL_LIMIT)
    && (row.status in {Submitted, Confirmed} ==> row.executedAt.Some?)
    && (row.status == Confirmed ==> row.txSignature != "" && row.confirmedAt.Some?)
  }

  /** The row is stored, with the same creation columns. */
  predicate Known(w: World, row: Intent) {
    row.id in w.rows && Core(w.rows[row.id]) == Core(row)
  }

  predicate SubmissionOk(w: World, s: Submission) {
    && Known(w, s.row) && RowOk(s.row) && s.row.status == Executing
    && PolicyEngine.Allows(s.policy, s.row)
    && s.payload == PayloadOf(s.row, s.payload.blockhash)
    && s.checkedAt <= s.row.expiry
  }

  predicate TxOk(w: World, tx: Transaction) {
    && tx.intentId in w.rows
    && w.rows[tx.intentId].tenantId == tx.tenantId && w.rows[tx.intentId].walletId == tx.walletId
    && tx.payload == PayloadOf(w.rows[tx.intentId], tx.payload.blockhash)
  }

  /** Everything a handler may still write is fit to be stored. */
  predicate ProgOk(w: World, p: Prog) {
    match p
    case Done => true
    case Insert(row, next) => RowOk(row) && row.status == Pending && ProgOk(w, next)
    case Save(row, _, next) => RowOk(row) && Known(w, row) && ProgOk(w, next)
    case Submit(s, next) => SubmissionOk(w, s) && ProgOk(w, next)
    case InsertTx(tx, next) => TxOk(w, tx) && ProgOk(w, next)
    case _ => ProgOk(w, p.next)
  }

  predicate RowsOk(w: World) {
    forall id :: id in w.rows ==> w.rows[id].id == id && RowOk(w.rows[id])
  }

  predicate NoncesUnique(w: World) {
    forall a, b :: a in w.rows && b in w.rows && w.rows[a].nonce == w.rows[b].nonce ==> a == b
  }

  predicate WorldOk(w: World) {
    && RowsOk(w) && NoncesUnique(w)
    && (forall i :: 0 <= i < |w.submissions| ==> SubmissionOk(w, w.submissions[i]))
    && (forall i :: 0 <= i < |w.txs| ==> TxOk(w, w.txs[i]))
  }

  predicate SysOk(sys: Sys) {
    && WorldOk(sys.w)
    && (forall t :: t in sys.threads && sys.threads[t].Running? ==> ProgOk(sys.w, sys.threads[t].prog))
  }

  /** Rows are never lost and never change a creation column. */
  predicate Grows(w: World, w': World) {
    forall id :: id in w.rows ==> id in w'.rows && Core(w.rows[id]) == Core(w'.rows[id])
  }

  lemma {:induction false} ProgOkGrows(w: World, w': World, p: Prog)
    requires Grows(w, w') && ProgOk(w, p)
    ensures ProgOk(w', p)
    decreases p
  {
    if p.Done? {
    } else {
      ProgOkGrows(w, w', p.next);
      if p.InsertTx? {
        SameCore(w.rows[p.tx.intentId], w'.rows[p.tx.intentId]);
      }
    }
  }

  lemma SameCore(a: Intent, b: Intent)
    requires Core(a) == Core(b)
    ensures a.id == b.id && a.tenantId == b.tenantId && a.walletId == b.walletId && a.nonce == b.nonce
    ensures a.amount == b.amount && a.token == b.token && a.destination == b.destination && a.createdAt == b.createdAt
  {
    assert a.id == Core(a).id && b.id == Core(b).id;
  }

  /** The edits that handlers make leave the creation columns alone. */
  lemma EditKeepsCore(row: Intent, edited: Intent)
    requires edited == row.(status := edited.status, failureReason := edited.failureReason,
      txSignature := edited.txSignature, approvedAt := edited.approvedAt, executedAt := edited.executedAt,
      confirmedAt := edited.confirmedAt)
    ensures Core(edited) == Core(row)
  {
  }

  lemma EffectGrows(w: World, p: Prog, fault: Fault)
    requires WorldOk(w) && ProgOk(w, p)
    ensures Grows(w, Effect(w, p, fault))
  {
    hide RowOk, SubmissionOk, TxOk, Core;
  }

  lemma ConfirmFirstKeeps(txs: seq<Transaction>, id: string, now: int, i: nat)
    requires i < |txs|
    ensures var t := ConfirmFirst(txs, id, now)[i];
            t == txs[i].(status := t.status, confirmedAt := t.confirmedAt)
  {
    if i > 0 && txs[0].intentId != id {
      ConfirmFirstKeeps(txs[1..], id, now, i - 1);
    }
  }

  lemma RowsOkStep(w: World, p: Prog, fault: Fault)
    requires WorldOk(w) && ProgOk(w, p)
    ensures RowsOk(Effect(w, p, fault)) && NoncesUnique(Effect(w, p, fault))
  {
    hide RowOk;
    if p.Save? {
      SameCore(p.row, w.rows[p.row.id]);
    }
  }

  lemma SubmissionsOkStep(w: World, p: Prog, fault: Fault)
    requires WorldOk(w) && ProgOk(w, p)
    ensures var w' := Effect(w, p, fault);
            forall i :: 0 <= i < |w'.submissions| ==> SubmissionOk(w', w'.submissions[i])
  {
    hide RowOk, TxOk, ConfirmFirst, NonceTaken;
    EffectGrows(w, p, fault);
    var w' := Effect(w, p, fault);
    forall i | 0 <= i < |w'.submissions| ensures SubmissionOk(w', w'.submissions[i]) {
      assert SubmissionOk(w, w'.submissions[i]);
    }
  }

  lemma TablesOkStep(w: World, p: Prog, fault: Fault)
    requires WorldOk(w) && ProgOk(w, p)
    ensures var w' := Effect(w, p, fault);
            forall i :: 0 <= i < |w'.txs| ==> TxOk(w', w'.txs[i])
  {
    hide RowOk, SubmissionOk, ConfirmFirst, NonceTaken;
    EffectGrows(w, p, fault);
    var w' := Effect(w, p, fault);
    forall i | 0 <= i < |w'.txs| ensures TxOk(w', w'.txs[i]) {
      var t := w'.txs[i];
      if p.ConfirmTx? && !fault.Lost? {
        ConfirmFirstKeeps(w.txs, p.id, p.now, i);
      }
      assert TxOk(w, t);
      SameCore(w.rows[t.intentId], w'.rows[t.intentId]);
    }
  }

  lemma StepOk(w: World, p: Prog, fault: Fault)
    requires WorldOk(w) && ProgOk(w, p)
    ensures WorldOk(Effect(w, p, fault)) && Grows(w, Effect(w, p, fault))
    ensures ProgOk(Effect(w, p, fault), Rest(w, p, fault))
  {
    hide Effect, Grows, SubmissionOk, TxOk, RowsOk, NoncesUnique, Known;
    EffectGrows(w, p, fault);
    RowsOkStep(w, p, fault);
    SubmissionsOkStep(w, p, fault);
    TablesOkStep(w, p, fault);
    assert ProgOk(w, Rest(w, p, fault));
    ProgOkGrows(w, Effect(w, p, fault), Rest(w, p, fault));
  }

  // --------------------------------------------------------- the programs

  lemma CreateOk(w: World, op: Op)
    requires op.Create? && Acceptable(op)
    ensures ProgOk(w, CreateBody(op))
  {
    Decimal.StoredAmountsReadBack(op.amount);
  }

  /** The simulator's own parser reads every stored amount back, and finds it positive: it can
      neither fail nor deny. */
  lemma SimulationAlwaysAllows(row: Intent)
    requires RowOk(row)
    ensures Decimal.ParseInt64(row.amount) == Ok(AmountOf(row)) && AmountOf(row) > 0
    ensures Decimal.ParseBig(row.amount) == Some(AmountOf(row))
  {
    Decimal.StoredAmountsReadBack(AmountOf(row));
  }

  /** Past the proof generator's guard the amount is within the approval limit. */
  lemma GuardLimitsAmount(row: Intent)
    requires RowOk(row) && ZkProof.CanGenerate(row.amount, APPROVAL_LIMIT)
    ensures AmountOf(row) <= APPROVAL_LIMIT
  {
    ZkProof.GuardComparesAmounts(AmountOf(row), APPROVAL_LIMIT);
  }

  lemma SaveAndLogOk(w: World, row: Intent, edited: Intent, checked: bool, event: AuditEvent)
    requires Known(w, row) && Core(edited) == Core(row) && RowOk(edited)
    ensures ProgOk(w, Save(edited, checked, Log(event, Done))) && Known(w, edited)
  {
    assert ProgOk(w, Log(event, Done));
    SameCore(row, edited);
  }

  lemma LogOk(w: World, event: AuditEvent, next: Prog)
    ensures ProgOk(w, Done)
    ensures ProgOk(w, Log(event, next)) == ProgOk(w, next)
  {
  }

  lemma ApproveOk(w: World, op: Op, row: Intent)
    requires op.Approve? && RowOk(row) && Known(w, row)
    ensures ProgOk(w, ApproveBody(op, row))
  {
    hide GoodAmount, ProgOk, Known, PolicyEngine.Allows, PolicyEngine.Lookup, ZkProof.CanGenerate;
    LogOk(w, Entry(op, op.actor, IntentFailed, Failure), Done);
    if row.tenantId == op.tenant && row.status == Pending {
      var refused := Refused(row, PolicyDenied);
      EditKeepsCore(row, refused);
      SaveAndLogOk(w, row, refused, false, Entry(op, op.actor, IntentPolicyDenied, Denied));
      SaveAndLogOk(w, row, refused, false, Entry(op, op.actor, IntentZkDenied, Denied));
      if ZkProof.CanGenerate(row.amount, APPROVAL_LIMIT) {
        GuardLimitsAmount(row);
        var approved := row.(status := Approved, approvedAt := Some(op.now));
        EditKeepsCore(row, approved);
        SaveAndLogOk(w, row, approved, true, Entry(op, op.actor, IntentApproved, Success));
      }
    }
  }

  lemma AllowsIgnoresLifecycle(env: PolicyEngine.Env, a: Intent, b: Intent)
    requires Core(a) == Core(b)
    ensures PolicyEngine.Allows(env, a) == PolicyEngine.Allows(env, b)
  {
    assert a.amount == Core(a).amount && b.amount == Core(b).amount;
    assert a.walletId == Core(a).walletId && b.walletId == Core(b).walletId;
    assert a.destination == Core(a).destination && b.destination == Core(b).destination;
    assert a.token == Core(a).token && b.token == Core(b).token;
    assert a.approvers == Core(a).approvers && b.approvers == Core(b).approvers;
    PolicyEngine.NormalForm(env, a);
    PolicyEngine.NormalForm(env, b);
  }

  lemma ExecuteOk(w: World, op: Op, row: Intent)
    requires op.Execute? && RowOk(row) && Known(w, row) && RowsOk(w)
    ensures ProgOk(w, ExecuteBody(op, row))
  {
    hide GoodAmount, Known, ExecutingBody;
    if row.tenantId == op.tenant && row.status == Approved {
      var expired := row.(status := Expired, failureReason := Some(IntentExpired));
      EditKeepsCore(row, expired);
      SaveAndLogOk(w, row, expired, false, Entry(op, "system", IntentExpiredEvent, Success));
      if op.checkedAt <= row.expiry {
        var executing := row.(status := Executing);
        EditKeepsCore(row, executing);
        SaveAndLogOk(w, row, executing, true, Entry(op, "user", IntentExecuting, Success));
        ExecutingOk(w, op, executing);
        var event := Entry(op, "user", IntentExecuting, Success);
        LogOk(w, event, ExecutingBody(op, executing));
        assert ProgOk(w, Save(executing, true, Log(event, ExecutingBody(op, executing))));
      }
    }
  }

  lemma FailAsOk(w: World, op: Op, row: Intent, reason: Reason, action: Action, outcome: Outcome)
    requires RowOk(row) && row.status == Executing && Known(w, row)
    ensures ProgOk(w, FailAs(op, row, reason, action, outcome))
  {
    hide GoodAmount, Known, ProgOk;
    EditKeepsCore(row, FailedRow(row, reason));
    SaveAndLogOk(w, row, FailedRow(row, reason), false, Entry(op, "system", action, outcome));
  }

  lemma ExecutingOk(w: World, op: Op, row: Intent)
    requires op.Execute? && RowOk(row) && row.status == Executing && Known(w, row) && RowsOk(w)
    requires op.checkedAt <= row.expiry && row.tenantId == op.tenant
    ensures ProgOk(w, ExecutingBody(op, row))
  {
    hide FailAs, PolicyEngine.Allows, Decimal.ParseInt64, SubmitBody, RowOk, Known, RowsOk, ProgOk;
    FailAsOk(w, op, row, SimulationFailed, IntentFailed, Failure);
    FailAsOk(w, op, row, SimulationFailed, IntentSimulated, SimulationDenied);
    FailAsOk(w, op, row, PolicyDenied, IntentPolicyDenied, Denied);
    FailAsOk(w, op, row, SigningFailed, IntentFailed, Failure);
    LogOk(w, Entry(op, "system", IntentSigned, Success), SubmitBody(op, row));
    var simulated := Entry(op, "system", IntentSimulated, Success);
    LogOk(w, simulated, FailAs(op, row, PolicyDenied, IntentPolicyDenied, Denied));
    LogOk(w, simulated, FailAs(op, row, SigningFailed, IntentFailed, Failure));
    LogOk(w, simulated, Log(Entry(op, "system", IntentSigned, Success), SubmitBody(op, row)));
    if PolicyEngine.Allows(op.policy, row) {
      SubmitOk(w, op, row);
    }
  }

  lemma SubmitOk(w: World, op: Op, row: Intent)
    requires op.Execute? && RowOk(row) && row.status == Executing && Known(w, row) && RowsOk(w)
    requires op.checkedAt <= row.expiry && row.tenantId == op.tenant && PolicyEngine.Allows(op.policy, row)
    ensures ProgOk(w, SubmitBody(op, row))
  {
    hide FailAs, PolicyEngine.Allows, GoodAmount;
    FailAsOk(w, op, row, SubmissionFailed, IntentFailed, Failure);
    if op.submit.Ok? && op.submit.value.success {
      var signature := op.submit.value.signature;
      var payload := PayloadOf(row, BlockhashUsed(op));
      var tx := Transaction(op.txId, row.id, op.tenant, row.walletId, payload, TxSubmitted, op.now, None, signature);
      RecordOk(w, row, tx, op);
      var submitted := row.(status := Submitted, executedAt := Some(op.now), txSignature := signature);
      EditKeepsCore(row, submitted);
      SameCore(row, submitted);
    }
  }

  lemma RecordOk(w: World, row: Intent, tx: Transaction, op: Op)
    requires op.Execute? && Known(w, row) && RowsOk(w) && row.tenantId == op.tenant
    requires tx.intentId == row.id && tx.tenantId == op.tenant && tx.walletId == row.walletId
    requires tx.payload == PayloadOf(row, BlockhashUsed(op))
    ensures ProgOk(w, InsertTx(tx, Log(Entry(op, "system", IntentSubmittedOnChain, Success), Spawn(op.tenant, row.id, Done))))
  {
    hide RowOk;
    assert w.rows[row.id].id == row.id;
    SameCore(row, w.rows[row.id]);
    LogOk(w, Entry(op, "system", IntentSubmittedOnChain, Success), Spawn(op.tenant, row.id, Done));
  }

  lemma RejectOk(w: World, op: Op, row: Intent)
    requires (op.Reject? || op.Cancel?) && RowOk(row) && Known(w, row)
    ensures ProgOk(w, RejectBody(op, row))
  {
    hide GoodAmount, Known, ProgOk;
    EditKeepsCore(row, Refused(row, RejectedByUser));
    SaveAndLogOk(w, row, Refused(row, RejectedByUser), true, Entry(op, op.actor, IntentRejected, Success));
  }

  lemma ReconcileOk(w: World, op: Op, row: Intent)
    requires op.Reconcile? && RowOk(row) && Known(w, row)
    ensures ProgOk(w, ReconcileBody(op, row))
  {
    hide GoodAmount, Known;
    if row.status == Submitted {
      var failed := FailedRow(row, if row.txSignature == "" then Reconciliation else ConfirmationTimeout);
      EditKeepsCore(row, failed);
      SaveAndLogOk(w, row, failed, true, AuditEvent(row.tenantId, "system", IntentFailed, row.id, op.requestId, Failure));
      var confirmed := row.(status := Confirmed, confirmedAt := Some(op.now));
      var event := AuditEvent(row.tenantId, "system", IntentConfirmed, row.id, op.requestId, Success);
      EditKeepsCore(row, confirmed);
      if row.txSignature != "" {
        SaveAndLogOk(w, row, confirmed, true, event);
        LogOk(w, event, Done);
      }
    }
  }

  lemma BeginOk(w: World, op: Op, fault: Fault)
    requires WorldOk(w)
    ensures ProgOk(w, Begin(w, op, fault))
  {
    hide RowOk, Acceptable, CreateBody, ApproveBody, ExecuteBody, RejectBody, ReconcileBody;
    if op.Create? {
      if Acceptable(op) {
        CreateOk(w, op);
      }
    } else if op.id in w.rows {
      var row := w.rows[op.id];
      match op {
        case Approve(_, _, _, _, _, _, _) => ApproveOk(w, op, row);
        case Execute(_, _, _, _, _, _, _, _, _, _) => ExecuteOk(w, op, row);
        case Reject(_, _, _, _) => RejectOk(w, op, row);
        case Cancel(_, _, _, _) => RejectOk(w, op, row);
        case Reconcile(_, _, _, _, _, _, _) => ReconcileOk(w, op, row);
      }
    }
  }

  // ---------------------------------------------------------------- runs

  lemma LaunchedOk(w: World, op: Op)
    requires WorldOk(w)
    ensures WorldOk(Launched(w, op)) && Grows(w, Launched(w, op))
  {
    hide RowOk;
    var w' := Launched(w, op);
    forall i | 0 <= i < |w'.submissions| ensures SubmissionOk(w', w'.submissions[i]) {
      assert SubmissionOk(w, w.submissions[i]);
    }
    forall i | 0 <= i < |w'.txs| ensures TxOk(w', w'.txs[i]) {
      assert TxOk(w, w.txs[i]);
    }
  }

  lemma NextOk(sys: Sys, e: Event)
    requires SysOk(sys)
    ensures SysOk(Next(sys, e)) && Grows(sys.w, Next(sys, e).w)
  {
    hide WorldOk, ProgOk, Begin, Effect, Rest, Grows, Launched;
    var sys' := Next(sys, e);
    DoneOk(sys.w);
    GrowsItself(sys.w);
    match e {
      case Start(tid, op) => LaunchedOk(sys.w, op);
      case Crash(_) =>
      case Tick(tid, fault) =>
        if tid in sys.threads {
          match sys.threads[tid] {
            case Ready(op) => BeginOk(sys.w, op, fault);
            case Running(op, p) => StepOk(sys.w, p, fault);
          }
        }
    }
    forall t | t in sys'.threads && sys'.threads[t].Running?
      ensures ProgOk(sys'.w, sys'.threads[t].prog)
    {
      if t in sys.threads && sys'.threads[t] == sys.threads[t] {
        ProgOkGrows(sys.w, sys'.w, sys.threads[t].prog);
      }
    }
  }

  lemma GrowsItself(w: World)
    ensures Grows(w, w)
  {
  }

  lemma DoneOk(w: World)
    ensures ProgOk(w, Done)
  {
  }

  lemma {:induction false} RunOk(sys: Sys, es: seq<Event>)
    requires SysOk(sys)
    ensures SysOk(Run(sys, es)) && Grows(sys.w, Run(sys, es).w)
  {
    if |es| == 0 {
    } else {
      RunOk(sys, es[..|es| - 1]);
      NextOk(Run(sys, es[..|es| - 1]), es[|es| - 1]);
    }
  }

  lemma InitialOk()
    ensures SysOk(INITIAL)
  {
  }

  // -------------------------------------------------------------- theorems

  /** Every stored row of every run: failure reasons, timestamps, signature and approval limit go
      with the status as RowOk says, and nonces are unique. */
  lemma RowsAlwaysOk(es: seq<Event>)
    ensures RowsOk(Run(INITIAL, es).w) && NoncesUnique(Run(INITIAL, es).w)
  {
    InitialOk();
    RunOk(INITIAL, es);
  }

  /** Whatever is interleaved later, a row keeps its creation columns: wallet, destination, token,
      amount, chain, nonce, creator, tenant and expiry. */
  lemma CreationColumnsNeverChange(before: seq<Event>, after: seq<Event>, id: string)
    requires id in Run(INITIAL, before).w.rows
    ensures id in Run(INITIAL, before + after).w.rows
    ensures var a, b := Run(INITIAL, before).w.rows[id], Run(INITIAL, before + after).w.rows[id];
            && b.id == a.id && b.tenantId == a.tenantId && b.walletId == a.walletId && b.destination == a.destination
            && b.token == a.token && b.amount == a.amount && b.chain == a.chain && b.nonce == a.nonce
            && b.creator == a.creator && b.approvers == a.approvers && b.expiry == a.expiry && b.createdAt == a.createdAt
  {
    InitialOk();
    RunOk(INITIAL, before);
    RunOk(Run(INITIAL, before), after);
    RunAppend(INITIAL, before, after);
    SameColumns(Run(INITIAL, before).w.rows[id], Run(INITIAL, before + after).w.rows[id]);
  }

  lemma SameColumns(a: Intent, b: Intent)
    requires Core(a) == Core(b)
    ensures b.id == a.id && b.tenantId == a.tenantId && b.walletId == a.walletId && b.destination == a.destination
    ensures b.token == a.token && b.amount == a.amount && b.chain == a.chain && b.nonce == a.nonce
    ensures b.creator == a.creator && b.approvers == a.approvers && b.expiry == a.expiry && b.createdAt == a.createdAt
  {
    var x, y := Core(a), Core(b);
    assert a.id == x.id && a.tenantId == x.tenantId && a.walletId == x.walletId && a.destination == x.destination;
    assert a.token == x.token && a.amount == x.amount && a.chain == x.chain && a.nonce == x.nonce;
    assert a.creator == x.creator && a.approvers == x.approvers && a.expiry == x.expiry && a.createdAt == x.createdAt;
  }

  /** Every submission of every run: the amount is between 1 and 100000, the policy re-evaluation of
      that very execution allowed it, the intent had been approved and had not expired, and the
      bytes are built from the columns the row was created with. */
  lemma SubmissionsAreSafe(es: seq<Event>, i: nat)
    requires i < |Run(INITIAL, es).w.submissions|
    ensures var w := Run(INITIAL, es).w;
            var s := w.submissions[i];
            && 1 <= Decimal.IntentAmount(s.row.amount) <= 100000
            && PolicyEngine.Allows(s.policy, s.row)
            && s.row.approvedAt.Some? && s.checkedAt <= s.row.createdAt + 3600
            && s.row.id in w.rows
            && var row := w.rows[s.row.id];
               && s.payload.walletId == row.walletId && s.payload.token == row.token
               && s.payload.amount == row.amount && s.payload.destination == row.destination
               && s.row.tenantId == row.tenantId && s.row.amount == row.amount && s.row.createdAt == row.createdAt
  {
    InitialOk();
    RunOk(INITIAL, es);
    var w := Run(INITIAL, es).w;
    var s := w.submissions[i];
    assert SubmissionOk(w, s);
    SameCore(s.row, w.rows[s.row.id]);
  }

  /** Every record of every run belongs to a stored intent, to its tenant and wallet, and its payload is
      built from the columns that intent was created with. */
  lemma RecordsAreSafe(es: seq<Event>, i: nat)
    requires i < |Run(INITIAL, es).w.txs|
    ensures var w := Run(INITIAL, es).w;
            var tx := w.txs[i];
            && tx.intentId in w.rows
            && var row := w.rows[tx.intentId];
               && tx.tenantId == row.tenantId && tx.walletId == row.walletId
               && tx.payload.walletId == row.walletId && tx.payload.token == row.token
               && tx.payload.amount == row.amount && tx.payload.destination == row.destination
  {
    InitialOk();
    RunOk(INITIAL, es);
    assert TxOk(Run(INITIAL, es).w, Run(INITIAL, es).w.txs[i]);
  }

  /** What the re-evaluation meant: every positive limit that an active policy of the wallet's tenant
      sets, in the table that this execution read, is respected by the submitted amount, and no active
      policy asks for a signature. */
  lemma SubmissionsRespectLimits(es: seq<Event>, i: nat)
    requires i < |Run(INITIAL, es).w.submissions|
    ensures var s := Run(INITIAL, es).w.submissions[i];
            && PolicyEngine.Lookup(s.policy, s.row).Ok?
            && var (wallet, policies) := PolicyEngine.Lookup(s.policy, s.row).value;
               && (forall x :: PolicyEngine.AsksNumber(wallet, policies, PolicyEngine.Limit, x) ==> AmountOf(s.row) <= x)
               && (forall x :: PolicyEngine.AsksNumber(wallet, policies, PolicyEngine.Signatures, x) ==> x <= 0)
  {
    SubmissionsAreSafe(es, i);
    var s := Run(INITIAL, es).w.submissions[i];
    InitialOk();
    RunOk(INITIAL, es);
    assert SubmissionOk(Run(INITIAL, es).w, s);
    PolicyEngine.NormalForm(s.policy, s.row);
    var (wallet, policies) := PolicyEngine.Lookup(s.policy, s.row).value;
    PolicyEngine.SummaryIsExtreme(s.policy.fold, wallet, policies);
  }

  /** GetTransactionByNonce finds a record exactly when the intent with that nonce owns one. */
  lemma NonceLookupFindsOwnRecord(es: seq<Event>, id: string)
    requires id in Run(INITIAL, es).w.rows
    ensures var w := Run(INITIAL, es).w;
            HasTxForNonce(w, w.rows[id].nonce) <==> exists i :: 0 <= i < |w.txs| && w.txs[i].intentId == id
  {
    RowsAlwaysOk(es);
    var w := Run(INITIAL, es).w;
    if i :| 0 <= i < |w.txs| && w.txs[i].intentId == id {
      assert w.rows[w.txs[i].intentId].nonce == w.rows[id].nonce;
    }
  }

  /** The idempotency scan compares strings, and with them amounts: in every run a stored row is the
      same request exactly when tenant, creator, destination and token agree and so does the number. */
  lemma DuplicatesAreEqualAmounts(es: seq<Event>, op: Op, id: string)
    requires id in Run(INITIAL, es).w.rows && op.Create? && Acceptable(op)
    ensures var row := Run(INITIAL, es).w.rows[id];
            SameRequest(row, op) <==>
              && row.tenantId == op.tenant && row.creator == op.creator && row.destination == op.destination
              && row.token == op.token && AmountOf(row) == op.amount
  {
    RowsAlwaysOk(es);
    var row := Run(INITIAL, es).w.rows[id];
    assert RowOk(row);
    if row.amount == Decimal.AmountToString(op.amount) {
      Decimal.AmountToStringInjective(AmountOf(row), op.amount);
    }
  }
}
