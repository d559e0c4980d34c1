/** The handlers of services/api/routes/intent_routes.go over the stores of stores.go and the audit
    log of audit.go, in the service's own form: load a copy of a row, edit it, save it whole. Each
    method is proved to have the effect of the machine's program for the same operation. */
module IntentRoutes {
  import opened Wrappers
  import opened Domain
  import opened Workflow
  import Bytes
  import Decimal
  import PolicyEngine
  import SolanaClient
  import ZkProof

  predicate Wanted(row: Intent, tenant: string, status: Option<Status>) {
    row.tenantId == tenant && (status.Some? ==> row.status == status.value)
  }

  predicate NewestFirst(list: seq<Intent>) {
    forall i, j :: 0 <= i < j < |list| ==> list[i].createdAt >= list[j].createdAt
  }

  /** A row put where the order by creation time wants it. */
  function InsertByTime(list: seq<Intent>, row: Intent): seq<Intent> {
    if |list| == 0 || row.createdAt >= list[0].createdAt then [row] + list
    else [list[0]] + InsertByTime(list[1..], row)
  }

  lemma {:induction false} InsertContains(list: seq<Intent>, row: Intent)
    ensures |InsertByTime(list, row)| == |list| + 1
    ensures forall e :: e in InsertByTime(list, row) <==> e in list || e == row
    ensures NewestFirst(list) ==> NewestFirst(InsertByTime(list, row))
  {
    if |list| == 0 || row.createdAt >= list[0].createdAt {
    } else {
      InsertContains(list[1..], row);
      var rest := InsertByTime(list[1..], row);
      assert list == [list[0]] + list[1..];
      if NewestFirst(list) {
        forall j | 0 <= j < |rest| ensures list[0].createdAt >= rest[j].createdAt {
          assert rest[j] in rest;
        }
      }
    }
  }

  /** The tables. The k-th access meets the k-th fault. */
  class Database {
    var rows: map<string, Intent>
    var txs: seq<Transaction>
    var audit: seq<AuditEvent>
    var ticks: nat
    const faults: nat -> Fault

    constructor (faults: nat -> Fault)
      ensures rows == map[] && txs == [] && audit == [] && ticks == 0 && this.faults == faults
    {
      rows, txs, audit, ticks := map[], [], [], 0;
      this.faults := faults;
    }

    method Create(row: Intent) returns (err: bool)
      modifies this
      ensures ticks == old(ticks) + 1 && txs == old(txs) && audit == old(audit)
      ensures var f := faults(old(ticks));
              var taken := row.id in old(rows) || exists id :: id in old(rows) && old(rows)[id].nonce == row.nonce;
              && rows == (if f.Lost? || taken then old(rows) else old(rows)[row.id := row])
              && err == (!f.NoFault? || taken)
    {
      var f := faults(ticks);
      ticks := ticks + 1;
      var taken := row.id in rows || exists id :: id in rows && rows[id].nonce == row.nonce;
      if !f.Lost? && !taken {
        rows := rows[row.id := row];
      }
      err := !f.NoFault? || taken;
    }

    method GetByID(id: string) returns (found: Option<Intent>)
      modifies this`ticks
      ensures ticks == old(ticks) + 1
      ensures found == if faults(old(ticks)).NoFault? && id in rows then Some(rows[id]) else None
    {
      var f := faults(ticks);
      ticks := ticks + 1;
      found := if f.NoFault? && id in rows then Some(rows[id]) else None;
    }

    method Update(row: Intent) returns (err: bool)
      modifies this
      ensures ticks == old(ticks) + 1 && txs == old(txs) && audit == old(audit)
      ensures rows == if faults(old(ticks)).Lost? then old(rows) else old(rows)[row.id := row]
      ensures err == !faults(old(ticks)).NoFault?
    {
      var f := faults(ticks);
      ticks := ticks + 1;
      if !f.Lost? {
        rows := rows[row.id := row];
      }
      err := !f.NoFault?;
    }

    /** The tenant's rows, of one status if asked for, newest first. A failed query yields no rows. */
    method ListByTenant(tenant: string, status: Option<Status>) returns (list: seq<Intent>)
      modifies this`ticks
      ensures ticks == old(ticks) + 1
      ensures !faults(old(ticks)).NoFault? ==> list == []
      ensures faults(old(ticks)).NoFault? ==>
        (forall e :: e in list ==>
           e.tenantId == tenant && status in {None, Some(e.status)} && exists id :: id in rows && rows[id] == e)
      ensures faults(old(ticks)).NoFault? ==>
        (forall id :: id in rows && rows[id].tenantId == tenant && status in {None, Some(rows[id].status)} ==>
           rows[id] in list)
      ensures |list| <= |rows| && forall i, j :: 0 <= i < j < |list| ==> list[i].createdAt >= list[j].createdAt
    {
      var f := faults(ticks);
      ticks := ticks + 1;
      list := [];
      if !f.NoFault? {
        return;
      }
      var pending := rows.Keys;
      while pending != {}
        invariant pending <= rows.Keys && NewestFirst(list) && |list| + |pending| <= |rows|
        invariant ticks == old(ticks) + 1
        invariant forall e :: e in list ==> Wanted(e, tenant, status) && exists id :: id in rows && rows[id] == e
        invariant forall id :: id in rows && id !in pending && Wanted(rows[id], tenant, status) ==> rows[id] in list
        decreases pending
      {
        var id :| id in pending;
        if Wanted(rows[id], tenant, status) {
          InsertContains(list, rows[id]);
          list := InsertByTime(list, rows[id]);
        }
        pending := pending - {id};
      }
    }

    /** Two queries: the intent with the nonce, then a record of that intent. */
    method GetTransactionByNonce(nonce: string) returns (found: bool)
      modifies this`ticks
      ensures var intent := faults(old(ticks)).NoFault? && IntentKnown(rows, nonce);
              && ticks == old(ticks) + (if intent then 2 else 1)
              && found == (intent && faults(old(ticks) + 1).NoFault? && RecordKnown(rows, txs, nonce))
    {
      var f := faults(ticks);
      ticks := ticks + 1;
      if !f.NoFault? || !IntentKnown(rows, nonce) {
        return false;
      }
      var f2 := faults(ticks);
      ticks := ticks + 1;
      if !f2.NoFault? {
        return false;
      }
      var i := 0;
      while i < |txs|
        invariant 0 <= i <= |txs|
        invariant forall j :: 0 <= j < i ==> !(txs[j].intentId in rows && rows[txs[j].intentId].nonce == nonce)
      {
        if txs[i].intentId in rows && rows[txs[i].intentId].nonce == nonce {
          return true;
        }
        i := i + 1;
      }
      found := false;
    }

    method CreateTransaction(tx: Transaction)
      modifies this
      ensures ticks == old(ticks) + 1 && rows == old(rows) && audit == old(audit)
      ensures txs == if faults(old(ticks)).Lost? then old(txs) else old(txs) + [tx]
    {
      var f := faults(ticks);
      ticks := ticks + 1;
      if !f.Lost? {
        txs := txs + [tx];
      }
    }

    /** The first record of an intent, if the query works and there is one. */
    method GetTransaction(intentId: string) returns (found: Option<nat>)
      modifies this`ticks
      ensures ticks == old(ticks) + 1
      ensures found.Some? <==> faults(old(ticks)).NoFault? && exists i :: 0 <= i < |txs| && txs[i].intentId == intentId
      ensures found.Some? ==> found.value < |txs| && txs[found.value].intentId == intentId
      ensures found.Some? ==> forall j :: 0 <= j < found.value ==> txs[j].intentId != intentId
    {
      var f := faults(ticks);
      ticks := ticks + 1;
      if !f.NoFault? {
        return None;
      }
      var i := 0;
      while i < |txs|
        invariant 0 <= i <= |txs|
        invariant forall j :: 0 <= j < i ==> txs[j].intentId != intentId
      {
        if txs[i].intentId == intentId {
          return Some(i);
        }
        i := i + 1;
      }
      found := None;
    }

    /** Save the record just read, marked confirmed. */
    method ConfirmTransaction(i: nat, intentId: string, now: int)
      requires i < |txs| && txs[i].intentId == intentId && forall j :: 0 <= j < i ==> txs[j].intentId != intentId
      modifies this
      ensures ticks == old(ticks) + 1 && rows == old(rows) && audit == old(audit)
      ensures txs == if faults(old(ticks)).Lost? then old(txs) else ConfirmFirst(old(txs), intentId, now)
    {
      ConfirmFirstAt(txs, intentId, now, i);
      var f := faults(ticks);
      ticks := ticks + 1;
      if !f.Lost? {
        txs := txs[i := txs[i].(status := TxConfirmed, confirmedAt := Some(now))];
      }
    }

    method LogEvent(event: AuditEvent)
      modifies this
      ensures ticks == old(ticks) + 1 && rows == old(rows) && txs == old(txs)
      ensures audit == if faults(old(ticks)).Lost? then old(audit) else old(audit) + [event]
    {
      var f := faults(ticks);
      ticks := ticks + 1;
      if !f.Lost? {
        audit := audit + [event];
      }
    }
  }

  /** The Solana client as the handlers see it: a record of what was submitted. */
  class Chain {
    var submissions: seq<Submission>

    constructor ()
      ensures submissions == []
    {
      submissions := [];
    }

    method SubmitTransaction(s: Submission)
      modifies this
      ensures submissions == old(submissions) + [s]
    {
      submissions := submissions + [s];
    }
  }

  class IntentHandler {
    const db: Database
    const chain: Chain
    var spawned: map<(string, string), nat>

    constructor (db: Database, chain: Chain)
      ensures this.db == db && this.chain == chain && spawned == map[]
    {
      this.db, this.chain, spawned := db, chain, map[];
    }

    ghost function Tables(): World
      reads this, db, chain
    {
      World(db.rows, db.txs, db.audit, chain.submissions, spawned)
    }

    /** The rest of a handler's work, as the machine does it. */
    ghost function Finished(p: Prog): (World, nat)
      reads this, db, chain
    {
      Finish(Tables(), p, db.faults, db.ticks)
    }

    ghost function AfterAll(op: Op): (World, nat)
      reads this, db, chain
    {
      Atomic(Tables(), op, db.faults, db.ticks)
    }

    method CreateIntent(op: Op)
      requires op.Create?
      modifies this, db, chain
      ensures (Tables(), db.ticks) == old(AfterAll(op))
    {
      hide Finish, Effect, Rest, Duplicate, CreateBody, Decimal.AcceptableInput;
      FinishDone(Tables(), db.faults, db.ticks);
      var errs := Decimal.ValidateIntentInput(op.walletId, op.destination, op.token, op.chain, op.creator, op.amount);
      if |errs| > 0 {
        return;
      }
      if op.idempotent {
        var found := FindDuplicate(op);
        FinishDone(Tables(), db.faults, db.ticks);
        if found {
          return;
        }
      }
      assert old(AfterAll(op)) == Finished(CreateBody(op));
      StoreNew(op);
    }

    /** The idempotency scan over the tenant's intents. */
    method FindDuplicate(op: Op) returns (found: bool)
      requires op.Create?
      modifies db`ticks
      ensures Tables() == old(Tables()) && db.ticks == old(db.ticks) + 1
      ensures found == (db.faults(old(db.ticks)).NoFault? && Duplicate(Tables(), op))
    {
      ghost var fault := db.faults(db.ticks);
      var existing := db.ListByTenant(op.tenant, None);
      var i := 0;
      while i < |existing|
        invariant 0 <= i <= |existing|
        invariant forall j :: 0 <= j < i ==> !SameRequest(existing[j], op)
      {
        var e := existing[i];
        if e.creator == op.creator && e.destination == op.destination
           && e.amount == Decimal.AmountToString(op.amount) && e.token == op.token {
          assert e in existing;
          return true;
        }
        i := i + 1;
      }
      forall id | fault.NoFault? && id in db.rows && db.rows[id].tenantId == op.tenant
        ensures !SameRequest(db.rows[id], op)
      {
        assert db.rows[id] in existing;
      }
      found := false;
    }

    method StoreNew(op: Op)
      requires op.Create?
      modifies this, db, chain
      ensures (Tables(), db.ticks) == old(Finished(CreateBody(op)))
    {
      hide Finish, Created;
      var row := Created(op);
      ghost var p := CreateBody(op);
      FinishStep(Tables(), p, db.faults, db.ticks);
      var err := db.Create(row);
      FinishDone(Tables(), db.faults, db.ticks);
      if err {
        return;
      }
      assert old(Finished(p)) == Finished(p.next);
      LogAndStop(Entry(op, op.creator, IntentCreated, Success));
    }

    method LogAndStop(event: AuditEvent)
      modifies this, db, chain
      ensures (Tables(), db.ticks) == old(Finished(Log(event, Done)))
    {
      hide Finish;
      FinishStep(Tables(), Log(event, Done), db.faults, db.ticks);
      db.LogEvent(event);
      FinishDone(Tables(), db.faults, db.ticks);
    }

    /** Save and log, stopping in between if `checked` and the save reports an error. */
    method SaveAndLog(row: Intent, checked: bool, event: AuditEvent)
      modifies this, db, chain
      ensures (Tables(), db.ticks) == old(Finished(Save(row, checked, Log(event, Done))))
    {
      hide Finish;
      ghost var p := Save(row, checked, Log(event, Done));
      FinishStep(Tables(), p, db.faults, db.ticks);
      var err := db.Update(row);
      FinishDone(Tables(), db.faults, db.ticks);
      if checked && err {
        return;
      }
      assert old(Finished(p)) == Finished(p.next);
      LogAndStop(event);
    }

    method ApproveIntent(op: Op)
      requires op.Approve?
      modifies this, db, chain
      ensures (Tables(), db.ticks) == old(AfterAll(op))
    {
      hide Finish, PolicyEngine.Allows, PolicyEngine.Lookup, ZkProof.CanGenerate, ZkProof.Verdict, ZkProof.Assemble;
      var found := db.GetByID(op.id);
      FinishDone(Tables(), db.faults, db.ticks);
      if found.None? {
        return;
      }
      var intent := found.value;
      assert old(AfterAll(op)) == Finished(ApproveBody(op, intent));
      if intent.tenantId != op.tenant {
        return;
      }
      if intent.status != Pending {
        return;
      }
      var result := PolicyEngine.Evaluate(op.policy, intent);
      if result.Err? {
        LogAndStop(Entry(op, op.actor, IntentFailed, Failure));
        return;
      }
      PolicyEngine.AllowsNeedsLookup(op.policy, intent);
      if !result.value.allow {
        intent := intent.(failureReason := Some(PolicyDenied));
        intent := intent.(status := Rejected);
        SaveAndLog(intent, false, Entry(op, op.actor, IntentPolicyDenied, Denied));
        return;
      }
      var dailyLimit := 100000;
      var proof := ZkProof.GoProve(op.zk.hash, intent.amount, Some(dailyLimit), op.zk.policyVersion,
                                   Bytes.Utf8(intent.id), Bytes.Utf8(intent.walletId), op.zk.blinding);
      if proof.Err? {
        LogAndStop(Entry(op, op.actor, IntentFailed, Failure));
        return;
      }
      var verified := ZkProof.GoVerify(op.zk.hash, Some(proof.value));
      if verified.Err? || !verified.value {
        intent := intent.(failureReason := Some(PolicyDenied));
        intent := intent.(status := Rejected);
        SaveAndLog(intent, false, Entry(op, op.actor, IntentZkDenied, Denied));
        return;
      }
      intent := intent.(status := Approved);
      intent := intent.(approvedAt := Some(op.now));
      SaveAndLog(intent, true, Entry(op, op.actor, IntentApproved, Success));
    }

    method ExecuteIntent(op: Op)
      requires op.Execute?
      modifies this, db, chain
      ensures (Tables(), db.ticks) == old(AfterAll(op))
    {
      hide Finish, ExecutingBody;
      var found := db.GetByID(op.id);
      FinishDone(Tables(), db.faults, db.ticks);
      if found.None? {
        return;
      }
      var intent := found.value;
      assert old(AfterAll(op)) == Finished(ExecuteBody(op, intent));
      if intent.tenantId != op.tenant {
        return;
      }
      if intent.status != Approved {
        return;
      }
      if op.checkedAt > intent.expiry {
        intent := intent.(status := Expired);
        intent := intent.(failureReason := Some(IntentExpired));
        SaveAndLog(intent, false, Entry(op, "system", IntentExpiredEvent, Success));
        return;
      }
      ghost var find := ExecuteBody(op, intent);
      FinishStep(Tables(), find, db.faults, db.ticks);
      FinishStep(Tables(), NonceGuard(intent.nonce, find.next), db.faults, db.ticks + 1);
      FinishDone(Tables(), db.faults, db.ticks + 2);
      var existing := db.GetTransactionByNonce(intent.nonce);
      if existing {
        return;
      }
      assert old(AfterAll(op)) == Finished(find.next);
      intent := intent.(status := Executing);
      StartExecuting(op, intent);
    }

    method StartExecuting(op: Op, intent: Intent)
      requires op.Execute?
      modifies this, db, chain
      ensures (Tables(), db.ticks) == old(Finished(
        Save(intent, true, Log(Entry(op, "user", IntentExecuting, Success), ExecutingBody(op, intent)))))
    {
      hide Finish, ExecutingBody;
      ghost var p := Save(intent, true, Log(Entry(op, "user", IntentExecuting, Success), ExecutingBody(op, intent)));
      FinishStep(Tables(), p, db.faults, db.ticks);
      var err := db.Update(intent);
      FinishDone(Tables(), db.faults, db.ticks);
      if err {
        return;
      }
      assert old(Finished(p)) == Finished(p.next);
      FinishStep(Tables(), p.next, db.faults, db.ticks);
      db.LogEvent(Entry(op, "user", IntentExecuting, Success));
      assert old(Finished(p)) == Finished(p.next.next);
      SimulateAndSign(op, intent);
    }

    method Fail(op: Op, intent: Intent, reason: Reason, action: Action, outcome: Outcome)
      modifies this, db, chain
      ensures (Tables(), db.ticks) == old(Finished(FailAs(op, intent, reason, action, outcome)))
    {
      hide Finish;
      var failed := intent.(status := Failed);
      failed := failed.(failureReason := Some(reason));
      SaveAndLog(failed, false, Entry(op, "system", action, outcome));
    }

    method SimulateAndSign(op: Op, intent: Intent)
      requires op.Execute?
      modifies this, db, chain
      ensures (Tables(), db.ticks) == old(Finished(ExecutingBody(op, intent)))
    {
      hide Finish, FailAs, SubmitBody, PolicyEngine.Allows, Decimal.ParseInt64;
      ghost var p := ExecutingBody(op, intent);
      var parsed := Decimal.ParseInt64(intent.amount);
      if parsed.Err? {
        Fail(op, intent, SimulationFailed, IntentFailed, Failure);
        return;
      }
      if parsed.value <= 0 {
        Fail(op, intent, SimulationFailed, IntentSimulated, SimulationDenied);
        return;
      }
      FinishStep(Tables(), p, db.faults, db.ticks);
      db.LogEvent(Entry(op, "system", IntentSimulated, Success));
      assert old(Finished(p)) == Finished(p.next);
      var result := PolicyEngine.Evaluate(op.policy, intent);
      PolicyEngine.AllowsNeedsLookup(op.policy, intent);
      if result.Err? || !result.value.allow {
        Fail(op, intent, PolicyDenied, IntentPolicyDenied, Denied);
        return;
      }
      if !op.signed {
        Fail(op, intent, SigningFailed, IntentFailed, Failure);
        return;
      }
      FinishStep(Tables(), p.next, db.faults, db.ticks);
      db.LogEvent(Entry(op, "system", IntentSigned, Success));
      assert old(Finished(p)) == Finished(p.next.next);
      SubmitSigned(op, intent);
    }

    method SubmitSigned(op: Op, row: Intent)
      requires op.Execute?
      modifies this, db, chain
      ensures (Tables(), db.ticks) == old(Finished(SubmitBody(op, row)))
    {
      hide Finish, FailAs;
      ghost var p := SubmitBody(op, row);
      var blockhash := if op.blockhash.Some? then op.blockhash.value else "placeholder-blockhash";
      var payload := Payload(row.walletId, row.token, row.amount, row.destination, blockhash);
      FinishStep(Tables(), p, db.faults, db.ticks);
      chain.SubmitTransaction(Submission(row, payload, op.policy, op.checkedAt));
      assert old(Finished(p)) == Finished(p.next);
      if op.submit.Err? {
        Fail(op, row, SubmissionFailed, IntentFailed, Failure);
        return;
      }
      if !op.submit.value.success {
        Fail(op, row, SubmissionFailed, IntentFailed, Failure);
        return;
      }
      var intent := row.(status := Submitted);
      intent := intent.(executedAt := Some(op.now));
      intent := intent.(txSignature := op.submit.value.signature);
      var txRecord := Transaction(op.txId, intent.id, op.tenant, intent.walletId, payload, TxSubmitted, op.now, None,
                                  op.submit.value.signature);
      RecordSubmission(op, intent, txRecord);
    }

    method RecordSubmission(op: Op, intent: Intent, txRecord: Transaction)
      requires op.Execute?
      modifies this, db, chain
      ensures (Tables(), db.ticks) == old(Finished(Save(intent, true, InsertTx(txRecord,
        Log(Entry(op, "system", IntentSubmittedOnChain, Success), Spawn(op.tenant, intent.id, Done))))))
    {
      hide Finish;
      ghost var p := Save(intent, true, InsertTx(txRecord,
        Log(Entry(op, "system", IntentSubmittedOnChain, Success), Spawn(op.tenant, intent.id, Done))));
      FinishStep(Tables(), p, db.faults, db.ticks);
      var err := db.Update(intent);
      FinishDone(Tables(), db.faults, db.ticks);
      if err {
        return;
      }
      assert old(Finished(p)) == Finished(p.next);
      FinishStep(Tables(), p.next, db.faults, db.ticks);
      db.CreateTransaction(txRecord);
      assert old(Finished(p)) == Finished(p.next.next);
      FinishStep(Tables(), p.next.next, db.faults, db.ticks);
      db.LogEvent(Entry(op, "system", IntentSubmittedOnChain, Success));
      assert old(Finished(p)) == Finished(p.next.next.next);
      FinishStep(Tables(), p.next.next.next, db.faults, db.ticks);
      spawned := spawned[(op.tenant, intent.id) := Waiting(spawned, op.tenant, intent.id) + 1];
      FinishDone(Tables(), db.faults, db.ticks);
    }

    method RejectIntent(op: Op)
      requires op.Reject?
      modifies this, db, chain
      ensures (Tables(), db.ticks) == old(AfterAll(op))
    {
      hide Finish;
      var found := db.GetByID(op.id);
      FinishDone(Tables(), db.faults, db.ticks);
      if found.None? {
        return;
      }
      var intent := found.value;
      if intent.tenantId != op.tenant {
        return;
      }
      assert old(AfterAll(op)) == Finished(RejectBody(op, intent));
      intent := intent.(status := Rejected);
      intent := intent.(failureReason := Some(RejectedByUser));
      SaveAndLog(intent, true, Entry(op, op.actor, IntentRejected, Success));
    }

    method CancelIntent(op: Op)
      requires op.Cancel?
      modifies this, db, chain
      ensures (Tables(), db.ticks) == old(AfterAll(op))
    {
      hide Finish;
      var found := db.GetByID(op.id);
      FinishDone(Tables(), db.faults, db.ticks);
      if found.None? {
        return;
      }
      var intent := found.value;
      if intent.tenantId != op.tenant {
        return;
      }
      if intent.status != Pending && intent.status != Executing {
        return;
      }
      assert old(AfterAll(op)) == Finished(RejectBody(op, intent));
      intent := intent.(status := Rejected);
      intent := intent.(failureReason := Some(RejectedByUser));
      SaveAndLog(intent, true, Entry(op, op.actor, IntentRejected, Success));
    }

    /** `ReconcilerImpl.Start`. */
    method StartReconciler(op: Op)
      requires op.Reconcile?
      modifies this, db, chain
      ensures (Tables(), db.ticks) == old(AfterAll(op))
    {
      hide Finish, SolanaClient.Attempts;
      var found := db.GetByID(op.id);
      FinishDone(Tables(), db.faults, db.ticks);
      if found.None? {
        return;
      }
      var intent := found.value;
      assert old(AfterAll(op)) == Finished(ReconcileBody(op, intent));
      if intent.status != Submitted {
        return;
      }
      if |intent.txSignature| == 0 {
        FailIntent(op, intent, Reconciliation);
        return;
      }
      if !op.hasClient {
        ConfirmIntent(op, intent);
        return;
      }
      var confirmed, used, made := SolanaClient.PollUntilConfirmed(op.statuses, op.maxRetries);
      if confirmed {
        ConfirmIntent(op, intent);
        return;
      }
      FailIntent(op, intent, ConfirmationTimeout);
    }

    method ConfirmIntent(op: Op, row: Intent)
      requires op.Reconcile?
      modifies this, db, chain
      ensures (Tables(), db.ticks) == old(Finished(ConfirmBody(op, row)))
    {
      hide Finish;
      ghost var p := ConfirmBody(op, row);
      var intent := row.(status := Confirmed);
      intent := intent.(confirmedAt := Some(op.now));
      FinishStep(Tables(), p, db.faults, db.ticks);
      var err := db.Update(intent);
      FinishDone(Tables(), db.faults, db.ticks);
      if err {
        return;
      }
      assert old(Finished(p)) == Finished(p.next);
      FinishStep(Tables(), p.next, db.faults, db.ticks);
      var tx := db.GetTransaction(row.id);
      if tx.Some? {
        ghost var confirm := ConfirmTx(row.id, op.now, p.next.next);
        assert old(Finished(p)) == Finished(confirm);
        FinishStep(Tables(), confirm, db.faults, db.ticks);
        db.ConfirmTransaction(tx.value, row.id, op.now);
      }
      assert old(Finished(p)) == Finished(p.next.next);
      LogAndStop(AuditEvent(row.tenantId, "system", IntentConfirmed, row.id, op.requestId, Success));
    }

    method FailIntent(op: Op, row: Intent, reason: Reason)
      requires op.Reconcile?
      modifies this, db, chain
      ensures (Tables(), db.ticks) == old(Finished(Save(FailedRow(row, reason), true,
        Log(AuditEvent(row.tenantId, "system", IntentFailed, row.id, op.requestId, Failure), Done))))
    {
      hide Finish;
      var intent := row.(status := Failed);
      intent := intent.(failureReason := Some(reason));
      SaveAndLog(intent, true, AuditEvent(row.tenantId, "system", IntentFailed, row.id, op.requestId, Failure));
    }
  }

  /** ConfirmFirst changes the first record that matches and nothing else. */
  lemma {:induction false} ConfirmFirstAt(txs: seq<Transaction>, id: string, now: int, i: nat)
    requires i <= |txs| && forall j :: 0 <= j < i ==> txs[j].intentId != id
    requires i < |txs| ==> txs[i].intentId == id
    ensures ConfirmFirst(txs, id, now)
         == if i == |txs| then txs else txs[i := txs[i].(status := TxConfirmed, confirmedAt := Some(now))]
  {
    if i == 0 {
    } else {
      ConfirmFirstAt(txs[1..], id, now, i - 1);
    }
  }
}
