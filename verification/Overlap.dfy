/** That the conditions of Serialised are the weakest ones. For each part of them there is a run from
    the empty tables that leaves only the handlers of that part overlap and defeats the conclusion,
    without any fault or crash, except where a run without them cannot defeat it. */
module Overlap {
  import opened Wrappers
  import opened Domain
  import opened Workflow
  import opened Invariants
  import opened Discipline
  import opened Serialised
  import Bytes
  import Decimal
  import Decisions
  import PolicyEngine
  import SolanaClient
  import Undisturbed
  import ZkProof

  function NoFaults(k: nat): Fault {
    NoFault
  }

  // ------------------------------------------------- undisturbed schedules

  ghost predicate Leads(d: Discipline, sys: Sys, es: seq<Event>, sys': Sys) {
    FaultFree(es) && SerialFrom(d, sys, es) && Run(sys, es) == sys'
  }

  /** Without faults and crashes, and keeping the discipline, the system can get there. */
  ghost predicate Reach(d: Discipline, sys: Sys, sys': Sys) {
    exists es :: Leads(d, sys, es, sys')
  }

  lemma ReachOn(d: Discipline, a: Sys, b: Sys, c: Sys)
    requires Reach(d, a, b) && Reach(d, b, c)
    ensures Reach(d, a, c)
  {
    hide Run, SerialFrom;
    var x :| Leads(d, a, x, b);
    var y :| Leads(d, b, y, c);
    RunAppend(a, x, y);
    SerialAppend(d, a, x, y);
    assert Leads(d, a, x + y, c);
  }

  lemma RunOne(sys: Sys, e: Event)
    ensures Run(sys, [e]) == Next(sys, e)
  {
    RunSnoc(sys, [], e);
    assert [] + [e] == [e];
  }

  lemma ReachOne(d: Discipline, sys: Sys, e: Event)
    requires !e.Crash? && (e.Tick? ==> e.fault.NoFault?) && StartsAlone(d, sys, e)
    ensures Reach(d, sys, Next(sys, e))
  {
    RunOne(sys, e);
    assert [e][..0] == [];
    assert Leads(d, sys, [e], Next(sys, e));
  }

  lemma {:induction false} ReachFinish(d: Discipline, sys: Sys, tid: Tid, k: nat)
    requires tid in sys.threads && sys.threads[tid].Running?
    ensures var t := sys.threads[tid];
            Reach(d, sys, Sys(Finish(sys.w, t.prog, NoFaults, k).0, sys.threads[tid := Running(t.op, Done)]))
    decreases Size(sys.threads[tid].prog)
  {
    hide Reach;
    var op, p := sys.threads[tid].op, sys.threads[tid].prog;
    var sys' := Next(sys, Tick(tid, NoFault));
    if p.Done? {
      assert sys.threads[tid := Running(op, Done)] == sys.threads;
      ReachSame(d, sys);
    } else {
      ReachOne(d, sys, Tick(tid, NoFault));
      ReachFinish(d, sys', tid, k + Accesses(p));
      assert sys'.threads[tid := Running(op, Done)] == sys.threads[tid := Running(op, Done)];
      ReachOn(d, sys, sys', Sys(Finish(sys.w, p, NoFaults, k).0, sys.threads[tid := Running(op, Done)]));
    }
  }

  lemma ReachSame(d: Discipline, sys: Sys)
    ensures Reach(d, sys, sys)
  {
    assert Leads(d, sys, [], sys);
  }

  // ----------------------------------------------------------- one tenant

  function T(n: nat): Tid {
    Tid("t", n)
  }

  /** Only handlers numbered below `k` have started, and only those in `live` are still at work. */
  predicate Idle(sys: Sys, k: nat, live: set<nat>) {
    && (forall t :: t in sys.threads ==> t.tenant == "t" && t.n < k && (t.n !in live ==> !Live(sys.threads[t])))
    && (forall n :: n in live ==> T(n) in sys.threads)
  }

  /** A new handler may start beside those at work. */
  predicate MayStart(d: Discipline, sys: Sys, live: set<nat>, op: Op) {
    && op.tenant == "t" && (op.Reconcile? ==> Waiting(sys.w.spawned, "t", op.id) > 0)
    && (forall n :: n in live && T(n) in sys.threads ==> !Apart(d, KindOf(sys.threads[T(n)].op), KindOf(op)))
  }

  lemma StartIt(d: Discipline, sys: Sys, k: nat, live: set<nat>, op: Op) returns (sys': Sys)
    requires Idle(sys, k, live) && MayStart(d, sys, live, op)
    ensures Reach(d, sys, sys') && Idle(sys', k + 1, live + {k})
    ensures sys'.w == Launched(sys.w, op)
    ensures sys'.threads == sys.threads[T(k) := Running(op, Begin(Launched(sys.w, op), op, NoFault))]
  {
    hide Reach, Begin, Target, Apart, Launched;
    assert T(k) !in sys.threads;
    var s1 := Next(sys, Start(T(k), op));
    assert StartsAlone(d, sys, Start(T(k), op)) by {
      forall t | t in sys.threads ensures !Overlaps(d, sys.threads[t], op) {
        if Live(sys.threads[t]) {
          assert t == T(t.n) && t.n in live;
        }
      }
    }
    ReachOne(d, sys, Start(T(k), op));
    sys' := Next(s1, Tick(T(k), NoFault));
    ReachOne(d, s1, Tick(T(k), NoFault));
    ReachOn(d, sys, s1, sys');
    assert sys'.threads == sys.threads[T(k) := Running(op, Begin(Launched(sys.w, op), op, NoFault))];
  }

  /** Only a reconciliation changes anything by starting. */
  lemma RequestsJustStart(w: World, op: Op)
    requires !op.Reconcile?
    ensures Launched(w, op) == w
  {
  }

  lemma FinishIt(d: Discipline, sys: Sys, k: nat, live: set<nat>, n: nat) returns (sys': Sys)
    requires Idle(sys, k, live) && T(n) in sys.threads && sys.threads[T(n)].Running?
    ensures Reach(d, sys, sys') && Idle(sys', k, live - {n})
    ensures sys'.threads == sys.threads[T(n) := Running(sys.threads[T(n)].op, Done)]
    ensures sys'.w == Finish(sys.w, sys.threads[T(n)].prog, NoFaults, 0).0
  {
    hide Reach, Finish;
    ReachFinish(d, sys, T(n), 0);
    sys' := Sys(Finish(sys.w, sys.threads[T(n)].prog, NoFaults, 0).0, sys.threads[T(n) := Running(sys.threads[T(n)].op, Done)]);
  }

  /** One handler from its start to its end. */
  lemma RunIt(d: Discipline, sys: Sys, k: nat, live: set<nat>, op: Op) returns (sys': Sys)
    requires Idle(sys, k, live) && MayStart(d, sys, live, op)
    ensures Reach(d, sys, sys') && Idle(sys', k + 1, live)
    ensures sys'.threads == sys.threads[T(k) := Running(op, Done)]
    ensures var w := Launched(sys.w, op); sys'.w == Finish(w, Begin(w, op, NoFault), NoFaults, 0).0
  {
    hide Reach, Finish, Begin, Launched;
    assert k !in live;
    var s1 := StartIt(d, sys, k, live, op);
    sys' := FinishIt(d, s1, k + 1, live + {k}, k);
    assert live + {k} - {k} == live;
    assert sys'.threads == sys.threads[T(k) := Running(op, Done)];
    ReachOn(d, sys, s1, sys');
  }

  /** One access of a handler at work. */
  lemma StepIt(d: Discipline, sys: Sys, k: nat, live: set<nat>, n: nat) returns (sys': Sys)
    requires Idle(sys, k, live) && n in live && sys.threads[T(n)].Running?
    ensures Reach(d, sys, sys') && Idle(sys', k, live)
    ensures var op, p := sys.threads[T(n)].op, sys.threads[T(n)].prog;
            sys' == Sys(Effect(sys.w, p, NoFault), sys.threads[T(n) := Running(op, Rest(sys.w, p, NoFault))])
  {
    hide Reach, Effect, Rest;
    sys' := Next(sys, Tick(T(n), NoFault));
    ReachOne(d, sys, Tick(T(n), NoFault));
  }

  // ----------------------------------------------------- handlers and rows

  /** One wallet, no policies. */
  function OpenPolicies(): PolicyEngine.Env {
    PolicyEngine.Env(map["w" := Wallet("t", 0)], {"t"}, map[], false, 0, c => c)
  }

  function Ones(): Bytes.Digest {
    Bytes.LittleEndian(1, 32)
  }

  /** Inputs of a proof none of whose digests is zero. */
  function Proofs(): ProofInputs {
    ProofInputs(_ => Ones(), [], ZkProof.Blinding(Ones(), Ones(), Ones()))
  }

  function CreateIt(): Op {
    Create("t", "req", "w", "d", "k", "solana", "c", 1, false, "i", "n", 0)
  }

  function ApproveIt(): Op {
    Approve("t", "req", "i", "user", OpenPolicies(), Proofs(), 0)
  }

  /** An execution whose signer signs; the chain accepts the submission or cannot be reached. */
  function ExecuteIt(accepted: bool): Op {
    Execute("t", "req", "i", 0, None, OpenPolicies(), true,
            if accepted then Ok(SolanaClient.SubmitResult(true, "sig", "")) else Err(SolanaClient.RetriesExhausted), 0, "tx")
  }

  /** An approval whose proof does not verify, since its commitments are zero. */
  function DenyIt(): Op {
    var inputs := ProofInputs(_ => ZkProof.ZERO, [], ZkProof.Blinding(Ones(), Ones(), Ones()));
    Approve("t", "req", "i", "user", OpenPolicies(), inputs, 0)
  }

  function RejectIt(cancel: bool): Op {
    if cancel then Cancel("t", "req", "i", "user") else Reject("t", "req", "i", "user")
  }

  /** A reconciliation without a client, which confirms, or one that is not granted any query. */
  function ReconcileIt(hasClient: bool): Op {
    Reconcile("t", "req", "i", hasClient, _ => SolanaClient.NoStatus, 0, 0)
  }

  function Row(status: Status): Intent {
    var row := Created(CreateIt());
    match status
    case Pending => row
    case Approved => row.(status := Approved, approvedAt := Some(0))
    case Executing => row.(status := Executing, approvedAt := Some(0))
    case Submitted => row.(status := Submitted, approvedAt := Some(0), executedAt := Some(0), txSignature := "sig")
    case Confirmed =>
      row.(status := Confirmed, approvedAt := Some(0), executedAt := Some(0), txSignature := "sig", confirmedAt := Some(0))
    case _ => row.(status := status)
  }

  function Record(): Transaction {
    Transaction("tx", "i", "t", "w", PayloadOf(Row(Executing), PLACEHOLDER), TxSubmitted, 0, None, "sig")
  }

  function ConfirmedRecord(): Transaction {
    Record().(status := TxConfirmed, confirmedAt := Some(0))
  }

  lemma RowIsFine()
    ensures RowOk(Row(Pending)) && AmountOf(Row(Pending)) == 1
    ensures Decimal.ParseInt64(Row(Executing).amount) == Ok(1)
  {
    hide Decimal.IntentAmount, Decimal.ParseInt64, Decimal.Validate;
    Decimal.StoredAmountsReadBack(1);
  }

  lemma PoliciesAllow(row: Intent)
    requires row.walletId == "w"
    ensures PolicyEngine.Allows(OpenPolicies(), row) && PolicyEngine.Lookup(OpenPolicies(), row).Ok?
  {
  }

  lemma ProofIsFine()
    ensures ZkProof.CanGenerate(Row(Pending).amount, APPROVAL_LIMIT) && ProofVerifies(ApproveIt(), Row(Pending))
  {
    hide PolicyEngine.Allows, ProofVerifies, ZkProof.CanGenerate;
    RowIsFine();
    Decisions.ProofDecision(ApproveIt(), Row(Pending));
    var p := ProofOf(ApproveIt(), Row(Pending));
    assert Ones()[0] != ZkProof.ZERO[0];
    assert p.commitments == ZkProof.Triple(Ones(), Ones(), Ones()) && p.responses == ZkProof.Triple(Ones(), Ones(), Ones());
  }

  // --------------------------------------------------------- their effects

  /** Reconciliations of the intent that wait to start. */
  function ToStart(w: World): nat {
    Waiting(w.spawned, "t", "i")
  }

  /** Both tables and the submissions, the log left open. */
  predicate Stands(w: World, row: Intent, txs: seq<Transaction>, submitted: nat) {
    w.rows == map["i" := row] && w.txs == txs && SubmissionCount(w.submissions, "i") == submitted
  }

  lemma CreateLeaves()
    ensures var w' := Finish(EMPTY, Begin(EMPTY, CreateIt(), NoFault), NoFaults, 0).0;
            Stands(w', Row(Pending), [], 0) && ToStart(w') == 0
  {
    assert Decimal.ToLower("solana") == "solana";
    assert Acceptable(CreateIt());
    Decisions.CreationDecision(EMPTY, CreateIt(), NoFaults, 0);
  }

  /** A handler that has read its row and is left with saving another. */
  predicate Saving(p: Prog, row: Intent) {
    p.Save? && p.row == row && p.next.Log? && p.next.next.Done?
  }

  lemma SavingLeaves(w: World, p: Prog, row: Intent, before: Intent, txs: seq<Transaction>, submitted: nat)
    requires Saving(p, row) && row.id == "i" && Stands(w, before, txs, submitted)
    ensures Stands(Finish(w, p, NoFaults, 0).0, row, txs, submitted)
    ensures Finish(w, p, NoFaults, 0).0.spawned == w.spawned
  {
    hide Finish;
    assert p == Save(row, p.checked, Log(p.next.event, Done));
    Decisions.FinishSaveAndLog(w, row, p.checked, p.next.event, NoFaults, 0);
  }

  lemma ApproveReads(w: World)
    requires w.rows == map["i" := Row(Pending)]
    ensures Saving(Begin(w, ApproveIt(), NoFault), Row(Approved))
    ensures Begin(w, ApproveIt(), NoFault).next.event == Entry(ApproveIt(), "user", IntentApproved, Success)
  {
    hide PolicyEngine.Allows, PolicyEngine.Lookup, ProofVerifies, ZkProof.CanGenerate, OpenPolicies, Proofs;
    PoliciesAllow(Row(Pending));
    ProofIsFine();
    assert Row(Pending).tenantId == "t" && Row(Pending).status == Pending;
  }

  lemma DenialFails()
    ensures DenyIt().Approve? && !ProofVerifies(DenyIt(), Row(Pending))
    ensures ZkProof.CanGenerate(Row(Pending).amount, APPROVAL_LIMIT)
  {
    hide ProofVerifies, ZkProof.CanGenerate, OpenPolicies, ProofOf, ZkProof.Assemble, ZkProof.AnyZero, Bytes.Utf8, DenyIt, Row;
    DenyFacts();
    RowIsFine();
    var op, row := DenyIt(), Row(Pending);
    Decisions.ProofDecision(op, row);
    var public := ZkProof.PublicInputs(AmountOf(row), op.zk.policyVersion, Bytes.Utf8(row.id), Bytes.Utf8(row.walletId));
    ZeroHashZeroes(op.zk.hash, 100000, public, op.zk.blinding);
  }

  lemma DenialReads(w: World)
    requires w.rows == map["i" := Row(Pending)]
    ensures Saving(Begin(w, DenyIt(), NoFault), Refused(Row(Pending), PolicyDenied))
    ensures Begin(w, DenyIt(), NoFault).next.event == Entry(DenyIt(), "user", IntentZkDenied, Denied)
  {
    hide PolicyEngine.Allows, PolicyEngine.Lookup, ProofVerifies, ZkProof.CanGenerate, OpenPolicies, DenyIt, Row;
    RowFacts();
    DenyFacts();
    DenialFails();
    PendingPays();
    PoliciesAllow(Row(Pending));
  }

  lemma PendingPays()
    ensures Row(Pending).walletId == "w"
  {
  }

  lemma DenyFacts()
    ensures var op := DenyIt();
            && op.Approve? && op.tenant == "t" && op.id == "i" && op.actor == "user" && op.requestId == "req"
            && op.policy == OpenPolicies() && forall x :: op.zk.hash(x) == ZkProof.ZERO
  {
    hide OpenPolicies;
  }

  lemma ZeroHashZeroes(h: Bytes.Hash, daily: Bytes.U64, public: ZkProof.PublicInputs, b: ZkProof.Blinding)
    requires public.amount <= daily && forall x :: h(x) == ZkProof.ZERO
    ensures ZkProof.Assemble(h, daily, public, b).public == public
    ensures ZkProof.AnyZero(ZkProof.Assemble(h, daily, public, b).commitments)
  {
  }

  lemma RejectReads(w: World, row: Intent, cancel: bool)
    requires w.rows == map["i" := row] && row.tenantId == "t" && (cancel ==> row.status in {Pending, Executing})
    ensures Saving(Begin(w, RejectIt(cancel), NoFault), Refused(row, RejectedByUser))
    ensures Begin(w, RejectIt(cancel), NoFault).next.event == Entry(RejectIt(cancel), "user", IntentRejected, Success)
  {
  }

  lemma ExecuteReads(w: World, accepted: bool)
    requires w.rows == map["i" := Row(Approved)]
    ensures var op := ExecuteIt(accepted);
            Begin(w, op, NoFault) == FindNonce("n", Decisions.StartExecuting(op, Row(Approved)))
  {
    hide ExecutingBody;
  }

  lemma GuardLetsThrough(w: World, next: Prog)
    requires w.txs == [] && w.rows == map["i" := Row(Approved)]
    ensures var find, guard := FindNonce("n", next), NonceGuard("n", next);
            && Rest(w, find, NoFault) == guard && Effect(w, find, NoFault) == w
            && Rest(w, guard, NoFault) == next && Effect(w, guard, NoFault) == w
            && Finish(w, find, NoFaults, 0) == Finish(w, next, NoFaults, 2)
  {
    hide Finish;
    assert NonceTaken(w, "n") by {
      assert w.rows["i"].nonce == "n";
    }
    FinishStep(w, FindNonce("n", next), NoFaults, 0);
    FinishStep(w, NonceGuard("n", next), NoFaults, 1);
  }

  /** From here on faults no longer matter and neither does the count of accesses. */
  lemma {:induction false} FinishAnyCount(w: World, p: Prog, k: nat, l: nat)
    ensures Finish(w, p, NoFaults, k).0 == Finish(w, p, NoFaults, l).0
    decreases Size(p)
  {
    if p.Done? {
    } else {
      FinishAnyCount(Effect(w, p, NoFault), Rest(w, p, NoFault), k + Accesses(p), l + Accesses(p));
    }
  }

  lemma ExecutingShape(accepted: bool)
    ensures var op, row := ExecuteIt(accepted), Row(Executing);
            ExecutingBody(op, row)
            == Log(Entry(op, "system", IntentSimulated, Success),
                 Log(Entry(op, "system", IntentSigned, Success), SubmitBody(op, row)))
  {
    hide SubmitBody, FailAs, Decimal.ParseInt64, PolicyEngine.Allows, OpenPolicies;
    RowIsFine();
    PoliciesAllow(Row(Executing));
  }

  function Executed(accepted: bool): Intent {
    if accepted then Row(Submitted) else FailedRow(Row(Executing), SubmissionFailed)
  }

  function RecordsOf(accepted: bool): seq<Transaction> {
    if accepted then [Record()] else []
  }

  /** The program from its first update on leaves its row, its record and one submission behind,
      whatever row it finds. */
  lemma StartLeaves(w: World, accepted: bool, before: Intent, txs: seq<Transaction>, submitted: nat)
    requires Stands(w, before, txs, submitted)
    ensures var w' := Finish(w, Decisions.StartExecuting(ExecuteIt(accepted), Row(Approved)), NoFaults, 0).0;
            && Stands(w', Executed(accepted), txs + RecordsOf(accepted), submitted + 1)
            && ToStart(w') == ToStart(w) + (if accepted then 1 else 0)
  {
    hide Finish, ExecutingBody;
    var p := Decisions.StartExecuting(ExecuteIt(accepted), Row(Approved));
    StartShape(ExecuteIt(accepted));
    var w1 := Effect(w, p, NoFault);
    FinishStep(w, p, NoFaults, 0);
    FinishAnyCount(w1, p.next, 0, 1);
    LoggedLeaves(w1, accepted, Row(Executing), txs, submitted);
  }

  lemma LoggedLeaves(w: World, accepted: bool, before: Intent, txs: seq<Transaction>, submitted: nat)
    requires Stands(w, before, txs, submitted)
    ensures var w' := Finish(w, Decisions.StartExecuting(ExecuteIt(accepted), Row(Approved)).next, NoFaults, 0).0;
            && Stands(w', Executed(accepted), txs + RecordsOf(accepted), submitted + 1)
            && ToStart(w') == ToStart(w) + (if accepted then 1 else 0)
  {
    hide Finish, SubmitBody;
    var op, row := ExecuteIt(accepted), Row(Executing);
    ExecutingShape(accepted);
    StartShape(op);
    var p := Decisions.StartExecuting(op, Row(Approved)).next;
    var w2 := Decisions.FinishLog(w, p.event, p.next, NoFaults, 0);
    var w3 := Decisions.FinishLog(w2, p.next.event, p.next.next, NoFaults, 1);
    var w4 := Decisions.FinishLog(w3, p.next.next.event, SubmitBody(op, row), NoFaults, 2);
    assert Stands(w4, before, txs, submitted);
    SubmitLeaves(w4, accepted, before, txs, submitted, 3);
  }

  lemma StartShape(op: Op)
    requires op.Execute?
    ensures Decisions.StartExecuting(op, Row(Approved))
         == Save(Row(Executing), true, Log(Entry(op, "user", IntentExecuting, Success), ExecutingBody(op, Row(Executing))))
  {
    hide ExecutingBody;
  }

  lemma SubmitLeaves(w: World, accepted: bool, before: Intent, txs: seq<Transaction>, submitted: nat, k: nat)
    requires Stands(w, before, txs, submitted)
    ensures var w' := Finish(w, SubmitBody(ExecuteIt(accepted), Row(Executing)), NoFaults, k).0;
            && Stands(w', Executed(accepted), txs + RecordsOf(accepted), submitted + 1)
            && ToStart(w') == ToStart(w) + (if accepted then 1 else 0)
  {
    hide Finish, Row;
    var p := SubmitBody(ExecuteIt(accepted), Row(Executing));
    var w1 := Effect(w, p, NoFault);
    SubmissionCounts(w, p, accepted);
    FinishStep(w, p, NoFaults, k);
    if accepted {
      RecordLeaves(w1, p.next, before, txs, submitted + 1, k);
    } else {
      FailureLeaves(w1, p.next, before, txs, submitted + 1, k);
      assert txs + [] == txs;
    }
  }

  lemma SubmissionCounts(w: World, p: Prog, accepted: bool)
    requires p == SubmitBody(ExecuteIt(accepted), Row(Executing))
    ensures var w1 := Effect(w, p, NoFault);
            && w1.rows == w.rows && w1.txs == w.txs && w1.spawned == w.spawned
            && SubmissionCount(w1.submissions, "i") == SubmissionCount(w.submissions, "i") + 1
  {
    SubmissionCountSnoc(w.submissions, p.submission, "i");
  }

  lemma FailureLeaves(w: World, p: Prog, before: Intent, txs: seq<Transaction>, submitted: nat, k: nat)
    requires Stands(w, before, txs, submitted) && p == SubmitBody(ExecuteIt(false), Row(Executing)).next
    ensures Stands(Finish(w, p, NoFaults, k).0, Executed(false), txs, submitted)
    ensures Finish(w, p, NoFaults, k).0.spawned == w.spawned
  {
    hide Finish;
    Decisions.FinishSaveAndLog(w, FailedRow(Row(Executing), SubmissionFailed), false, p.next.event, NoFaults, k);
  }

  lemma RecordLeaves(w: World, p: Prog, before: Intent, txs: seq<Transaction>, submitted: nat, k: nat)
    requires Stands(w, before, txs, submitted) && p == SubmitBody(ExecuteIt(true), Row(Executing)).next
    ensures var w' := Finish(w, p, NoFaults, k).0;
            Stands(w', Row(Submitted), txs + [Record()], submitted) && ToStart(w') == ToStart(w) + 1
  {
    hide Finish;
    assert p.Save? && p.row == Row(Submitted) && p.next.InsertTx? && p.next.tx == Record();
    var w1 := Effect(w, p, NoFault);
    FinishStep(w, p, NoFaults, k);
    var w2 := Effect(w1, p.next, NoFault);
    FinishStep(w1, p.next, NoFaults, k + 1);
    var log := p.next.next;
    var w3 := Decisions.FinishLog(w2, log.event, log.next, NoFaults, k + 2);
    var w4 := Effect(w3, log.next, NoFault);
    FinishStep(w3, log.next, NoFaults, k + 3);
    FinishDone(w4, NoFaults, k + 3);
  }

  lemma ReconcileReads(w: World, hasClient: bool)
    requires w.rows == map["i" := Row(Submitted)]
    ensures var op := ReconcileIt(hasClient);
            if hasClient then Saving(Begin(w, op, NoFault), FailedRow(Row(Submitted), ConfirmationTimeout))
            else Begin(w, op, NoFault) == ConfirmBody(op, Row(Submitted))
  {
    hide SolanaClient.Attempts, ConfirmBody;
    NoQueryNoConfirmation(ReconcileIt(hasClient).statuses);
  }

  lemma NoQueryNoConfirmation(statuses: nat -> SolanaClient.Status)
    ensures !SolanaClient.Attempts(statuses, 0, SolanaClient.MAX_ATTEMPTS, 0).0
  {
    SolanaClient.AttemptsOutcome(statuses, 0, SolanaClient.MAX_ATTEMPTS, 0);
    hide SolanaClient.Attempts;
  }

  lemma ConfirmLeaves(w: World, before: Intent, txs: seq<Transaction>, submitted: nat)
    requires Stands(w, before, txs, submitted) && |txs| > 0 && txs[0] == Record()
    ensures var w' := Finish(w, ConfirmBody(ReconcileIt(false), Row(Submitted)), NoFaults, 0).0;
            Stands(w', Row(Confirmed), txs[0 := ConfirmedRecord()], submitted) && w'.spawned == w.spawned
  {
    hide Finish;
    var p := ConfirmBody(ReconcileIt(false), Row(Submitted));
    assert p.row == Row(Confirmed);
    var w1 := Effect(w, p, NoFault);
    FinishStep(w, p, NoFaults, 0);
    FinishStep(w1, p.next, NoFaults, 1);
    assert HasTx(w1, "i") by {
      assert w1.txs[0].intentId == "i";
    }
    var confirm := ConfirmTx(p.next.id, p.next.now, p.next.next);
    var w2 := Effect(w1, confirm, NoFault);
    FinishStep(w1, confirm, NoFaults, 2);
    assert w2.txs == txs[0 := ConfirmedRecord()];
    Decisions.FinishLastLog(w2, p.next.next.event, NoFaults, 3);
  }

  // ------------------------------------------------------------- schedules

  lemma PendingIntent(d: Discipline) returns (sys: Sys)
    ensures Reach(d, INITIAL, sys) && Idle(sys, 1, {}) && Stands(sys.w, Row(Pending), [], 0) && ToStart(sys.w) == 0
  {
    hide Reach, Finish, Begin, Stands, Row, Apart, Launched, ToStart;
    RequestsJustStart(EMPTY, CreateIt());
    sys := RunIt(d, INITIAL, 0, {}, CreateIt());
    CreateLeaves();
  }

  lemma RunApproval(d: Discipline, sys: Sys, k: nat, live: set<nat>) returns (sys': Sys)
    requires Idle(sys, k, live) && MayStart(d, sys, live, ApproveIt()) && Stands(sys.w, Row(Pending), [], 0)
    ensures Reach(d, sys, sys') && Idle(sys', k + 1, live)
    ensures Stands(sys'.w, Row(Approved), [], 0) && ToStart(sys'.w) == ToStart(sys.w)
    ensures sys'.threads == sys.threads[T(k) := Running(ApproveIt(), Done)]
  {
    hide Reach, Finish, Begin, Row, Idle, MayStart, Saving, Launched;
    RequestsJustStart(sys.w, ApproveIt());
    sys' := RunIt(d, sys, k, live, ApproveIt());
    ApproveReads(sys.w);
    RowId();
    SavingLeaves(sys.w, Begin(sys.w, ApproveIt(), NoFault), Row(Approved), Row(Pending), [], 0);
  }

  lemma RowId()
    ensures forall s: Status :: Row(s).id == "i"
  {
  }

  lemma RunExecution(d: Discipline, sys: Sys, k: nat, live: set<nat>, accepted: bool, submitted: nat) returns (sys': Sys)
    requires Idle(sys, k, live) && MayStart(d, sys, live, ExecuteIt(accepted)) && Stands(sys.w, Row(Approved), [], submitted)
    ensures Reach(d, sys, sys') && Idle(sys', k + 1, live)
    ensures Stands(sys'.w, Executed(accepted), RecordsOf(accepted), submitted + 1)
    ensures ToStart(sys'.w) == ToStart(sys.w) + (if accepted then 1 else 0)
    ensures sys'.threads == sys.threads[T(k) := Running(ExecuteIt(accepted), Done)]
  {
    hide Reach, Finish, Begin, Row, Idle, MayStart, Decisions.StartExecuting, Executed, RecordsOf, Launched, ToStart;
    RequestsJustStart(sys.w, ExecuteIt(accepted));
    sys' := RunIt(d, sys, k, live, ExecuteIt(accepted));
    OneRow(sys.w, Row(Approved), [], submitted);
    ExecuteReads(sys.w, accepted);
    var start := Decisions.StartExecuting(ExecuteIt(accepted), Row(Approved));
    GuardLetsThrough(sys.w, start);
    FinishAnyCount(sys.w, start, 0, 2);
    StartLeaves(sys.w, accepted, Row(Approved), [], submitted);
    assert [] + RecordsOf(accepted) == RecordsOf(accepted);
  }

  /** A reconciliation that starts leaves the tables alone, and one fewer waits. */
  lemma LaunchedStands(w: World, hasClient: bool, row: Intent, txs: seq<Transaction>, submitted: nat)
    requires Stands(w, row, txs, submitted) && ToStart(w) > 0
    ensures var w' := Launched(w, ReconcileIt(hasClient)); Stands(w', row, txs, submitted) && ToStart(w') == ToStart(w) - 1
  {
  }

  lemma RunConfirmation(d: Discipline, sys: Sys, k: nat, live: set<nat>, txs: seq<Transaction>, submitted: nat)
    returns (sys': Sys)
    requires Idle(sys, k, live) && MayStart(d, sys, live, ReconcileIt(false)) && ToStart(sys.w) > 0
    requires Stands(sys.w, Row(Submitted), txs, submitted) && |txs| > 0 && txs[0] == Record()
    ensures Reach(d, sys, sys') && Idle(sys', k + 1, live)
    ensures Stands(sys'.w, Row(Confirmed), txs[0 := ConfirmedRecord()], submitted)
    ensures sys'.threads == sys.threads[T(k) := Running(ReconcileIt(false), Done)]
  {
    hide Reach, Finish, Begin, Row, Idle, MayStart, ConfirmBody, Launched, ToStart, Stands, Record, ConfirmedRecord;
    sys' := RunIt(d, sys, k, live, ReconcileIt(false));
    LaunchedStands(sys.w, false, Row(Submitted), txs, submitted);
    var w := Launched(sys.w, ReconcileIt(false));
    OneRow(w, Row(Submitted), txs, submitted);
    ReconcileReads(w, false);
    ConfirmLeaves(w, Row(Submitted), txs, submitted);
  }

  /** A handler that is left with one save finishes, whatever has happened meanwhile. */
  lemma SaveStale(d: Discipline, sys: Sys, k: nat, n: nat, row: Intent, before: Intent, txs: seq<Transaction>, submitted: nat)
    returns (sys': Sys)
    requires Idle(sys, k, {n}) && sys.threads[T(n)].Running? && Saving(sys.threads[T(n)].prog, row) && row.id == "i"
    requires Stands(sys.w, before, txs, submitted)
    ensures Reach(d, sys, sys') && Idle(sys', k, {}) && Stands(sys'.w, row, txs, submitted)
    ensures ToStart(sys'.w) == ToStart(sys.w)
  {
    hide Reach, Finish, Saving, Stands;
    sys' := FinishIt(d, sys, k, {n}, n);
    assert {n} - {n} == {};
    SavingLeaves(sys.w, sys.threads[T(n)].prog, row, before, txs, submitted);
  }

  lemma ApprovedIntent(d: Discipline) returns (sys: Sys)
    ensures Reach(d, INITIAL, sys) && Idle(sys, 2, {}) && Stands(sys.w, Row(Approved), [], 0) && ToStart(sys.w) == 0
  {
    hide Reach, Stands, Row, Apart, ToStart;
    var s1 := PendingIntent(d);
    sys := RunApproval(d, s1, 1, {});
    ReachOn(d, INITIAL, s1, sys);
  }

  lemma SubmittedIntent(d: Discipline) returns (sys: Sys)
    ensures Reach(d, INITIAL, sys) && Idle(sys, 3, {}) && Stands(sys.w, Row(Submitted), [Record()], 1)
    ensures ToStart(sys.w) == 1
  {
    hide Reach, Stands, Row, Apart, ToStart;
    var s1 := ApprovedIntent(d);
    sys := RunExecution(d, s1, 2, {}, true, 0);
    ReachOn(d, INITIAL, s1, sys);
  }

  /** An approval that has read the pending row while another one and a whole execution went by. */
  lemma ApprovalWaits(d: Discipline, accepted: bool) returns (sys: Sys)
    requires !NoStaleApproval(d)
    ensures Reach(d, INITIAL, sys) && Idle(sys, 4, {1}) && Stands(sys.w, Executed(accepted), RecordsOf(accepted), 1)
    ensures ToStart(sys.w) == if accepted then 1 else 0
    ensures sys.threads[T(1)].Running? && Saving(sys.threads[T(1)].prog, Row(Approved)) && sys.threads[T(1)].op == ApproveIt()
  {
    hide Reach, Stands, Row, Apart, Begin, Executed, RecordsOf, Saving, Launched, ToStart;
    var s1 := PendingIntent(d);
    RequestsJustStart(s1.w, ApproveIt());
    var s2 := StartIt(d, s1, 1, {}, ApproveIt());
    assert {} + {1} == {1};
    OneRow(s1.w, Row(Pending), [], 0);
    ApproveReads(s1.w);
    var s3 := RunApproval(d, s2, 2, {1});
    sys := RunExecution(d, s3, 3, {1}, accepted, 0);
    ReachOn(d, INITIAL, s1, s2);
    ReachOn(d, INITIAL, s2, s3);
    ReachOn(d, INITIAL, s3, sys);
  }

  /** It saves the row as approved again, after the confirmation too if `confirm`. */
  lemma StaleApproval(d: Discipline, accepted: bool, confirm: bool) returns (sys: Sys, k: nat)
    requires !NoStaleApproval(d) && (confirm ==> accepted && !Apart(d, Approval, Reconciling))
    ensures Reach(d, INITIAL, sys) && Idle(sys, k, {})
    ensures Stands(sys.w, Row(Approved), if confirm then [ConfirmedRecord()] else RecordsOf(accepted), 1)
    ensures accepted && !confirm ==> ToStart(sys.w) == 1
  {
    hide Reach, Stands, Row, Apart, Saving, Record, ConfirmedRecord;
    RowId();
    var s1 := ApprovalWaits(d, accepted);
    if confirm {
      var s2 := RunConfirmation(d, s1, 4, {1}, [Record()], 1);
      assert [Record()][0 := ConfirmedRecord()] == [ConfirmedRecord()];
      k := 5;
      sys := SaveStale(d, s2, 5, 1, Row(Approved), Row(Confirmed), [ConfirmedRecord()], 1);
      ReachOn(d, INITIAL, s1, s2);
      ReachOn(d, INITIAL, s2, sys);
    } else {
      k := 4;
      sys := SaveStale(d, s1, 4, 1, Row(Approved), Executed(accepted), RecordsOf(accepted), 1);
      ReachOn(d, INITIAL, s1, sys);
    }
  }

  lemma OneRow(w: World, row: Intent, txs: seq<Transaction>, submitted: nat)
    requires Stands(w, row, txs, submitted)
    ensures w.rows == map["i" := row] && w.txs == txs
  {
  }

  /** Read the approved row and look its nonce up, before any record is there. */
  lemma PassGuard(d: Discipline, sys: Sys, k: nat, live: set<nat>, accepted: bool) returns (sys': Sys)
    requires Idle(sys, k, live) && MayStart(d, sys, live, ExecuteIt(accepted)) && Stands(sys.w, Row(Approved), [], 0)
    ensures Reach(d, sys, sys') && Idle(sys', k + 1, live + {k}) && sys'.w == sys.w
    ensures sys'.threads == sys.threads[T(k) := Running(ExecuteIt(accepted),
      Decisions.StartExecuting(ExecuteIt(accepted), Row(Approved)))]
  {
    hide Reach, Row, Begin, Decisions.StartExecuting, Effect, Rest, Idle, MayStart, Stands, Apart, Launched;
    var op := ExecuteIt(accepted);
    RequestsJustStart(sys.w, op);
    var start := Decisions.StartExecuting(op, Row(Approved));
    OneRow(sys.w, Row(Approved), [], 0);
    ExecuteReads(sys.w, accepted);
    var s1 := StartIt(d, sys, k, live, op);
    GuardLetsThrough(sys.w, start);
    var s2 := StepIt(d, s1, k + 1, live + {k}, k);
    sys' := StepIt(d, s2, k + 1, live + {k}, k);
    ReachOn(d, sys, s1, s2);
    ReachOn(d, sys, s2, sys');
    assert sys'.threads == sys.threads[T(k) := Running(op, start)];
  }

  /** An execution that is past its guard finishes, whatever has happened meanwhile. */
  lemma FinishExecution(d: Discipline, sys: Sys, k: nat, live: set<nat>, n: nat, before: Intent, txs: seq<Transaction>,
                        submitted: nat) returns (sys': Sys)
    requires Idle(sys, k, live) && n in live && Stands(sys.w, before, txs, submitted)
    requires sys.threads[T(n)] == Running(ExecuteIt(true), Decisions.StartExecuting(ExecuteIt(true), Row(Approved)))
    ensures Reach(d, sys, sys') && Idle(sys', k, live - {n})
    ensures Stands(sys'.w, Row(Submitted), txs + [Record()], submitted + 1) && ToStart(sys'.w) == ToStart(sys.w) + 1
    ensures sys'.threads == sys.threads[T(n) := Running(ExecuteIt(true), Done)]
  {
    hide Reach, Row, Decisions.StartExecuting, Finish, Stands, ToStart;
    sys' := FinishIt(d, sys, k, live, n);
    StartLeaves(sys.w, true, before, txs, submitted);
  }

  /** Two executions pass the guard, and one of them goes on to its end. */
  lemma ExecutionWaits(d: Discipline) returns (sys: Sys)
    requires !Apart(d, Execution, Execution)
    ensures Reach(d, INITIAL, sys) && Idle(sys, 4, {3}) && Stands(sys.w, Row(Submitted), [Record()], 1)
    ensures sys.threads[T(3)] == Running(ExecuteIt(true), Decisions.StartExecuting(ExecuteIt(true), Row(Approved)))
    ensures ToStart(sys.w) == 1
  {
    hide Reach, Stands, Row, Apart, Decisions.StartExecuting, Record, ToStart;
    var s1 := ApprovedIntent(d);
    var s2 := PassGuard(d, s1, 2, {}, true);
    assert {} + {2} == {2};
    var s3 := PassGuard(d, s2, 3, {2}, true);
    sys := FinishExecution(d, s3, 4, {2} + {3}, 2, Row(Approved), [], 0);
    assert {2} + {3} - {2} == {3} && [] + [Record()] == [Record()];
    ReachOn(d, INITIAL, s1, s2);
    ReachOn(d, INITIAL, s2, s3);
    ReachOn(d, INITIAL, s3, sys);
  }

  /** The other one follows, after a confirmation if `confirm`. */
  lemma TwoExecutions(d: Discipline, confirm: bool) returns (sys: Sys, k: nat)
    requires !Apart(d, Execution, Execution) && (confirm ==> !Apart(d, Execution, Reconciling))
    ensures Reach(d, INITIAL, sys) && Idle(sys, k, {})
    ensures Stands(sys.w, Row(Submitted), [if confirm then ConfirmedRecord() else Record(), Record()], 2)
    ensures !confirm ==> ToStart(sys.w) == 2
  {
    hide Reach, Stands, Row, Apart, Decisions.StartExecuting, Record, ConfirmedRecord;
    var s1 := ExecutionWaits(d);
    assert {3} - {3} == {};
    if confirm {
      var s2 := RunConfirmation(d, s1, 4, {3}, [Record()], 1);
      assert [Record()][0 := ConfirmedRecord()] == [ConfirmedRecord()];
      k := 5;
      sys := FinishExecution(d, s2, 5, {3}, 3, Row(Confirmed), [ConfirmedRecord()], 1);
      assert [ConfirmedRecord()] + [Record()] == [ConfirmedRecord(), Record()];
      ReachOn(d, INITIAL, s1, s2);
      ReachOn(d, INITIAL, s2, sys);
    } else {
      k := 4;
      sys := FinishExecution(d, s1, 4, {3}, 3, Row(Submitted), [Record()], 1);
      assert [Record()] + [Record()] == [Record(), Record()];
      ReachOn(d, INITIAL, s1, sys);
    }
  }

  lemma RowFacts()
    ensures forall s: Status :: Row(s).tenantId == "t" && Row(s).status == s
  {
  }

  /** A rejection that read the approved row saves it after the execution. */
  lemma RejectionBesideExecution(d: Discipline) returns (sys: Sys)
    requires !Apart(d, Execution, Rejection)
    ensures Reach(d, INITIAL, sys) && Stands(sys.w, Refused(Row(Approved), RejectedByUser), [Record()], 1)
  {
    hide Reach, Stands, Row, Begin, Launched, ToStart, Record;
    RowId();
    RowFacts();
    var s1 := ApprovedIntent(d);
    RequestsJustStart(s1.w, RejectIt(false));
    var s2 := StartIt(d, s1, 2, {}, RejectIt(false));
    assert {} + {2} == {2};
    OneRow(s1.w, Row(Approved), [], 0);
    RejectReads(s1.w, Row(Approved), false);
    var s3 := RunExecution(d, s2, 3, {2}, true, 0);
    sys := SaveStale(d, s3, 4, 2, Refused(Row(Approved), RejectedByUser), Row(Submitted), [Record()], 1);
    ReachOn(d, INITIAL, s1, s2);
    ReachOn(d, INITIAL, s2, s3);
    ReachOn(d, INITIAL, s3, sys);
  }

  /** A rejection that read the submitted row saves it after the confirmation. */
  lemma RejectionBesideReconciliation(d: Discipline) returns (sys: Sys)
    requires !Apart(d, Rejection, Reconciling)
    ensures Reach(d, INITIAL, sys) && Stands(sys.w, Refused(Row(Submitted), RejectedByUser), [ConfirmedRecord()], 1)
  {
    hide Reach, Stands, Row, Apart, Begin, Launched, Record, ConfirmedRecord;
    RowId();
    RowFacts();
    var s1 := SubmittedIntent(d);
    RequestsJustStart(s1.w, RejectIt(false));
    var s2 := StartIt(d, s1, 3, {}, RejectIt(false));
    assert {} + {3} == {3};
    OneRow(s1.w, Row(Submitted), [Record()], 1);
    RejectReads(s1.w, Row(Submitted), false);
    var s3 := RunConfirmation(d, s2, 4, {3}, [Record()], 1);
    assert [Record()][0 := ConfirmedRecord()] == [ConfirmedRecord()];
    sys := SaveStale(d, s3, 5, 3, Refused(Row(Submitted), RejectedByUser), Row(Confirmed), [ConfirmedRecord()], 1);
    ReachOn(d, INITIAL, s1, s2);
    ReachOn(d, INITIAL, s2, s3);
    ReachOn(d, INITIAL, s3, sys);
  }

  /** Where two reconciliations are waiting, one that gives up saves its row after the other one has
      confirmed. */
  lemma TwoReconciliations(d: Discipline, s0: Sys, k: nat) returns (sys: Sys)
    requires !Apart(d, Reconciling, Reconciling) && Idle(s0, k, {}) && ToStart(s0.w) == 2
    requires Stands(s0.w, Row(Submitted), [Record(), Record()], 2)
    ensures Reach(d, s0, sys)
    ensures Stands(sys.w, FailedRow(Row(Submitted), ConfirmationTimeout), [ConfirmedRecord(), Record()], 2)
  {
    hide Reach, Stands, Row, Apart, Begin, Launched, Record, ConfirmedRecord;
    RowId();
    var txs := [Record(), Record()];
    var s1 := StartIt(d, s0, k, {}, ReconcileIt(true));
    assert {} + {k} == {k};
    LaunchedStands(s0.w, true, Row(Submitted), txs, 2);
    OneRow(s1.w, Row(Submitted), txs, 2);
    ReconcileReads(s1.w, true);
    var s2 := RunConfirmation(d, s1, k + 1, {k}, txs, 2);
    assert txs[0 := ConfirmedRecord()] == [ConfirmedRecord(), Record()];
    sys := SaveStale(d, s2, k + 2, k, FailedRow(Row(Submitted), ConfirmationTimeout), Row(Confirmed),
                     [ConfirmedRecord(), Record()], 2);
    ReachOn(d, s0, s1, s2);
    ReachOn(d, s0, s2, sys);
  }

  /** Keeping the discipline, with faults or without, the system can get there. */
  ghost predicate ReachWithFaults(d: Discipline, sys: Sys, sys': Sys) {
    exists es :: SerialFrom(d, sys, es) && Run(sys, es) == sys'
  }

  lemma ReachOnWithFaults(d: Discipline, a: Sys, b: Sys, c: Sys)
    requires ReachWithFaults(d, a, b) && (Reach(d, b, c) || ReachWithFaults(d, b, c))
    ensures ReachWithFaults(d, a, c)
  {
    hide Run, SerialFrom, FaultFree;
    var x :| SerialFrom(d, a, x) && Run(a, x) == b;
    var y :| SerialFrom(d, b, y) && Run(b, y) == c;
    RunAppend(a, x, y);
    SerialAppend(d, a, x, y);
    assert SerialFrom(d, a, x + y);
  }

  lemma FaultyStep(d: Discipline, sys: Sys, tid: Tid, fault: Fault)
    ensures ReachWithFaults(d, sys, sys) && ReachWithFaults(d, sys, Next(sys, Tick(tid, fault)))
  {
    var e := Tick(tid, fault);
    RunOne(sys, e);
    assert [e][..0] == [];
    assert SerialFrom(d, sys, []) && Run(sys, []) == sys;
    assert SerialFrom(d, sys, [e]) && Run(sys, [e]) == Next(sys, e);
  }

  /** After a stale approval a second execution gets past the record of the first one if its lookup
      fails, and calls for a second reconciliation. */
  lemma SecondCallAfterStaleApproval(d: Discipline) returns (sys: Sys, k: nat)
    requires !NoStaleApproval(d)
    ensures ReachWithFaults(d, INITIAL, sys) && Idle(sys, k, {}) && ToStart(sys.w) == 2
    ensures Stands(sys.w, Row(Submitted), [Record(), Record()], 2)
  {
    hide Reach, ReachWithFaults, Stands, Row, Apart, Begin, Launched, ToStart, Record, Decisions.StartExecuting;
    var s1, n := StaleApproval(d, true, false);
    var op := ExecuteIt(true);
    var start := Decisions.StartExecuting(op, Row(Approved));
    RequestsJustStart(s1.w, op);
    var s2 := StartIt(d, s1, n, {}, op);
    assert {} + {n} == {n} && {n} - {n} == {};
    OneRow(s1.w, Row(Approved), [Record()], 1);
    ExecuteReads(s1.w, true);
    var s3 := Next(s2, Tick(T(n), Lost));
    assert s3.w == s2.w && s3.threads == s2.threads[T(n) := Running(op, start)];
    k := n + 1;
    sys := FinishExecution(d, s3, k, {n}, n, Row(Approved), [Record()], 1);
    assert [Record()] + [Record()] == [Record(), Record()];
    FaultyStep(d, INITIAL, T(n), Lost);
    FaultyStep(d, s2, T(n), Lost);
    ReachOnWithFaults(d, INITIAL, INITIAL, s1);
    ReachOnWithFaults(d, INITIAL, s1, s2);
    ReachOnWithFaults(d, INITIAL, s2, s3);
    ReachOnWithFaults(d, INITIAL, s3, sys);
  }

  /** An execution stopped after saving its row as executing, and a cancellation that has read it. */
  lemma CancellationReads(d: Discipline) returns (sys: Sys)
    requires !Apart(d, Execution, Cancellation)
    ensures Reach(d, INITIAL, sys) && Idle(sys, 4, {2, 3}) && Stands(sys.w, Row(Executing), [], 0) && ToStart(sys.w) == 0
    ensures sys.threads[T(3)].Running? && Saving(sys.threads[T(3)].prog, Refused(Row(Executing), RejectedByUser))
    ensures sys.threads[T(3)].op == RejectIt(true)
    ensures sys.threads[T(3)].prog.next.event == Entry(RejectIt(true), "user", IntentRejected, Success)
    ensures sys.threads[T(2)] == Running(ExecuteIt(true), Decisions.StartExecuting(ExecuteIt(true), Row(Approved)).next)
  {
    hide Reach, Stands, Row, Begin, Decisions.StartExecuting, Launched, ToStart;
    RowId();
    RowFacts();
    var s1 := ApprovedIntent(d);
    var s2 := PassGuard(d, s1, 2, {}, true);
    assert {} + {2} == {2};
    var s3 := StepIt(d, s2, 3, {2}, 2);
    StartSaves(s2.w);
    RequestsJustStart(s3.w, RejectIt(true));
    sys := StartIt(d, s3, 3, {2}, RejectIt(true));
    assert {2} + {3} == {2, 3};
    OneRow(s3.w, Row(Executing), [], 0);
    RejectReads(s3.w, Row(Executing), true);
    ReachOn(d, INITIAL, s1, s2);
    ReachOn(d, INITIAL, s2, s3);
    ReachOn(d, INITIAL, s3, sys);
  }

  lemma StartSaves(w: World)
    requires Stands(w, Row(Approved), [], 0)
    ensures var p := Decisions.StartExecuting(ExecuteIt(true), Row(Approved));
            && Rest(w, p, NoFault) == p.next && Stands(Effect(w, p, NoFault), Row(Executing), [], 0)
            && ToStart(Effect(w, p, NoFault)) == ToStart(w)
  {
    hide ExecutingBody;
  }

  /** The cancellation saves the row after the execution, and after the confirmation too if `confirm`. */
  lemma CancellationBesideExecution(d: Discipline, confirm: bool) returns (sys: Sys)
    requires !Apart(d, Execution, Cancellation) && (confirm ==> !Apart(d, Cancellation, Reconciling))
    ensures Reach(d, INITIAL, sys)
    ensures Stands(sys.w, Refused(Row(Executing), RejectedByUser), [if confirm then ConfirmedRecord() else Record()], 1)
  {
    hide Reach, Stands, Row, Apart, Begin, Finish, Decisions.StartExecuting, Record, ConfirmedRecord;
    RowId();
    var s1 := CancellationReads(d);
    var s2 := FinishIt(d, s1, 4, {2, 3}, 2);
    assert {2, 3} - {2} == {3};
    LoggedLeaves(s1.w, true, Row(Executing), [], 0);
    assert [] + [Record()] == [Record()];
    ReachOn(d, INITIAL, s1, s2);
    if confirm {
      var s3 := RunConfirmation(d, s2, 4, {3}, [Record()], 1);
      assert [Record()][0 := ConfirmedRecord()] == [ConfirmedRecord()];
      sys := SaveStale(d, s3, 5, 3, Refused(Row(Executing), RejectedByUser), Row(Confirmed), [ConfirmedRecord()], 1);
      ReachOn(d, INITIAL, s2, s3);
      ReachOn(d, INITIAL, s3, sys);
    } else {
      sys := SaveStale(d, s2, 4, 3, Refused(Row(Executing), RejectedByUser), Row(Submitted), [Record()], 1);
      ReachOn(d, INITIAL, s2, sys);
    }
  }

  // -------------------------------------------------------------- theorems

  /** What holds of every intent in every run that keeps the discipline. */
  ghost predicate Keeps(d: Discipline, good: (World, string) -> bool) {
    forall es, id :: SerialRun(d, es) ==> good(Run(INITIAL, es).w, id)
  }

  /** Some run that keeps the discipline fails it, without any fault or crash. */
  ghost predicate FailsFaultFree(d: Discipline, good: (World, string) -> bool) {
    exists es, id :: FaultFree(es) && SerialRun(d, es) && !good(Run(INITIAL, es).w, id)
  }

  lemma FailingRun(d: Discipline, good: (World, string) -> bool, sys: Sys)
    requires Reach(d, INITIAL, sys) && !good(sys.w, "i")
    ensures FailsFaultFree(d, good) && !Keeps(d, good)
  {
    hide Run;
    var es :| Leads(d, INITIAL, es, sys);
    assert SerialRun(d, es) && !good(Run(INITIAL, es).w, "i");
  }

  /** A submitted intent stays away from pending and approved, under all faults and crashes, exactly
      when approvals are kept apart from each other or from executions. */
  lemma SubmittedNeverReturnsIff(d: Discipline)
    ensures Keeps(d, SubmittedStays) <==> NoStaleApproval(d)
    ensures !NoStaleApproval(d) ==> FailsFaultFree(d, SubmittedStays)
  {
    hide Run;
    if NoStaleApproval(d) {
      forall es, id | SerialRun(d, es) ensures SubmittedStays(Run(INITIAL, es).w, id) {
        SubmittedNeverReturns(d, es, id);
      }
    } else {
      var sys, k := StaleApproval(d, false, false);
      RowFacts();
      FailingRun(d, SubmittedStays, sys);
    }
  }

  /** No intent is submitted twice, under all faults and crashes, exactly when executions are kept
      apart from each other, and approvals from each other or from executions. */
  lemma AtMostOneSubmissionIff(d: Discipline)
    ensures Keeps(d, SubmittedOnce) <==> SubmitsOnce(d)
    ensures !SubmitsOnce(d) ==> FailsFaultFree(d, SubmittedOnce)
  {
    hide Run, Row;
    if SubmitsOnce(d) {
      forall es, id | SerialRun(d, es) ensures SubmittedOnce(Run(INITIAL, es).w, id) {
        AtMostOneSubmission(d, es, id);
      }
    } else {
      var sys := SecondSubmission(d);
      FailingRun(d, SubmittedOnce, sys);
    }
  }

  lemma SecondSubmission(d: Discipline) returns (sys: Sys)
    requires !SubmitsOnce(d)
    ensures Reach(d, INITIAL, sys) && SubmissionCount(sys.w.submissions, "i") == 2
    ensures |sys.w.txs| > 0 && sys.w.txs[0] == Record()
  {
    hide Reach, Row, Apart, Record;
    if NoStaleApproval(d) {
      var k;
      sys, k := TwoExecutions(d, false);
    } else {
      var s1, k := StaleApproval(d, false, false);
      sys := RunExecution(d, s1, k, {}, true, 1);
      ReachOn(d, INITIAL, s1, sys);
    }
  }

  /** The same for disciplines that keep certain kinds of handlers apart from each other: approvals
      and executions have to be among them, and nothing else. */
  lemma AtMostOneSubmissionForKinds(kinds: set<Kind>)
    ensures Keeps(Mutual(kinds), SubmittedOnce) <==> {Approval, Execution} <= kinds
  {
    AtMostOneSubmissionIff(Mutual(kinds));
    assert forall a, b :: Apart(Mutual(kinds), a, b) <==> a in kinds && b in kinds;
  }

  /** Records agree with their intents exactly when, besides, rejections and cancellations are kept
      apart from executions. */
  lemma RecordsAgreeIff(d: Discipline)
    ensures Keeps(d, RecordsMatch) <==> RecordsStay(d)
    ensures !RecordsStay(d) ==> FailsFaultFree(d, RecordsMatch)
  {
    hide Run, Row;
    if RecordsStay(d) {
      forall es, id | SerialRun(d, es) ensures RecordsMatch(Run(INITIAL, es).w, id) {
        RecordsAgree(d, es, id);
      }
    } else {
      var sys := BadRecord(d);
      FailingRun(d, RecordsMatch, sys);
    }
  }

  lemma BadRecord(d: Discipline) returns (sys: Sys)
    requires !RecordsStay(d)
    ensures Reach(d, INITIAL, sys) && !RecordsMatch(sys.w, "i")
  {
    hide Reach, Apart;
    if !SubmitsOnce(d) {
      sys := SecondSubmission(d);
      assert sys.w.txs[0].intentId == "i";
    } else if !Apart(d, Execution, Rejection) {
      sys := RejectionBesideExecution(d);
      assert sys.w.txs[0].intentId == "i" && sys.w.rows["i"].txSignature == "";
    } else {
      sys := CancellationBesideExecution(d, false);
      assert sys.w.txs[0].intentId == "i" && sys.w.rows["i"].txSignature == "";
    }
  }

  /** A confirmed record goes with a confirmation time on its intent exactly when no handler that
      read the intent before its reconciliation can save it afterwards: rejections are kept apart
      from reconciliations, cancellations, executions and approvals either from reconciliations or
      from what would let them be late, and reconciliations from each other unless there is no more
      than one. Without faults and crashes there is no more than one as soon as executions are kept
      apart, and nothing else changes. */
  lemma ConfirmedRecordsAgreeIff(d: Discipline)
    ensures Keeps(d, ConfirmationsMatch) <==> ConfirmationStays(d)
    ensures FailsFaultFree(d, ConfirmationsMatch) <==>
      !(NoLateRequest(d) && (Apart(d, Reconciling, Reconciling) || Apart(d, Execution, Execution)))
  {
    hide Run, Row, SerialRun;
    if ConfirmationStays(d) {
      forall es, id | SerialRun(d, es) ensures ConfirmationsMatch(Run(INITIAL, es).w, id) {
        ConfirmedRecordsAgree(d, es, id);
      }
    } else if NoLateRequest(d) && Apart(d, Execution, Execution) {
      var sys := SecondReconciliation(d);
      FailingWithFaults(d, ConfirmationsMatch, sys);
      forall es, id | FaultFree(es) && SerialRun(d, es) ensures ConfirmationsMatch(Run(INITIAL, es).w, id) {
        UndisturbedConfirmations(d, es, id);
      }
    } else {
      var sys := LostConfirmation(d);
      FailingRun(d, ConfirmationsMatch, sys);
    }
  }

  lemma UndisturbedConfirmations(d: Discipline, es: seq<Event>, id: string)
    requires NoLateRequest(d) && Apart(d, Execution, Execution) && SerialRun(d, es) && FaultFree(es)
    ensures ConfirmationsMatch(Run(INITIAL, es).w, id)
  {
    hide Run, SerialRun;
    Undisturbed.OneReconciliation(d, es);
    ConfirmedRecordsAgree(Undisturbed.Reconciled(d), es, id);
  }

  lemma FailingWithFaults(d: Discipline, good: (World, string) -> bool, sys: Sys)
    requires ReachWithFaults(d, INITIAL, sys) && !good(sys.w, "i")
    ensures !Keeps(d, good)
  {
    hide Run, SerialFrom;
    var es :| SerialFrom(d, INITIAL, es) && Run(INITIAL, es) == sys;
    assert SerialRun(d, es) && !good(Run(INITIAL, es).w, "i");
  }

  lemma SecondReconciliation(d: Discipline) returns (sys: Sys)
    requires !NoStaleApproval(d) && !Apart(d, Reconciling, Reconciling)
    ensures ReachWithFaults(d, INITIAL, sys) && !ConfirmationsMatch(sys.w, "i")
  {
    hide Reach, ReachWithFaults, Apart;
    var s1, k := SecondCallAfterStaleApproval(d);
    sys := TwoReconciliations(d, s1, k);
    ReachOnWithFaults(d, INITIAL, s1, sys);
    assert sys.w.txs[0] == ConfirmedRecord();
    assert sys.w.rows["i"].confirmedAt.None?;
  }

  lemma LostConfirmation(d: Discipline) returns (sys: Sys)
    requires !(NoLateRequest(d) && (Apart(d, Reconciling, Reconciling) || Apart(d, Execution, Execution)))
    ensures Reach(d, INITIAL, sys) && !ConfirmationsMatch(sys.w, "i")
  {
    hide Reach, Apart;
    if !Apart(d, Rejection, Reconciling) {
      sys := RejectionBesideReconciliation(d);
    } else if !Apart(d, Reconciling, Reconciling) && !Apart(d, Execution, Execution) {
      var s1, k := TwoExecutions(d, false);
      sys := TwoReconciliations(d, s1, k);
      ReachOn(d, INITIAL, s1, sys);
    } else if !Apart(d, Cancellation, Reconciling) && !Apart(d, Execution, Cancellation) {
      sys := CancellationBesideExecution(d, true);
    } else if !Apart(d, Execution, Reconciling) && !Apart(d, Execution, Execution) {
      var k;
      sys, k := TwoExecutions(d, true);
    } else {
      var k;
      sys, k := StaleApproval(d, true, true);
    }
    assert sys.w.txs[0] == ConfirmedRecord();
    assert sys.w.rows["i"].confirmedAt.None?;
  }

  /** Where the requests of an intent are serialised already, it is rejections that have to wait for a
      reconciliation, and no others. */
  lemma ConfirmedRecordsAgreeForRequests(d: Discipline)
    requires forall a, b :: a != Reconciling && b != Reconciling ==> Apart(d, a, b)
    ensures Keeps(d, ConfirmationsMatch) <==> Apart(d, Rejection, Reconciling)
  {
    ConfirmedRecordsAgreeIff(d);
  }

  // ------------------------------------------------- from every such state

  /** An execution whose signer and chain answer well. */
  function GoodExecution(row: Intent, env: PolicyEngine.Env, now: int): Op {
    Execute(row.tenantId, "req", row.id, now, None, env, true, Ok(SolanaClient.SubmitResult(true, "sig", "")), now, "tx")
  }

  predicate Runnable(row: Intent, env: PolicyEngine.Env, now: int) {
    RowOk(row) && row.status == Approved && now <= row.expiry && PolicyEngine.Allows(env, row)
  }

  /** An approved, unexpired intent without a record, allowed by the policies in `env`, and two
      handlers of its tenant that have not started. */
  predicate Poised(sys: Sys, id: string, env: PolicyEngine.Env, now: int, a: Tid, b: Tid) {
    && id in sys.w.rows && sys.w.rows[id].id == id && Runnable(sys.w.rows[id], env, now)
    && !HasTxForNonce(sys.w, sys.w.rows[id].nonce)
    && a != b && a !in sys.threads && b !in sys.threads
    && a.tenant == sys.w.rows[id].tenantId && b.tenant == sys.w.rows[id].tenantId
  }

  lemma ReachBegin(sys: Sys, tid: Tid, op: Op)
    requires Startable(sys, tid, op)
    ensures var w := Launched(sys.w, op); Reach({}, sys, Sys(w, sys.threads[tid := Running(op, Begin(w, op, NoFault))]))
  {
    hide Reach, Begin, Launched;
    var s1 := Next(sys, Start(tid, op));
    ReachOne({}, sys, Start(tid, op));
    ReachOne({}, s1, Tick(tid, NoFault));
    assert Next(s1, Tick(tid, NoFault)).threads == sys.threads[tid := Running(op, Begin(s1.w, op, NoFault))];
    ReachOn({}, sys, s1, Next(s1, Tick(tid, NoFault)));
  }

  /** Start, read, look the nonce up: with no record yet, the guard lets the handler through. */
  lemma ReachPastGuard(sys: Sys, tid: Tid, row: Intent, env: PolicyEngine.Env, now: int)
    requires Runnable(row, env, now) && row.id in sys.w.rows && sys.w.rows[row.id] == row
    requires !HasTxForNonce(sys.w, row.nonce) && tid !in sys.threads && tid.tenant == row.tenantId
    ensures var op := GoodExecution(row, env, now);
            Reach({}, sys, Sys(sys.w, sys.threads[tid := Running(op, Decisions.StartExecuting(op, row))]))
  {
    var op := GoodExecution(row, env, now);
    RunnableReads(sys.w, row, env, now);
    hide Reach, Begin, HasTxForNonce, Decisions.StartExecuting, Runnable, Launched;
    RequestsJustStart(sys.w, op);
    ReachBegin(sys, tid, op);
    Decisions.OwnNonceIsTaken(sys.w, row.id);
    hide NonceTaken;
    var s1 := Sys(sys.w, sys.threads[tid := Running(op, Begin(sys.w, op, NoFault))]);
    var s2 := Next(s1, Tick(tid, NoFault));
    var s3 := Next(s2, Tick(tid, NoFault));
    ReachOne({}, s1, Tick(tid, NoFault));
    ReachOne({}, s2, Tick(tid, NoFault));
    assert s3.threads == sys.threads[tid := Running(op, Decisions.StartExecuting(op, row))];
    ReachOn({}, sys, s1, s2);
    ReachOn({}, sys, s2, s3);
  }

  lemma RunnableReads(w: World, row: Intent, env: PolicyEngine.Env, now: int)
    requires Runnable(row, env, now) && row.id in w.rows && w.rows[row.id] == row
    ensures var op := GoodExecution(row, env, now);
            Begin(w, op, NoFault) == FindNonce(row.nonce, Decisions.StartExecuting(op, row))
  {
    hide ExecutingBody, RowOk, PolicyEngine.Allows;
  }

  /** Whenever an approved, unexpired intent without a record is allowed by its policies, two
      overlapping executions submit it twice, with no fault at all. */
  lemma OverlappingExecutionsSubmitTwice(sys: Sys, id: string, env: PolicyEngine.Env, now: int, a: Tid, b: Tid)
    returns (es: seq<Event>)
    requires Poised(sys, id, env, now, a, b)
    ensures FaultFree(es)
    ensures SubmissionCount(Run(sys, es).w.submissions, id) == SubmissionCount(sys.w.submissions, id) + 2
  {
    hide Run, Reach, HasTxForNonce, SubmissionCount, Finish, RowOk, PolicyEngine.Allows;
    var row := sys.w.rows[id];
    var op := GoodExecution(row, env, now);
    var start := Decisions.StartExecuting(op, row);
    ReachPastGuard(sys, a, row, env, now);
    var s1 := Sys(sys.w, sys.threads[a := Running(op, start)]);
    ReachPastGuard(s1, b, row, env, now);
    var s2 := Sys(sys.w, s1.threads[b := Running(op, start)]);
    ReachOn({}, sys, s1, s2);
    hide Decisions.StartExecuting;
    ReachFinish({}, s2, a, 0);
    var s3 := Sys(Finish(sys.w, start, NoFaults, 0).0, s2.threads[a := Running(op, Done)]);
    ReachOn({}, sys, s2, s3);
    ReachFinish({}, s3, b, 0);
    var s4 := Sys(Finish(s3.w, start, NoFaults, 0).0, s3.threads[b := Running(op, Done)]);
    ReachOn({}, sys, s3, s4);
    Decisions.StartDecision(sys.w, op, row, NoFaults, 0);
    Decisions.StartDecision(s3.w, op, row, NoFaults, 0);
    SubmissionCountSnoc(sys.w.submissions, Decisions.SubmissionOf(op, row.(status := Executing)), id);
    SubmissionCountSnoc(s3.w.submissions, Decisions.SubmissionOf(op, row.(status := Executing)), id);
    es := ScheduleOf(sys, s4);
  }

  lemma ScheduleOf(sys: Sys, sys': Sys) returns (es: seq<Event>)
    requires Reach({}, sys, sys')
    ensures FaultFree(es) && Run(sys, es) == sys'
  {
    hide Run, SerialFrom, FaultFree;
    es :| Leads({}, sys, es, sys');
  }

  /** Wherever a submitted intent with a signature and a record is waiting for its reconciliation, a
      rejection that read the row before the reconciler saved it wipes the confirmation time off the
      intent, while the record stays confirmed. */
  lemma RejectionBesideReconciler(sys: Sys, id: string, j: Tid, r: Tid, now: int) returns (es: seq<Event>)
    requires id in sys.w.rows && sys.w.rows[id].id == id && sys.w.rows[id].status == Submitted
    requires sys.w.rows[id].txSignature != "" && sys.w.rows[id].confirmedAt.None?
    requires RecordCount(sys.w.txs, id) > 0 && Waiting(sys.w.spawned, sys.w.rows[id].tenantId, id) > 0
    requires j != r && j !in sys.threads && r !in sys.threads
    requires j.tenant == sys.w.rows[id].tenantId && r.tenant == sys.w.rows[id].tenantId
    ensures FaultFree(es)
    ensures var w := Run(sys, es).w;
            TxConfirmedFor(w.txs, id) && id in w.rows && w.rows[id].confirmedAt.None?
  {
    hide Run, Reach, TxConfirmedFor, RecordCount, Finish;
    var row := sys.w.rows[id];
    var reject := Reject(row.tenantId, "req", id, "user");
    var confirm := Reconcile(row.tenantId, "req", id, false, _ => SolanaClient.NoStatus, 0, now);
    var p, q := RejectBody(reject, row), ConfirmBody(confirm, row);
    ReachBegin(sys, j, reject);
    var s1 := Sys(sys.w, sys.threads[j := Running(reject, p)]);
    ReachBegin(s1, r, confirm);
    var launched := Launched(sys.w, confirm);
    var s2 := Sys(launched, s1.threads[r := Running(confirm, q)]);
    ReachOn({}, sys, s1, s2);
    ReachFinish({}, s2, r, 0);
    var s3 := Sys(Finish(launched, q, NoFaults, 0).0, s2.threads[r := Running(confirm, Done)]);
    ReachOn({}, sys, s2, s3);
    ReachFinish({}, s3, j, 0);
    var s4 := Sys(Finish(s3.w, p, NoFaults, 0).0, s3.threads[j := Running(reject, Done)]);
    ReachOn({}, sys, s3, s4);
    ConfirmationConfirms(launched, q);
    Decisions.FinishSaveAndLog(s3.w, Refused(row, RejectedByUser), true, p.next.event, NoFaults, 0);
    es := ScheduleOf(sys, s4);
  }

  lemma ConfirmationConfirms(w: World, p: Prog)
    requires p.Save? && p.next.FindTx? && p.next.next.Log? && p.next.next.next.Done?
    requires RecordCount(w.txs, p.next.id) > 0
    ensures TxConfirmedFor(Finish(w, p, NoFaults, 0).0.txs, p.next.id)
  {
    hide Finish, TxConfirmedFor, RecordCount;
    var w1 := Effect(w, p, NoFault);
    FinishStep(w, p, NoFaults, 0);
    FinishStep(w1, p.next, NoFaults, 1);
    NoRecordCounted(w1.txs, p.next.id);
    assert HasTx(w1, p.next.id);
    var confirm := ConfirmTx(p.next.id, p.next.now, p.next.next);
    FinishStep(w1, confirm, NoFaults, 2);
    ConfirmView(w1.txs, p.next.id, p.next.now, p.next.id);
    Decisions.FinishLastLog(Effect(w1, confirm, NoFault), p.next.next.event, NoFaults, 3);
  }
}
