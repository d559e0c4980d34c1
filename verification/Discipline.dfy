/** Disciplines: which kinds of handlers are kept apart on one intent, and what can be seen of an
    intent while handlers overlap as far as a discipline lets them. */
module Discipline {
  import opened Wrappers
  import opened Domain
  import opened Workflow

  datatype Kind = Creation | Approval | Execution | Rejection | Cancellation | Reconciling

  function KindOf(op: Op): Kind {
    match op
    case Create(_, _, _, _, _, _, _, _, _, _, _, _) => Creation
    case Approve(_, _, _, _, _, _, _) => Approval
    case Execute(_, _, _, _, _, _, _, _, _, _) => Execution
    case Reject(_, _, _, _) => Rejection
    case Cancel(_, _, _, _) => Cancellation
    case Reconcile(_, _, _, _, _, _, _) => Reconciling
  }

  /** Pairs of kinds of which no two handlers are at work on one intent at the same time. */
  type Discipline = set<(Kind, Kind)>

  predicate Apart(d: Discipline, a: Kind, b: Kind) {
    (a, b) in d || (b, a) in d
  }

  /** The discipline that keeps handlers of some kinds apart from each other. */
  function Mutual(kinds: set<Kind>): Discipline {
    set a, b | a in kinds && b in kinds :: (a, b)
  }

  predicate Live(t: Thread) {
    t.Running? ==> !t.prog.Done?
  }

  predicate Overlaps(d: Discipline, t: Thread, op: Op) {
    Live(t) && Target(t.op) == Target(op) && Apart(d, KindOf(t.op), KindOf(op))
  }

  /** No handler starts on an intent while one that is to be kept apart from it is at work there. */
  predicate StartsAlone(d: Discipline, sys: Sys, e: Event) {
    e.Start? && Startable(sys, e.tid, e.op) ==> forall t :: t in sys.threads ==> !Overlaps(d, sys.threads[t], e.op)
  }

  predicate SerialFrom(d: Discipline, sys: Sys, es: seq<Event>) {
    |es| == 0 ||
    (SerialFrom(d, sys, es[..|es| - 1]) && StartsAlone(d, Run(sys, es[..|es| - 1]), es[|es| - 1]))
  }

  /** A run that keeps a discipline. Faults, crashes and everything else stay arbitrary. */
  predicate SerialRun(d: Discipline, es: seq<Event>) {
    SerialFrom(d, INITIAL, es)
  }

  lemma {:induction false} SerialAppend(d: Discipline, sys: Sys, a: seq<Event>, b: seq<Event>)
    requires SerialFrom(d, sys, a) && SerialFrom(d, Run(sys, a), b)
    ensures SerialFrom(d, sys, a + b)
    decreases |b|
  {
    if |b| == 0 {
      assert a + b == a;
    } else {
      var front := b[..|b| - 1];
      SerialAppend(d, sys, a, front);
      RunAppend(sys, a, front);
      assert (a + b)[..|a + b| - 1] == a + front;
    }
  }

  predicate FaultFree(es: seq<Event>) {
    forall i :: 0 <= i < |es| ==> !es[i].Crash? && (es[i].Tick? ==> es[i].fault.NoFault?)
  }

  // -------------------------------------------------- one intent's view

  function SubmissionCount(s: seq<Submission>, id: string): nat {
    if |s| == 0 then 0 else SubmissionCount(s[..|s| - 1], id) + (if s[|s| - 1].row.id == id then 1 else 0)
  }

  function RecordCount(txs: seq<Transaction>, id: string): nat {
    if |txs| == 0 then 0 else RecordCount(txs[..|txs| - 1], id) + (if txs[|txs| - 1].intentId == id then 1 else 0)
  }

  /** Reconciliations of an intent that have been called for, by tenant, and how many wait to start. */
  function Called(spawned: map<(string, string), nat>, id: string): map<string, nat> {
    map p | p in spawned && p.1 == id :: p.0 := spawned[p]
  }

  function More(called: map<string, nat>, tenant: string): map<string, nat> {
    called[tenant := (if tenant in called then called[tenant] else 0) + 1]
  }

  predicate TxConfirmedFor(txs: seq<Transaction>, id: string) {
    exists i :: 0 <= i < |txs| && txs[i].intentId == id && txs[i].status == TxConfirmed
  }

  /** The signatures that an intent's records confirm. */
  function Recorded(txs: seq<Transaction>, id: string): set<string> {
    set i | 0 <= i < |txs| && txs[i].intentId == id :: txs[i].confirmSignature
  }

  datatype View = View(status: Option<Status>, signature: string, confirmed: bool, submitted: nat, records: nat,
                       recorded: set<string>, called: map<string, nat>, txConfirmed: bool)

  function ViewOf(w: World, id: string): View {
    View(if id in w.rows then Some(w.rows[id].status) else None, if id in w.rows then w.rows[id].txSignature else "",
         id in w.rows && w.rows[id].confirmedAt.Some?, SubmissionCount(w.submissions, id), RecordCount(w.txs, id),
         Recorded(w.txs, id), Called(w.spawned, id), TxConfirmedFor(w.txs, id))
  }

  function WithRow(v: View, row: Intent): View {
    v.(status := Some(row.status), signature := row.txSignature, confirmed := row.confirmedAt.Some?)
  }

  /** An access of a program about this intent may turn the view into `v'` and leave `rest`. */
  ghost predicate Steps(v: View, p: Prog, fault: Fault, rest: Prog, v': View) {
    match p
    case Done => v' == v && rest.Done?
    case Insert(row, next) =>
      (v' == v && rest.Done?) || (v.status.None? && v' == WithRow(v, row) && (rest.Done? || rest == next))
    case FindNonce(nonce, next) => v' == v && (rest == NonceGuard(nonce, next) || rest == next)
    case NonceGuard(_, next) => v' == v && (rest.Done? || rest == next)
    case Save(row, checked, next) =>
      && v' == (if fault.Lost? then v else WithRow(v, row))
      && (if checked && !fault.NoFault? then rest.Done? else rest == next)
    case Log(_, next) => v' == v && rest == next
    case Submit(_, next) => v' == v.(submitted := v.submitted + 1) && rest == next
    case InsertTx(tx, next) =>
      && rest == next
      && (v' == v || (v' == v.(records := v.records + 1, recorded := v.recorded + {tx.confirmSignature},
                               txConfirmed := v.txConfirmed || tx.status == TxConfirmed)))
    case Spawn(tenant, _, next) => v' == v.(called := More(v.called, tenant)) && rest == next
    case FindTx(id, now, next) => v' == v && (rest == ConfirmTx(id, now, next) || rest == next)
    case ConfirmTx(_, _, next) => rest == next && (v' == v || v' == v.(txConfirmed := v.records > 0))
  }

  /** Every row, submission and record that a program touches is that of one intent. */
  predicate OnlyOn(p: Prog, id: string) {
    match p
    case Insert(row, _) => row.id == id
    case Save(row, _, _) => row.id == id
    case Submit(s, _) => s.row.id == id
    case InsertTx(tx, _) => tx.intentId == id
    case Spawn(_, target, _) => target == id
    case FindTx(target, _, _) => target == id
    case ConfirmTx(target, _, _) => target == id
    case _ => true
  }

  lemma SubmissionCountSnoc(s: seq<Submission>, x: Submission, id: string)
    ensures SubmissionCount(s + [x], id) == SubmissionCount(s, id) + (if x.row.id == id then 1 else 0)
  {
    assert (s + [x])[..|s|] == s;
  }

  lemma RecordSnoc(txs: seq<Transaction>, x: Transaction, id: string)
    ensures RecordCount(txs + [x], id) == RecordCount(txs, id) + (if x.intentId == id then 1 else 0)
    ensures TxConfirmedFor(txs + [x], id) == (TxConfirmedFor(txs, id) || (x.intentId == id && x.status == TxConfirmed))
    ensures Recorded(txs + [x], id) == Recorded(txs, id) + (if x.intentId == id then {x.confirmSignature} else {})
  {
    var a := txs + [x];
    assert a[..|txs|] == txs && a[|txs|] == x;
    assert forall i :: 0 <= i < |txs| ==> a[i] == txs[i];
  }

  lemma {:induction false} RecordCountOfIds(a: seq<Transaction>, b: seq<Transaction>, id: string)
    requires |a| == |b| && forall i :: 0 <= i < |a| ==> a[i].intentId == b[i].intentId
    ensures RecordCount(a, id) == RecordCount(b, id)
  {
    if |a| == 0 {
    } else {
      RecordCountOfIds(a[..|a| - 1], b[..|b| - 1], id);
    }
  }

  lemma {:induction false} NoRecordCounted(txs: seq<Transaction>, id: string)
    ensures RecordCount(txs, id) == 0 <==> forall i :: 0 <= i < |txs| ==> txs[i].intentId != id
  {
    if |txs| == 0 {
    } else {
      NoRecordCounted(txs[..|txs| - 1], id);
    }
  }

  lemma {:induction false} ConfirmFirstFields(txs: seq<Transaction>, target: string, now: int, i: nat)
    requires i < |txs|
    ensures var t := ConfirmFirst(txs, target, now)[i];
            && t.intentId == txs[i].intentId && t.confirmSignature == txs[i].confirmSignature
            && (t.status != txs[i].status ==> t.intentId == target)
  {
    if i == 0 || txs[0].intentId == target {
    } else {
      ConfirmFirstFields(txs[1..], target, now, i - 1);
    }
  }

  lemma {:induction false} ConfirmFirstConfirms(txs: seq<Transaction>, target: string, now: int)
    ensures TxConfirmedFor(ConfirmFirst(txs, target, now), target)
       <==> exists i :: 0 <= i < |txs| && txs[i].intentId == target
  {
    var c := ConfirmFirst(txs, target, now);
    if |txs| == 0 {
    } else {
      if txs[0].intentId == target {
        assert c[0].intentId == target && c[0].status == TxConfirmed;
      } else {
        var rest := ConfirmFirst(txs[1..], target, now);
        ConfirmFirstConfirms(txs[1..], target, now);
        assert forall i :: 0 <= i < |rest| ==> c[i + 1] == rest[i];
        if TxConfirmedFor(rest, target) {
          var i :| 0 <= i < |rest| && rest[i].intentId == target && rest[i].status == TxConfirmed;
          assert c[i + 1].intentId == target;
        }
        if i :| 0 <= i < |txs| && txs[i].intentId == target {
          assert txs[1..][i - 1] == txs[i];
        }
      }
    }
  }

  lemma ConfirmView(txs: seq<Transaction>, target: string, now: int, id: string)
    ensures var c := ConfirmFirst(txs, target, now);
            && RecordCount(c, id) == RecordCount(txs, id) && Recorded(c, id) == Recorded(txs, id)
            && TxConfirmedFor(c, id) == (if id == target then RecordCount(txs, id) > 0 else TxConfirmedFor(txs, id))
  {
    var c := ConfirmFirst(txs, target, now);
    forall i | 0 <= i < |txs|
      ensures c[i].intentId == txs[i].intentId && c[i].confirmSignature == txs[i].confirmSignature
      ensures c[i].status != txs[i].status ==> c[i].intentId == target
    {
      ConfirmFirstFields(txs, target, now, i);
    }
    RecordCountOfIds(c, txs, id);
    NoRecordCounted(txs, id);
    ConfirmFirstConfirms(txs, target, now);
    assert Recorded(c, id) == Recorded(txs, id);
  }

  /** An access moves its own intent's view as `Steps` says, and no other intent's. */
  lemma EffectViews(w: World, p: Prog, fault: Fault, own: string, id: string)
    requires OnlyOn(p, own)
    ensures id == own ==> Steps(ViewOf(w, id), p, fault, Rest(w, p, fault), ViewOf(Effect(w, p, fault), id))
    ensures id != own ==> ViewOf(Effect(w, p, fault), id) == ViewOf(w, id)
  {
    hide SubmissionCount, RecordCount, Recorded, TxConfirmedFor, Called, NonceTaken, HasTxForNonce, HasTx, ConfirmFirst;
    match p {
      case Submit(s, _) => SubmissionCountSnoc(w.submissions, s, id);
      case InsertTx(tx, _) => RecordSnoc(w.txs, tx, id);
      case ConfirmTx(target, now, _) => ConfirmView(w.txs, target, now, id);
      case Spawn(t, target, _) => CalledMore(w.spawned, t, target, id);
      case _ =>
    }
  }

  lemma CalledUpdate(spawned: map<(string, string), nat>, t: string, target: string, n: nat, id: string)
    ensures Called(spawned[(t, target) := n], id)
         == if id == target then Called(spawned, id)[t := n] else Called(spawned, id)
    ensures Waiting(spawned, t, target) == (if t in Called(spawned, target) then Called(spawned, target)[t] else 0)
  {
    var a, b := Called(spawned[(t, target) := n], id), if id == target then Called(spawned, id)[t := n] else Called(spawned, id);
    forall u ensures u in a <==> u in b {
      assert u in a <==> (u, id) in spawned[(t, target) := n];
      assert u in Called(spawned, id) <==> (u, id) in spawned;
    }
  }

  lemma CalledMore(spawned: map<(string, string), nat>, t: string, target: string, id: string)
    ensures Called(spawned[(t, target) := Waiting(spawned, t, target) + 1], id)
         == if id == target then More(Called(spawned, id), t) else Called(spawned, id)
  {
    hide Called;
    CalledUpdate(spawned, t, target, Waiting(spawned, t, target) + 1, id);
  }

  lemma ARecordCounts(txs: seq<Transaction>, i: nat)
    requires i < |txs|
    ensures RecordCount(txs, txs[i].intentId) > 0 && txs[i].confirmSignature in Recorded(txs, txs[i].intentId)
    ensures txs[i].status == TxConfirmed ==> TxConfirmedFor(txs, txs[i].intentId)
  {
    NoRecordCounted(txs, txs[i].intentId);
  }
}
