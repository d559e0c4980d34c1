/** services/api/core/policy_engine.go: one pass over the active policies of the wallet's tenant. */
module PolicyEngine {
  import opened Wrappers
  import opened Domain
  import Decimal

  /** A bound of a time window: absent, not a valid timestamp, or a time. */
  datatype Bound = Unset | Unparsable | At(time: int)

  /** A decoded policy configuration. `None` is a configuration that does not decode to the shape
      the rule expects; for the two limits and the signature count it selects the fallback. */
  datatype Rule =
    | DailyLimit(limit: Option<int>)
    | SingleTxLimit(limit: Option<int>)
    | AllowedRecipients(list: Option<seq<string>>)
    | BlockedRecipients(list: Option<seq<string>>)
    | AllowedTokens(list: Option<seq<string>>)
    | RequiredSignatures(required: Option<int>)
    | TimeRestriction(window: Option<(Bound, Bound)>)
    | UnknownRule

  datatype Policy = Policy(name: string, rule: Rule, isActive: bool)

  /** What one evaluation reads: the tables, whether listing policies fails, the clock, and the
      representative under simple case folding that `strings.EqualFold` compares characters by. */
  datatype Env = Env(wallets: map<string, Wallet>, tenants: set<string>, policies: map<string, seq<Policy>>,
                     listFails: bool, now: int, fold: char -> char)

  datatype LookupError = WalletNotFound | TenantNotFound | PoliciesUnavailable

  datatype PolicyResult = PolicyResult(allow: bool, reason: string)

  // ------------------------------------------------------------- the rules

  function Fold(fold: char -> char, s: string): string {
    seq(|s|, i requires 0 <= i < |s| => fold(s[i]))
  }

  predicate EqualFold(fold: char -> char, a: string, b: string) {
    Fold(fold, a) == Fold(fold, b)
  }

  /** Equal length, and at every position one letter up to case. */
  lemma EqualFoldIff(fold: char -> char, a: string, b: string)
    ensures EqualFold(fold, a, b) <==> |a| == |b| && forall i :: 0 <= i < |a| ==> fold(a[i]) == fold(b[i])
  {
    var x, y := Fold(fold, a), Fold(fold, b);
    assert |x| == |a| && |y| == |b|;
    assert forall i :: 0 <= i < |a| ==> x[i] == fold(a[i]);
    assert forall i :: 0 <= i < |b| ==> y[i] == fold(b[i]);
  }

  predicate Listed(fold: char -> char, list: seq<string>, name: string) {
    exists i :: 0 <= i < |list| && EqualFold(fold, list[i], name)
  }

  predicate WithinLimit(limit: int, intent: Intent) {
    limit <= 0 || Decimal.IntentAmount(intent.amount) <= limit
  }

  predicate WithinWindow(start: Bound, end: Bound, now: int) {
    && (start.At? ==> start.time <= now)
    && (end.At? ==> now <= end.time)
  }

  /** The verdict of one rule's evaluator. */
  predicate Passes(env: Env, wallet: Wallet, rule: Rule, intent: Intent) {
    match rule
    case DailyLimit(limit) => WithinLimit(if limit.Some? then limit.value else wallet.dailyLimit, intent)
    case SingleTxLimit(limit) => WithinLimit(if limit.Some? then limit.value else 0, intent)
    case AllowedRecipients(list) => list.Some? ==> Listed(env.fold, list.value, intent.destination)
    case BlockedRecipients(list) => list.Some? ==> !Listed(env.fold, list.value, intent.destination)
    case AllowedTokens(list) => list.Some? ==> Listed(env.fold, list.value, intent.token)
    case RequiredSignatures(required) => |intent.approvers| >= (if required.Some? then required.value else 2)
    case TimeRestriction(window) => window.Some? ==> WithinWindow(window.value.0, window.value.1, env.now)
    case UnknownRule => true
  }

  predicate Satisfied(env: Env, wallet: Wallet, p: Policy, intent: Intent) {
    p.isActive ==> Passes(env, wallet, p.rule, intent)
  }

  /** What a denial calls the rule. */
  function Label(rule: Rule): string {
    match rule
    case DailyLimit(_) => "daily limit"
    case SingleTxLimit(_) => "single tx limit"
    case AllowedRecipients(_) => "allowed recipients"
    case BlockedRecipients(_) => "blocked recipients"
    case AllowedTokens(_) => "allowed tokens"
    case RequiredSignatures(_) => "required sigs"
    case TimeRestriction(_) => "time restriction"
    case UnknownRule => ""
  }

  function ReasonOf(p: Policy): string {
    Label(p.rule) + ": " + p.name
  }

  /** `strings.Join`. */
  function Join(parts: seq<string>, separator: string): string {
    if |parts| == 0 then ""
    else if |parts| == 1 then parts[0]
    else parts[0] + separator + Join(parts[1..], separator)
  }

  /** The reasons of the policies that are not satisfied, in the order of the table. */
  function Reasons(env: Env, wallet: Wallet, policies: seq<Policy>, intent: Intent): seq<string> {
    if |policies| == 0 then []
    else
      var p := policies[|policies| - 1];
      Reasons(env, wallet, policies[..|policies| - 1], intent)
      + (if Satisfied(env, wallet, p, intent) then [] else [ReasonOf(p)])
  }

  // -------------------------------------------------------- the evaluation

  /** The wallet and the policies that an evaluation uses, or the lookup that fails. */
  function Lookup(env: Env, intent: Intent): Result<(Wallet, seq<Policy>), LookupError> {
    if intent.walletId !in env.wallets then Err(WalletNotFound)
    else
      var wallet := env.wallets[intent.walletId];
      if wallet.tenantId !in env.tenants then Err(TenantNotFound)
      else if env.listFails then Err(PoliciesUnavailable)
      else Ok((wallet, if wallet.tenantId in env.policies then env.policies[wallet.tenantId] else []))
  }

  predicate AllSatisfied(env: Env, wallet: Wallet, policies: seq<Policy>, intent: Intent) {
    forall i :: 0 <= i < |policies| ==> Satisfied(env, wallet, policies[i], intent)
  }

  predicate Allows(env: Env, intent: Intent) {
    && Lookup(env, intent).Ok?
    && var (wallet, policies) := Lookup(env, intent).value;
       AllSatisfied(env, wallet, policies, intent)
  }

  lemma AllowsNeedsLookup(env: Env, intent: Intent)
    ensures Lookup(env, intent).Err? ==> !Allows(env, intent)
  {
  }

  method EqualsSome(fold: char -> char, list: seq<string>, name: string) returns (found: bool)
    ensures found <==> Listed(fold, list, name)
  {
    var i := 0;
    while i < |list|
      invariant 0 <= i <= |list|
      invariant forall k :: 0 <= k < i ==> !EqualFold(fold, list[k], name)
    {
      if EqualFold(fold, list[i], name) {
        return true;
      }
      i := i + 1;
    }
    found := false;
  }

  method EvaluateLimit(limit: int, intent: Intent) returns (ok: bool)
    ensures ok <==> WithinLimit(limit, intent)
  {
    if limit <= 0 {
      return true;
    }
    var amount := Decimal.ParseIntentAmount(intent.amount);
    ok := amount <= limit;
  }

  method EvaluateTimeRestriction(start: Bound, end: Bound, now: int) returns (ok: bool)
    ensures ok <==> WithinWindow(start, end, now)
  {
    if start == Unset && end == Unset {
      return true;
    }
    if start.At? && now < start.time {
      return false;
    }
    if end.At? && now > end.time {
      return false;
    }
    ok := true;
  }

  /** Some entry of the list has the name's length and folds to it at every position. */
  predicate HasEntry(fold: char -> char, list: seq<string>, name: string) {
    exists i :: 0 <= i < |list| && |list[i]| == |name| && forall j :: 0 <= j < |name| ==> fold(list[i][j]) == fold(name[j])
  }

  lemma ListedHasEntry(fold: char -> char, list: seq<string>, name: string)
    ensures Listed(fold, list, name) <==> HasEntry(fold, list, name)
  {
    hide EqualFold;
    forall i | 0 <= i < |list|
      ensures EqualFold(fold, list[i], name) <==>
        |list[i]| == |name| && forall j :: 0 <= j < |name| ==> fold(list[i][j]) == fold(name[j])
    {
      EqualFoldIff(fold, list[i], name);
    }
  }

  method EvaluateRule(env: Env, wallet: Wallet, rule: Rule, intent: Intent) returns (ok: bool)
    ensures ok <==> Passes(env, wallet, rule, intent)
    ensures ok <==>
      var amount := Decimal.IntentAmount(intent.amount);
      match rule
      case DailyLimit(limit) =>
        var cap := if limit.Some? then limit.value else wallet.dailyLimit;
        cap > 0 ==> amount <= cap
      case SingleTxLimit(limit) => limit.Some? && limit.value > 0 ==> amount <= limit.value
      case AllowedRecipients(list) => list.Some? ==> HasEntry(env.fold, list.value, intent.destination)
      case BlockedRecipients(list) => list.Some? ==> !HasEntry(env.fold, list.value, intent.destination)
      case AllowedTokens(list) => list.Some? ==> HasEntry(env.fold, list.value, intent.token)
      case RequiredSignatures(required) => |intent.approvers| >= (if required.Some? then required.value else 2)
      case TimeRestriction(window) =>
        window.Some? ==>
          && (window.value.0.At? ==> window.value.0.time <= env.now)
          && (window.value.1.At? ==> env.now <= window.value.1.time)
      case UnknownRule => true
  {
    hide HasEntry, Listed, Decimal.IntentAmount;
    if (rule.AllowedRecipients? || rule.BlockedRecipients?) && rule.list.Some? {
      ListedHasEntry(env.fold, rule.list.value, intent.destination);
    } else if rule.AllowedTokens? && rule.list.Some? {
      ListedHasEntry(env.fold, rule.list.value, intent.token);
    }
    ok := true;
    match rule {
      case DailyLimit(limit) =>
        ok := EvaluateLimit(if limit.Some? then limit.value else wallet.dailyLimit, intent);
      case SingleTxLimit(limit) =>
        ok := EvaluateLimit(if limit.Some? then limit.value else 0, intent);
      case AllowedRecipients(list) =>
        if list.Some? {
          ok := EqualsSome(env.fold, list.value, intent.destination);
        }
      case BlockedRecipients(list) =>
        if list.Some? {
          var found := EqualsSome(env.fold, list.value, intent.destination);
          ok := !found;
        }
      case AllowedTokens(list) =>
        if list.Some? {
          ok := EqualsSome(env.fold, list.value, intent.token);
        }
      case RequiredSignatures(required) =>
        ok := |intent.approvers| >= (if required.Some? then required.value else 2);
      case TimeRestriction(window) =>
        if window.Some? {
          ok := EvaluateTimeRestriction(window.value.0, window.value.1, env.now);
        }
      case UnknownRule =>
    }
  }

  method Evaluate(env: Env, intent: Intent) returns (r: Result<PolicyResult, LookupError>)
    ensures r.Err? <==> Lookup(env, intent).Err?
    ensures r.Err? ==> r.error == Lookup(env, intent).error
    ensures r == Err(WalletNotFound) <==> intent.walletId !in env.wallets
    ensures r == Err(TenantNotFound) <==>
      intent.walletId in env.wallets && env.wallets[intent.walletId].tenantId !in env.tenants
    ensures r == Err(PoliciesUnavailable) <==>
      intent.walletId in env.wallets && env.wallets[intent.walletId].tenantId in env.tenants && env.listFails
    ensures r.Ok? ==> (r.value.allow <==> Allows(env, intent))
    ensures r.Ok? ==>
      var wallet := env.wallets[intent.walletId];
      var table := if wallet.tenantId in env.policies then env.policies[wallet.tenantId] else [];
      r.value.allow <==> forall i :: 0 <= i < |table| && table[i].isActive ==> Passes(env, wallet, table[i].rule, intent)
    ensures r.Ok? && r.value.allow ==> r.value.reason == ""
    ensures r.Ok? && !r.value.allow ==>
      var (wallet, policies) := Lookup(env, intent).value;
      r.value.reason == Join(Reasons(env, wallet, policies, intent), "; ")
  {
    if intent.walletId !in env.wallets {
      return Err(WalletNotFound);
    }
    var wallet := env.wallets[intent.walletId];
    if wallet.tenantId !in env.tenants {
      return Err(TenantNotFound);
    }
    if env.listFails {
      return Err(PoliciesUnavailable);
    }
    var policies := if wallet.tenantId in env.policies then env.policies[wallet.tenantId] else [];
    var allPassed, deniedReasons := true, [];
    var i := 0;
    while i < |policies|
      invariant 0 <= i <= |policies|
      invariant allPassed <==> AllSatisfied(env, wallet, policies[..i], intent)
      invariant deniedReasons == Reasons(env, wallet, policies[..i], intent)
    {
      assert policies[..i + 1][..i] == policies[..i];
      assert AllSatisfied(env, wallet, policies[..i + 1], intent) ==> AllSatisfied(env, wallet, policies[..i], intent);
      if policies[i].isActive {
        var ok := EvaluateRule(env, wallet, policies[i].rule, intent);
        if !ok {
          allPassed := false;
          deniedReasons := deniedReasons + [ReasonOf(policies[i])];
          assert !Satisfied(env, wallet, policies[..i + 1][i], intent);
        }
      }
      i := i + 1;
    }
    assert policies[..i] == policies;
    r := Ok(if allPassed then PolicyResult(true, "") else PolicyResult(false, Join(deniedReasons, "; ")));
  }

  /** The texts of the reasons, one more policy at a time. */
  lemma ReasonsOfNext(env: Env, wallet: Wallet, front: seq<Policy>, p: Policy, intent: Intent)
    ensures Reasons(env, wallet, [], intent) == []
    ensures Reasons(env, wallet, front + [p], intent)
         == Reasons(env, wallet, front, intent)
            + if !p.isActive || Passes(env, wallet, p.rule, intent) then []
              else [(match p.rule
                     case DailyLimit(_) => "daily limit: "
                     case SingleTxLimit(_) => "single tx limit: "
                     case AllowedRecipients(_) => "allowed recipients: "
                     case BlockedRecipients(_) => "blocked recipients: "
                     case AllowedTokens(_) => "allowed tokens: "
                     case RequiredSignatures(_) => "required sigs: "
                     case _ => "time restriction: ") + p.name]
  {
    hide Passes;
    assert (front + [p])[..|front|] == front;
    if p.rule.UnknownRule? {
      UnknownRulesPass(env, wallet, intent);
    } else {
      LabelsSpell(p);
    }
  }

  lemma LabelsSpell(p: Policy)
    requires !p.rule.UnknownRule?
    ensures ReasonOf(p) == (match p.rule
                            case DailyLimit(_) => "daily limit: "
                            case SingleTxLimit(_) => "single tx limit: "
                            case AllowedRecipients(_) => "allowed recipients: "
                            case BlockedRecipients(_) => "blocked recipients: "
                            case AllowedTokens(_) => "allowed tokens: "
                            case RequiredSignatures(_) => "required sigs: "
                            case _ => "time restriction: ") + p.name
  {
    assert Label(p.rule) + ": " + p.name == Label(p.rule) + (": " + p.name);
    assert "daily limit: " == "daily limit" + ": " && "single tx limit: " == "single tx limit" + ": ";
    assert "allowed recipients: " == "allowed recipients" + ": " && "blocked recipients: " == "blocked recipients" + ": ";
    assert "allowed tokens: " == "allowed tokens" + ": " && "required sigs: " == "required sigs" + ": ";
    assert "time restriction: " == "time restriction" + ": ";
  }

  lemma UnknownRulesPass(env: Env, wallet: Wallet, intent: Intent)
    ensures Passes(env, wallet, UnknownRule, intent)
  {
  }

  /** They are joined in order, with one separator between two. */
  lemma {:induction false} JoinOfNext(parts: seq<string>, last: string, separator: string)
    ensures Join([], separator) == ""
    ensures Join(parts + [last], separator) == (if parts == [] then last else Join(parts, separator) + separator + last)
  {
    if |parts| == 0 {
      assert parts + [last] == [last];
    } else {
      assert (parts + [last])[1..] == parts[1..] + [last];
      JoinOfNext(parts[1..], last, separator);
      if |parts| > 1 {
        JoinAssociates(parts[0], Join(parts[1..], separator), separator, last);
      }
    }
  }

  lemma JoinAssociates(a: string, b: string, separator: string, last: string)
    ensures a + separator + (b + separator + last) == a + separator + b + separator + last
  {
  }

  /** A denial always names a policy, an allowance never would, and the joined text tells them apart. */
  lemma {:induction false} DenialsNameAPolicy(env: Env, wallet: Wallet, policies: seq<Policy>, intent: Intent)
    ensures AllSatisfied(env, wallet, policies, intent) <==> Reasons(env, wallet, policies, intent) == []
    ensures AllSatisfied(env, wallet, policies, intent) <==> Join(Reasons(env, wallet, policies, intent), "; ") == ""
  {
    hide Passes, ReasonOf, Join;
    ReasonsSpeak(env, wallet, policies, intent);
    JoinSpeaks(Reasons(env, wallet, policies, intent));
    if |policies| == 0 {
    } else {
      var front, last := policies[..|policies| - 1], policies[|policies| - 1];
      DenialsNameAPolicy(env, wallet, front, intent);
      assert policies == front + [last];
    }
  }

  lemma JoinSpeaks(parts: seq<string>)
    requires forall r :: r in parts ==> |r| >= 2
    ensures Join(parts, "; ") == "" <==> parts == []
  {
    if |parts| > 0 {
      assert parts[0] in parts;
    }
  }

  lemma {:induction false} ReasonsSpeak(env: Env, wallet: Wallet, policies: seq<Policy>, intent: Intent)
    ensures forall r :: r in Reasons(env, wallet, policies, intent) ==> |r| >= 2
  {
    hide Passes;
    if |policies| == 0 {
    } else {
      ReasonsSpeak(env, wallet, policies[..|policies| - 1], intent);
    }
  }

  // ------------------------------------------------------- the normal form

  /** Everything the active policies of a tenant demand at a fixed clock, whatever their number
      and order: an amount cap, a signature count, the hull of the windows and three name lists. */
  datatype Requirements = Requirements(
    cap: Option<int>,
    signatures: Option<int>,
    opensAt: Option<int>,
    closesAt: Option<int>,
    recipients: Option<set<string>>,
    blocked: set<string>,
    tokens: Option<set<string>>
  )

  function Lower(a: Option<int>, v: int): Option<int> {
    if a.None? || v < a.value then Some(v) else a
  }

  function Raise(a: Option<int>, v: int): Option<int> {
    if a.None? || a.value < v then Some(v) else a
  }

  function Folded(fold: char -> char, list: seq<string>): set<string> {
    set i | 0 <= i < |list| :: Fold(fold, list[i])
  }

  function Narrow(a: Option<set<string>>, names: set<string>): Option<set<string>> {
    if a.None? then Some(names) else Some(a.value * names)
  }

  function Cap(r: Requirements, limit: int): Requirements {
    if limit <= 0 then r else r.(cap := Lower(r.cap, limit))
  }

  function AddRule(fold: char -> char, wallet: Wallet, r: Requirements, rule: Rule): Requirements {
    match rule
    case DailyLimit(limit) => Cap(r, if limit.Some? then limit.value else wallet.dailyLimit)
    case SingleTxLimit(limit) => Cap(r, if limit.Some? then limit.value else 0)
    case AllowedRecipients(Some(list)) => r.(recipients := Narrow(r.recipients, Folded(fold, list)))
    case BlockedRecipients(Some(list)) => r.(blocked := r.blocked + Folded(fold, list))
    case AllowedTokens(Some(list)) => r.(tokens := Narrow(r.tokens, Folded(fold, list)))
    case RequiredSignatures(required) =>
      r.(signatures := Raise(r.signatures, if required.Some? then required.value else 2))
    case TimeRestriction(Some((start, end))) =>
      r.(opensAt := if start.At? then Raise(r.opensAt, start.time) else r.opensAt,
         closesAt := if end.At? then Lower(r.closesAt, end.time) else r.closesAt)
    case _ => r
  }

  function Summary(fold: char -> char, wallet: Wallet, policies: seq<Policy>): Requirements {
    if |policies| == 0 then Requirements(None, None, None, None, None, {}, None)
    else
      var p := policies[|policies| - 1];
      var r := Summary(fold, wallet, policies[..|policies| - 1]);
      if p.isActive then AddRule(fold, wallet, r, p.rule) else r
  }

  /** Seven independent comparisons, one for each component. */
  predicate Meets(env: Env, r: Requirements, intent: Intent) {
    && (r.cap.Some? ==> Decimal.IntentAmount(intent.amount) <= r.cap.value)
    && (r.signatures.Some? ==> |intent.approvers| >= r.signatures.value)
    && (r.opensAt.Some? ==> r.opensAt.value <= env.now)
    && (r.closesAt.Some? ==> env.now <= r.closesAt.value)
    && (r.recipients.Some? ==> Fold(env.fold, intent.destination) in r.recipients.value)
    && Fold(env.fold, intent.destination) !in r.blocked
    && (r.tokens.Some? ==> Fold(env.fold, intent.token) in r.tokens.value)
  }

  lemma ListedIsMembership(fold: char -> char, list: seq<string>, name: string)
    ensures Listed(fold, list, name) <==> Fold(fold, name) in Folded(fold, list)
  {
  }

  lemma AddRuleMeets(env: Env, wallet: Wallet, r: Requirements, rule: Rule, intent: Intent)
    ensures Meets(env, AddRule(env.fold, wallet, r, rule), intent)
       <==> Meets(env, r, intent) && Passes(env, wallet, rule, intent)
  {
    match rule {
      case AllowedRecipients(Some(list)) => ListedIsMembership(env.fold, list, intent.destination);
      case BlockedRecipients(Some(list)) => ListedIsMembership(env.fold, list, intent.destination);
      case AllowedTokens(Some(list)) => ListedIsMembership(env.fold, list, intent.token);
      case _ =>
    }
  }

  lemma {:induction false} SummaryMeets(env: Env, wallet: Wallet, policies: seq<Policy>, intent: Intent)
    ensures AllSatisfied(env, wallet, policies, intent) <==> Meets(env, Summary(env.fold, wallet, policies), intent)
  {
    if |policies| == 0 {
    } else {
      var front, last := policies[..|policies| - 1], policies[|policies| - 1];
      SummaryMeets(env, wallet, front, intent);
      AddRuleMeets(env, wallet, Summary(env.fold, wallet, front), last.rule, intent);
      assert policies == front + [last];
    }
  }

  /** The verdict on any policy table is the verdict of its summary. */
  lemma NormalForm(env: Env, intent: Intent)
    ensures Allows(env, intent) <==>
      && Lookup(env, intent).Ok?
      && var (wallet, policies) := Lookup(env, intent).value;
         Meets(env, Summary(env.fold, wallet, policies), intent)
  {
    if Lookup(env, intent).Ok? {
      var (wallet, policies) := Lookup(env, intent).value;
      SummaryMeets(env, wallet, policies, intent);
    }
  }

  // ------------------------------------------------ what the summary means

  datatype NumberKind = Limit | Signatures | Opening | Closing

  datatype ListKind = Recipients | Blocked | Tokens

  /** The number of a kind that a rule asks for, if it does; a limit counts only if it is positive. */
  function Number(wallet: Wallet, rule: Rule, kind: NumberKind): Option<int> {
    match (kind, rule)
    case (Limit, DailyLimit(limit)) => Positive(if limit.Some? then limit.value else wallet.dailyLimit)
    case (Limit, SingleTxLimit(limit)) => Positive(if limit.Some? then limit.value else 0)
    case (Signatures, RequiredSignatures(required)) => Some(if required.Some? then required.value else 2)
    case (Opening, TimeRestriction(Some((start, _)))) => if start.At? then Some(start.time) else None
    case (Closing, TimeRestriction(Some((_, end)))) => if end.At? then Some(end.time) else None
    case _ => None
  }

  function Positive(limit: int): Option<int> {
    if limit > 0 then Some(limit) else None
  }

  function Names(fold: char -> char, rule: Rule, kind: ListKind): Option<set<string>> {
    match (kind, rule)
    case (Recipients, AllowedRecipients(Some(list))) => Some(Folded(fold, list))
    case (Blocked, BlockedRecipients(Some(list))) => Some(Folded(fold, list))
    case (Tokens, AllowedTokens(Some(list))) => Some(Folded(fold, list))
    case _ => None
  }

  /** An active policy asks for this number. */
  predicate AsksNumber(wallet: Wallet, policies: seq<Policy>, kind: NumberKind, x: int) {
    exists i :: 0 <= i < |policies| && policies[i].isActive && Number(wallet, policies[i].rule, kind) == Some(x)
  }

  /** An active policy lists these names. */
  predicate AsksNames(fold: char -> char, policies: seq<Policy>, kind: ListKind, names: set<string>) {
    exists i :: 0 <= i < |policies| && policies[i].isActive && Names(fold, policies[i].rule, kind) == Some(names)
  }

  ghost predicate Least(a: Option<int>, wallet: Wallet, policies: seq<Policy>, kind: NumberKind) {
    && (a.Some? ==> AsksNumber(wallet, policies, kind, a.value))
    && (forall x :: AsksNumber(wallet, policies, kind, x) ==> a.Some? && a.value <= x)
  }

  ghost predicate Greatest(a: Option<int>, wallet: Wallet, policies: seq<Policy>, kind: NumberKind) {
    && (a.Some? ==> AsksNumber(wallet, policies, kind, a.value))
    && (forall x :: AsksNumber(wallet, policies, kind, x) ==> a.Some? && x <= a.value)
  }

  ghost predicate Intersection(a: Option<set<string>>, fold: char -> char, policies: seq<Policy>, kind: ListKind) {
    && (a.Some? <==> exists names :: AsksNames(fold, policies, kind, names))
    && (a.Some? ==> forall name :: name in a.value <==>
          forall names :: AsksNames(fold, policies, kind, names) ==> name in names)
  }

  ghost predicate Union(a: set<string>, fold: char -> char, policies: seq<Policy>, kind: ListKind) {
    forall name :: name in a <==> exists names :: AsksNames(fold, policies, kind, names) && name in names
  }

  lemma NumberOfNext(wallet: Wallet, front: seq<Policy>, p: Policy, kind: NumberKind, x: int)
    ensures AsksNumber(wallet, front + [p], kind, x)
       <==> AsksNumber(wallet, front, kind, x) || (p.isActive && Number(wallet, p.rule, kind) == Some(x))
  {
    var all := front + [p];
    assert all[|front|] == p;
    assert forall i :: 0 <= i < |front| ==> all[i] == front[i];
  }

  lemma NamesOfNext(fold: char -> char, front: seq<Policy>, p: Policy, kind: ListKind, names: set<string>)
    ensures AsksNames(fold, front + [p], kind, names)
       <==> AsksNames(fold, front, kind, names) || (p.isActive && Names(fold, p.rule, kind) == Some(names))
  {
    var all := front + [p];
    assert all[|front|] == p;
    assert forall i :: 0 <= i < |front| ==> all[i] == front[i];
  }

  lemma LeastOfNext(a: Option<int>, wallet: Wallet, front: seq<Policy>, p: Policy, kind: NumberKind)
    requires Least(a, wallet, front, kind)
    ensures var n := if p.isActive then Number(wallet, p.rule, kind) else None;
            Least(if n.Some? then Lower(a, n.value) else a, wallet, front + [p], kind)
  {
    hide AsksNumber, Number;
    forall x ensures AsksNumber(wallet, front + [p], kind, x)
                <==> AsksNumber(wallet, front, kind, x) || (p.isActive && Number(wallet, p.rule, kind) == Some(x)) {
      NumberOfNext(wallet, front, p, kind, x);
    }
  }

  lemma GreatestOfNext(a: Option<int>, wallet: Wallet, front: seq<Policy>, p: Policy, kind: NumberKind)
    requires Greatest(a, wallet, front, kind)
    ensures var n := if p.isActive then Number(wallet, p.rule, kind) else None;
            Greatest(if n.Some? then Raise(a, n.value) else a, wallet, front + [p], kind)
  {
    hide AsksNumber, Number;
    forall x ensures AsksNumber(wallet, front + [p], kind, x)
                <==> AsksNumber(wallet, front, kind, x) || (p.isActive && Number(wallet, p.rule, kind) == Some(x)) {
      NumberOfNext(wallet, front, p, kind, x);
    }
  }

  lemma IntersectionOfNext(a: Option<set<string>>, fold: char -> char, front: seq<Policy>, p: Policy, kind: ListKind)
    requires Intersection(a, fold, front, kind)
    ensures var n := if p.isActive then Names(fold, p.rule, kind) else None;
            Intersection(if n.Some? then Narrow(a, n.value) else a, fold, front + [p], kind)
  {
    hide AsksNames, Names;
    forall names ensures AsksNames(fold, front + [p], kind, names)
                    <==> AsksNames(fold, front, kind, names) || (p.isActive && Names(fold, p.rule, kind) == Some(names)) {
      NamesOfNext(fold, front, p, kind, names);
    }
  }

  lemma UnionOfNext(a: set<string>, fold: char -> char, front: seq<Policy>, p: Policy, kind: ListKind)
    requires Union(a, fold, front, kind)
    ensures var n := if p.isActive then Names(fold, p.rule, kind) else None;
            Union(if n.Some? then a + n.value else a, fold, front + [p], kind)
  {
    hide AsksNames, Names;
    forall names ensures AsksNames(fold, front + [p], kind, names)
                    <==> AsksNames(fold, front, kind, names) || (p.isActive && Names(fold, p.rule, kind) == Some(names)) {
      NamesOfNext(fold, front, p, kind, names);
    }
  }

  ghost predicate Extreme(r: Requirements, fold: char -> char, wallet: Wallet, policies: seq<Policy>) {
    && Least(r.cap, wallet, policies, Limit) && Greatest(r.signatures, wallet, policies, Signatures)
    && Greatest(r.opensAt, wallet, policies, Opening) && Least(r.closesAt, wallet, policies, Closing)
    && Intersection(r.recipients, fold, policies, Recipients) && Union(r.blocked, fold, policies, Blocked)
    && Intersection(r.tokens, fold, policies, Tokens)
  }

  /** A rule moves each component by what it asks for of that kind. */
  lemma AddRuleByKind(fold: char -> char, wallet: Wallet, r: Requirements, rule: Rule)
    ensures AddRule(fold, wallet, r, rule) == Requirements(
      var n := Number(wallet, rule, Limit); if n.Some? then Lower(r.cap, n.value) else r.cap,
      var n := Number(wallet, rule, Signatures); if n.Some? then Raise(r.signatures, n.value) else r.signatures,
      var n := Number(wallet, rule, Opening); if n.Some? then Raise(r.opensAt, n.value) else r.opensAt,
      var n := Number(wallet, rule, Closing); if n.Some? then Lower(r.closesAt, n.value) else r.closesAt,
      var n := Names(fold, rule, Recipients); if n.Some? then Narrow(r.recipients, n.value) else r.recipients,
      var n := Names(fold, rule, Blocked); if n.Some? then r.blocked + n.value else r.blocked,
      var n := Names(fold, rule, Tokens); if n.Some? then Narrow(r.tokens, n.value) else r.tokens)
  {
    hide Lower, Raise, Narrow, Folded;
  }

  lemma ExtremeOfNext(r: Requirements, fold: char -> char, wallet: Wallet, front: seq<Policy>, p: Policy)
    requires Extreme(r, fold, wallet, front)
    ensures Extreme(if p.isActive then AddRule(fold, wallet, r, p.rule) else r, fold, wallet, front + [p])
  {
    hide Least, Greatest, Intersection, Union, AddRule, Lower, Raise, Narrow, Number, Names;
    AddRuleByKind(fold, wallet, r, p.rule);
    LeastOfNext(r.cap, wallet, front, p, Limit);
    GreatestOfNext(r.signatures, wallet, front, p, Signatures);
    GreatestOfNext(r.opensAt, wallet, front, p, Opening);
    LeastOfNext(r.closesAt, wallet, front, p, Closing);
    IntersectionOfNext(r.recipients, fold, front, p, Recipients);
    UnionOfNext(r.blocked, fold, front, p, Blocked);
    IntersectionOfNext(r.tokens, fold, front, p, Tokens);
  }

  /** The summary's components are the least positive limit, the greatest signature count, the latest
      start and the earliest end, the names on every list of allowed recipients and on every list of
      tokens, and the names on any list of blocked recipients, over all active policies. */
  lemma {:induction false} SummaryIsExtreme(fold: char -> char, wallet: Wallet, policies: seq<Policy>)
    ensures Extreme(Summary(fold, wallet, policies), fold, wallet, policies)
  {
    if |policies| == 0 {
    } else {
      var front, p := policies[..|policies| - 1], policies[|policies| - 1];
      SummaryIsExtreme(fold, wallet, front);
      assert policies == front + [p];
      hide Extreme, AddRule;
      ExtremeOfNext(Summary(fold, wallet, front), fold, wallet, front, p);
    }
  }

  function Elements(policies: seq<Policy>): set<Policy> {
    set i | 0 <= i < |policies| :: policies[i]
  }

  /** Only the set of policies matters: order and repetition do not, and more policies can only deny more. */
  lemma MorePoliciesDenyMore(env: Env, wallet: Wallet, few: seq<Policy>, many: seq<Policy>, intent: Intent)
    requires Elements(few) <= Elements(many)
    ensures AllSatisfied(env, wallet, many, intent) ==> AllSatisfied(env, wallet, few, intent)
    ensures Elements(few) == Elements(many) ==>
      Meets(env, Summary(env.fold, wallet, few), intent) == Meets(env, Summary(env.fold, wallet, many), intent)
  {
    forall i | 0 <= i < |few| && AllSatisfied(env, wallet, many, intent)
      ensures Satisfied(env, wallet, few[i], intent)
    {
      assert few[i] in Elements(many);
    }
    forall i | 0 <= i < |many| && Elements(few) == Elements(many) && AllSatisfied(env, wallet, few, intent)
      ensures Satisfied(env, wallet, many[i], intent)
    {
      assert many[i] in Elements(few);
    }
    SummaryMeets(env, wallet, few, intent);
    SummaryMeets(env, wallet, many, intent);
  }

  /** An allowed intent stays allowed with a smaller amount and more approvers. */
  lemma SmallerAmountsStayAllowed(env: Env, intent: Intent, smaller: Intent)
    requires Allows(env, intent)
    requires smaller == intent.(amount := smaller.amount, approvers := smaller.approvers)
    requires Decimal.IntentAmount(smaller.amount) <= Decimal.IntentAmount(intent.amount)
    requires |smaller.approvers| >= |intent.approvers|
    ensures Allows(env, smaller)
  {
    NormalForm(env, intent);
    NormalForm(env, smaller);
  }

  /** An active rule that asks for at least one signature. */
  predicate SignatureRule(p: Policy) {
    && p.isActive && p.rule.RequiredSignatures?
    && (p.rule.required.Some? ==> p.rule.required.value > 0)
  }

  /** Such a rule denies every intent without approvers. */
  lemma SignatureRulesDenyUnapproved(env: Env, intent: Intent, i: nat)
    requires intent.approvers == []
    requires Lookup(env, intent).Ok?
    requires i < |Lookup(env, intent).value.1| && SignatureRule(Lookup(env, intent).value.1[i])
    ensures !Allows(env, intent)
  {
    assert !Satisfied(env, Lookup(env, intent).value.0, Lookup(env, intent).value.1[i], intent);
  }
}
