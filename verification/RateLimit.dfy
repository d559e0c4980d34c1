/** services/api/core/ratelimit.go: a token bucket per tenant. Tokens and times are reals; a call
    to Allow or Cleanup is one atomic step and its clock readings are arguments. */
module RateLimit {
  datatype Bucket = Bucket(tokens: real, lastTime: real)

  type Buckets = map<string, Bucket>

  function Min(a: real, b: real): real {
    if a < b then a else b
  }

  /** The tokens earned in `elapsed` seconds. */
  function Earned(rate: int, elapsed: real): real {
    elapsed * rate as real
  }

  lemma EarnedOver(rate: int, elapsed: real)
    ensures Earned(rate, elapsed) == elapsed * rate as real
  {
  }

  lemma EarnedBetween(rate: int, from: real, to: real)
    ensures Earned(rate, to - from) == (to - from) * rate as real
  {
  }

  /** The tokens a bucket holds at `now`. */
  function Refilled(rate: int, burst: int, b: Bucket, now: real): real {
    Min(burst as real, b.tokens + Earned(rate, now - b.lastTime))
  }

  function Spend(rate: int, burst: int, b: Bucket, now: real): (Bucket, bool) {
    var tokens := Refilled(rate, burst, b, now);
    if tokens < 1.0 then (Bucket(tokens, now), false) else (Bucket(tokens - 1.0, now), true)
  }

  /** The bucket is refilled by `rate` tokens a second, up to `burst`; a call is allowed if at least one
      token is there, and takes it; the clock reading is kept either way. */
  predicate Charged(rate: int, burst: int, b: Bucket, now: real, b': Bucket, ok: bool) {
    ChargedAt(burst, b.tokens + (now - b.lastTime) * rate as real, now, b', ok)
  }

  predicate ChargedAt(burst: int, refilled: real, now: real, b': Bucket, ok: bool) {
    var tokens := if refilled > burst as real then burst as real else refilled;
    b' == Bucket(if ok then tokens - 1.0 else tokens, now) && (ok <==> tokens >= 1.0)
  }

  lemma SpendChargesAt(rate: int, burst: int, b: Bucket, now: real)
    ensures var refilled := b.tokens + Earned(rate, now - b.lastTime);
            ChargedAt(burst, refilled, now, Spend(rate, burst, b, now).0, Spend(rate, burst, b, now).1)
  {
    hide Earned;
  }

  lemma SpendCharges(rate: int, burst: int, b: Bucket, now: real)
    ensures Charged(rate, burst, b, now, Spend(rate, burst, b, now).0, Spend(rate, burst, b, now).1)
  {
    hide Earned, ChargedAt, Spend;
    SpendChargesAt(rate, burst, b, now);
    EarnedBetween(rate, b.lastTime, now);
  }

  function Current(burst: int, s: Buckets, tenant: string, created: real): Bucket {
    if tenant in s then s[tenant] else Bucket(burst as real, created)
  }

  /** A bucket is created at one clock reading and charged at the next. */
  function AllowStep(rate: int, burst: int, s: Buckets, tenant: string, created: real, now: real): (Buckets, bool) {
    var (b, ok) := Spend(rate, burst, Current(burst, s, tenant, created), now);
    (s[tenant := b], ok)
  }

  function CleanupStep(s: Buckets, maxAge: real, now: real): Buckets {
    map t | t in s && !(s[t].lastTime < now - maxAge) :: s[t]
  }

  // -------------------------------------------------------- the component

  class TokenBucket {
    var tokens: real
    var lastTime: real

    constructor (tokens: real, lastTime: real)
      ensures this.tokens == tokens && this.lastTime == lastTime
    {
      this.tokens, this.lastTime := tokens, lastTime;
    }

    /** The part of Allow that runs under the bucket's lock. */
    method Charge(rate: int, burst: int, now: real) returns (ok: bool)
      modifies this
      ensures (Bucket(tokens, lastTime), ok) == Spend(rate, burst, old(Bucket(tokens, lastTime)), now)
    {
      hide Earned;
      var elapsed := now - lastTime;
      lastTime := now;
      tokens := tokens + Earned(rate, elapsed);
      if tokens > burst as real {
        tokens := burst as real;
      }
      if tokens < 1.0 {
        return false;
      }
      tokens := tokens - 1.0;
      ok := true;
    }
  }

  class RateLimiter {
    var buckets: map<string, TokenBucket>
    const rate: int
    const burst: int

    constructor (ratePerSecond: int, burst: int)
      ensures Valid() && rate == ratePerSecond && this.burst == burst && Contents() == map[]
      ensures buckets == map[]
    {
      rate, this.burst, buckets := ratePerSecond, burst, map[];
    }

    /** No two tenants share a bucket. */
    ghost predicate Valid()
      reads this
    {
      forall s, t :: s in buckets && t in buckets && buckets[s] == buckets[t] ==> s == t
    }

    ghost function Contents(): Buckets
      reads this, buckets.Values
    {
      map t | t in buckets :: Bucket(buckets[t].tokens, buckets[t].lastTime)
    }

    method GetBucket(tenant: string, created: real) returns (b: TokenBucket)
      requires Valid()
      modifies this
      ensures Valid() && tenant in buckets && buckets[tenant] == b
      ensures buckets == old(buckets)[tenant := b] && (b in old(buckets).Values || fresh(b))
      ensures Contents() == old(Contents())[tenant := old(Current(burst, Contents(), tenant, created))]
    {
      if tenant in buckets {
        return buckets[tenant];
      }
      b := new TokenBucket(burst as real, created);
      buckets := buckets[tenant := b];
    }

    method Allow(tenant: string, created: real, now: real) returns (ok: bool)
      requires Valid()
      modifies this, buckets.Values
      ensures Valid() && fresh(buckets.Values - old(buckets.Values))
      ensures (Contents(), ok) == old(AllowStep(rate, burst, Contents(), tenant, created, now))
      ensures var was := old(Contents());
              var b := if tenant in was then was[tenant] else Bucket(burst as real, created);
              && tenant in Contents() && Contents() == was[tenant := Contents()[tenant]]
              && Charged(rate, burst, b, now, Contents()[tenant], ok)
    {
      hide Spend, Charged;
      var b := GetBucket(tenant, created);
      ghost var before := Contents();
      assert before[tenant] == Bucket(b.tokens, b.lastTime);
      assert before[tenant] == old(Current(burst, Contents(), tenant, created));
      ok := b.Charge(rate, burst, now);
      assert Contents() == before[tenant := Bucket(b.tokens, b.lastTime)];
      assert Contents() == old(Contents())[tenant := Bucket(b.tokens, b.lastTime)];
      SpendCharges(rate, burst, before[tenant], now);
    }

    method Cleanup(maxAge: real, now: real)
      requires Valid()
      modifies this
      ensures Valid() && buckets.Values <= old(buckets.Values)
      ensures Contents() == old(CleanupStep(Contents(), maxAge, now))
      ensures forall t :: t in buckets <==> t in old(buckets) && old(buckets[t].lastTime) >= now - maxAge
      ensures forall t :: t in buckets ==> buckets[t] == old(buckets)[t]
    {
      var cutoff := now - maxAge;
      var pending := buckets.Keys;
      while pending != {}
        invariant pending <= old(buckets).Keys
        invariant buckets.Keys <= old(buckets).Keys
        invariant forall t :: t in buckets ==> buckets[t] == old(buckets)[t]
        invariant forall t :: t in old(buckets) ==>
          (t in buckets <==> t in pending || !(old(buckets)[t].lastTime < cutoff))
        decreases pending
      {
        var t :| t in pending;
        if buckets[t].lastTime < cutoff {
          buckets := buckets - {t};
        }
        pending := pending - {t};
      }
      assert Contents() == old(CleanupStep(Contents(), maxAge, now));
    }
  }

  // ----------------------------------------------------------------- runs

  datatype Call =
    | AllowCall(tenant: string, created: real, now: real)
    | CleanupCall(maxAge: real, now: real)

  function Apply(rate: int, burst: int, s: Buckets, c: Call): Buckets {
    match c
    case AllowCall(t, created, now) => AllowStep(rate, burst, s, t, created, now).0
    case CleanupCall(maxAge, now) => CleanupStep(s, maxAge, now)
  }

  function Run(rate: int, burst: int, s: Buckets, calls: seq<Call>): Buckets
    decreases |calls|
  {
    if |calls| == 0 then s else Run(rate, burst, Apply(rate, burst, s, calls[0]), calls[1..])
  }

  /** The answer one tenant gets out of a call, if the call is its own. */
  function Answer(rate: int, burst: int, s: Buckets, c: Call, tenant: string): seq<bool> {
    if c.AllowCall? && c.tenant == tenant then [AllowStep(rate, burst, s, tenant, c.created, c.now).1] else []
  }

  /** The answers one tenant gets. */
  function Answers(rate: int, burst: int, s: Buckets, calls: seq<Call>, tenant: string): seq<bool>
    decreases |calls|
  {
    if |calls| == 0 then []
    else
      Answer(rate, burst, s, calls[0], tenant)
      + Answers(rate, burst, Apply(rate, burst, s, calls[0]), calls[1..], tenant)
  }

  function Allowed(answers: seq<bool>): nat {
    if |answers| == 0 then 0 else (if answers[0] then 1 else 0) + Allowed(answers[1..])
  }

  /** The clock never goes back, within a call or between calls. */
  predicate Monotone(calls: seq<Call>, from: real) {
    |calls| == 0 ||
    (&& from <= calls[0].now
     && (calls[0].AllowCall? ==> from <= calls[0].created <= calls[0].now)
     && Monotone(calls[1..], calls[0].now))
  }

  /** The time of the last call. */
  function EndTime(calls: seq<Call>, from: real): real {
    if |calls| == 0 then from else EndTime(calls[1..], calls[0].now)
  }

  predicate NoEviction(calls: seq<Call>) {
    forall i :: 0 <= i < |calls| ==> calls[i].AllowCall?
  }

  /** Every bucket was last charged in the past and holds between zero and `burst` tokens. */
  predicate Sane(burst: int, s: Buckets, now: real) {
    forall t :: t in s ==> s[t].lastTime <= now && 0.0 <= s[t].tokens <= burst as real
  }

  lemma EarnedIsMonotone(rate: int, a: real, b: real)
    requires rate >= 0 && a <= b
    ensures Earned(rate, a) <= Earned(rate, b)
    ensures 0.0 <= a ==> 0.0 <= Earned(rate, a)
  {
  }

  lemma EarnedAdds(rate: int, a: real, b: real)
    ensures Earned(rate, a + b) == Earned(rate, a) + Earned(rate, b)
    ensures Earned(rate, 0.0) == 0.0
  {
  }

  lemma ApplySane(rate: int, burst: int, s: Buckets, c: Call, from: real)
    requires rate >= 0 && burst >= 0 && Sane(burst, s, from) && Monotone([c], from)
    ensures Sane(burst, Apply(rate, burst, s, c), c.now)
  {
    hide Earned;
    if c.AllowCall? {
      SpendSane(rate, burst, Current(burst, s, c.tenant, c.created), c.now);
    }
  }

  lemma SpendSane(rate: int, burst: int, b: Bucket, now: real)
    requires rate >= 0 && burst >= 0 && b.lastTime <= now && 0.0 <= b.tokens <= burst as real
    ensures var (b', ok) := Spend(rate, burst, b, now);
            && b'.lastTime == now && 0.0 <= b'.tokens <= burst as real
            && b'.tokens == Refilled(rate, burst, b, now) - (if ok then 1.0 else 0.0)
  {
    hide Earned;
    EarnedIsMonotone(rate, 0.0, now - b.lastTime);
  }

  lemma RefilledAtOnce(rate: int, burst: int, b: Bucket)
    ensures Refilled(rate, burst, b, b.lastTime) == Min(burst as real, b.tokens)
  {
    hide Earned;
    EarnedAdds(rate, 0.0, 0.0);
  }

  lemma FullStaysFull(rate: int, burst: int, b: Bucket, now: real)
    requires rate >= 0 && b.lastTime <= now && b.tokens == burst as real
    ensures Refilled(rate, burst, b, now) == burst as real
  {
    hide Earned;
    EarnedIsMonotone(rate, 0.0, now - b.lastTime);
  }

  /** The token count never leaves the interval from zero to the burst size. */
  lemma {:induction false} TokensStayInRange(rate: int, burst: int, s: Buckets, calls: seq<Call>, from: real)
    requires rate >= 0 && burst >= 0 && Sane(burst, s, from) && Monotone(calls, from)
    ensures Sane(burst, Run(rate, burst, s, calls), EndTime(calls, from))
    decreases |calls|
  {
    hide Earned;
    if |calls| == 0 {
    } else {
      assert Monotone([calls[0]], from);
      ApplySane(rate, burst, s, calls[0], from);
      TokensStayInRange(rate, burst, Apply(rate, burst, s, calls[0]), calls[1..], calls[0].now);
    }
  }

  // ----------------------------------------------------------- rate bound

  /** What the tenant could spend at once if it called at `now`. */
  function Credit(rate: int, burst: int, s: Buckets, tenant: string, now: real): real {
    if tenant in s then Refilled(rate, burst, s[tenant], now) else burst as real
  }

  lemma CreditGrowth(rate: int, burst: int, s: Buckets, tenant: string, from: real, to: real)
    requires rate >= 0 && from <= to
    ensures Credit(rate, burst, s, tenant, to) <= Credit(rate, burst, s, tenant, from) + Earned(rate, to - from)
  {
    hide Earned;
    EarnedIsMonotone(rate, 0.0, to - from);
    if tenant in s {
      var last := s[tenant].lastTime;
      EarnedAdds(rate, to - from, from - last);
    }
  }

  lemma AllowPaysForItself(rate: int, burst: int, s: Buckets, c: Call, from: real)
    requires rate >= 0 && burst >= 0 && Sane(burst, s, from) && Monotone([c], from) && c.AllowCall?
    ensures var (s', ok) := AllowStep(rate, burst, s, c.tenant, c.created, c.now);
            Credit(rate, burst, s', c.tenant, c.now)
            <= Credit(rate, burst, s, c.tenant, c.now) - (if ok then 1.0 else 0.0)
  {
    hide Earned;
    var b := Current(burst, s, c.tenant, c.created);
    SpendSane(rate, burst, b, c.now);
    RefilledAtOnce(rate, burst, Spend(rate, burst, b, c.now).0);
    if c.tenant !in s {
      FullStaysFull(rate, burst, b, c.now);
    }
  }

  lemma {:induction false} SpendingIsBounded(rate: int, burst: int, s: Buckets, calls: seq<Call>, tenant: string,
                                             from: real)
    requires rate >= 0 && burst >= 0 && Sane(burst, s, from) && Monotone(calls, from) && NoEviction(calls)
    ensures Allowed(Answers(rate, burst, s, calls, tenant)) as real
         <= Credit(rate, burst, s, tenant, from) + Earned(rate, EndTime(calls, from) - from)
    decreases |calls|
  {
    hide Earned;
    if |calls| == 0 {
      EarnedAdds(rate, 0.0, 0.0);
      if tenant in s {
        EarnedIsMonotone(rate, 0.0, from - s[tenant].lastTime);
      }
    } else {
      var c, rest := calls[0], calls[1..];
      var s' := Apply(rate, burst, s, c);
      assert Monotone([c], from);
      ApplySane(rate, burst, s, c, from);
      SpendingIsBounded(rate, burst, s', rest, tenant, c.now);
      CreditGrowth(rate, burst, s, tenant, from, c.now);
      AllowPaysForItself(rate, burst, s, c, from);
      var end := EndTime(calls, from);
      EarnedAdds(rate, end - c.now, c.now - from);
      var later := Answers(rate, burst, s', rest, tenant);
      if c.tenant == tenant {
        AllowedFirst(AllowStep(rate, burst, s, tenant, c.created, c.now).1, later);
      } else {
        assert Answers(rate, burst, s, calls, tenant) == later;
      }
    }
  }

  lemma AllowedFirst(ok: bool, later: seq<bool>)
    ensures Allowed([ok] + later) == (if ok then 1 else 0) + Allowed(later)
  {
  }

  lemma {:induction false} MonotoneSplit(before: seq<Call>, window: seq<Call>, from: real)
    requires Monotone(before + window, from)
    ensures Monotone(before, from) && Monotone(window, EndTime(before, from))
  {
    if |before| == 0 {
      assert before + window == window;
    } else {
      assert (before + window)[1..] == before[1..] + window;
      MonotoneSplit(before[1..], window, before[0].now);
    }
  }

  lemma WindowBound(rate: int, burst: int, before: seq<Call>, window: seq<Call>, from: real, tenant: string)
    requires rate >= 0 && burst >= 0 && |window| > 0
    requires Monotone(before + window, from) && NoEviction(window)
    ensures var s := Run(rate, burst, map[], before);
            Allowed(Answers(rate, burst, s, window, tenant)) as real
            <= burst as real + Earned(rate, EndTime(window, window[0].now) - window[0].now)
  {
    hide Earned;
    var s, c := Run(rate, burst, map[], before), window[0];
    MonotoneSplit(before, window, from);
    TokensStayInRange(rate, burst, map[], before, from);
    var start := EndTime(before, from);
    if c.tenant == tenant {
      BoundFromFirstCall(rate, burst, s, window, tenant, start);
    } else {
      assert Monotone([c], start);
      ApplySane(rate, burst, s, c, start);
      SpendingIsBounded(rate, burst, Apply(rate, burst, s, c), window[1..], tenant, c.now);
      assert Answers(rate, burst, s, window, tenant)
          == Answers(rate, burst, Apply(rate, burst, s, c), window[1..], tenant);
    }
  }

  lemma {:induction false} EndIsLastCall(calls: seq<Call>, from: real)
    requires |calls| > 0
    ensures EndTime(calls, from) == calls[|calls| - 1].now
  {
    if |calls| == 1 {
    } else {
      EndIsLastCall(calls[1..], calls[0].now);
    }
  }

  /** In every run without eviction, and every window of it, a tenant is allowed at most
      `burst + rate * T` requests, `T` being the seconds from the window's first call to its last. */
  lemma RateBound(rate: int, burst: int, before: seq<Call>, window: seq<Call>, from: real, tenant: string)
    requires rate >= 0 && burst >= 0 && |window| > 0
    requires Monotone(before + window, from) && NoEviction(window)
    ensures var s := Run(rate, burst, map[], before);
            Allowed(Answers(rate, burst, s, window, tenant)) as real
            <= burst as real + (window[|window| - 1].now - window[0].now) * rate as real
  {
    WindowBound(rate, burst, before, window, from, tenant);
    EndIsLastCall(window, window[0].now);
  }

  /** A stored bucket was charged last by some call of its tenant. */
  lemma {:induction false} ChargedByOwnCall(rate: int, burst: int, s: Buckets, calls: seq<Call>, tenant: string)
    requires tenant in Run(rate, burst, s, calls)
    ensures var b := Run(rate, burst, s, calls)[tenant];
            || (tenant in s && b.lastTime == s[tenant].lastTime)
            || exists i :: 0 <= i < |calls| && calls[i].AllowCall? && calls[i].tenant == tenant && calls[i].now == b.lastTime
    decreases |calls|
  {
    hide Earned;
    if |calls| == 0 {
    } else {
      var rest := calls[1..];
      ChargedByOwnCall(rate, burst, Apply(rate, burst, s, calls[0]), rest, tenant);
      var b := Run(rate, burst, s, calls)[tenant];
      if i :| 0 <= i < |rest| && rest[i].AllowCall? && rest[i].tenant == tenant && rest[i].now == b.lastTime {
        assert calls[i + 1] == rest[i];
      }
    }
  }

  /** The lower side: with a burst size of at least one, in every run with or without eviction, a call
      is allowed as soon as one token's time has passed since each earlier call of its tenant. */
  lemma PatientCallIsAllowed(rate: int, burst: int, before: seq<Call>, c: Call, from: real)
    requires rate >= 0 && burst >= 1 && c.AllowCall? && Monotone(before + [c], from)
    requires forall i :: 0 <= i < |before| && before[i].AllowCall? && before[i].tenant == c.tenant ==>
      (c.now - before[i].now) * rate as real >= 1.0
    ensures Answers(rate, burst, Run(rate, burst, map[], before), [c], c.tenant) == [true]
  {
    var s := Run(rate, burst, map[], before);
    MonotoneSplit(before, [c], from);
    TokensStayInRange(rate, burst, map[], before, from);
    if c.tenant in s {
      ChargedByOwnCall(rate, burst, map[], before, c.tenant);
      assert Earned(rate, c.now - s[c.tenant].lastTime) >= 1.0;
    } else {
      FullStaysFull(rate, burst, Bucket(burst as real, c.created), c.now);
    }
    assert [c][1..] == [];
  }

  lemma BoundFromFirstCall(rate: int, burst: int, s: Buckets, window: seq<Call>, tenant: string, start: real)
    requires rate >= 0 && burst >= 0 && |window| > 0 && Sane(burst, s, start) && Monotone(window, start)
    requires NoEviction(window) && window[0].tenant == tenant
    ensures Allowed(Answers(rate, burst, s, window, tenant)) as real
         <= burst as real + Earned(rate, EndTime(window, window[0].now) - window[0].now)
  {
    hide Earned;
    var c := window[0];
    var s' := Apply(rate, burst, s, c);
    assert Monotone([c], start);
    ApplySane(rate, burst, s, c, start);
    AllowPaysForItself(rate, burst, s, c, start);
    SpendingIsBounded(rate, burst, s', window[1..], tenant, c.now);
    AllowedFirst(AllowStep(rate, burst, s, tenant, c.created, c.now).1,
                 Answers(rate, burst, s', window[1..], tenant));
  }

  // ---------------------------------------------------- tenants and eviction

  /** The calls that can concern a tenant: its own, and the cleanups. */
  function Relevant(calls: seq<Call>, tenant: string): seq<Call> {
    if |calls| == 0 then []
    else if calls[0].AllowCall? && calls[0].tenant != tenant then Relevant(calls[1..], tenant)
    else [calls[0]] + Relevant(calls[1..], tenant)
  }

  predicate SameBucket(s: Buckets, u: Buckets, tenant: string) {
    (tenant in s <==> tenant in u) && (tenant in s ==> s[tenant] == u[tenant])
  }

  lemma {:induction false} AnswersDependOnOwnBucket(rate: int, burst: int, s: Buckets, u: Buckets,
                                                    calls: seq<Call>, tenant: string)
    requires SameBucket(s, u, tenant)
    ensures Answers(rate, burst, s, calls, tenant) == Answers(rate, burst, u, Relevant(calls, tenant), tenant)
    decreases |calls|
  {
    hide Earned;
    if |calls| == 0 {
    } else {
      var c, kept := calls[0], Relevant(calls[1..], tenant);
      var s' := Apply(rate, burst, s, c);
      if c.AllowCall? && c.tenant != tenant {
        AnswersDependOnOwnBucket(rate, burst, s', u, calls[1..], tenant);
      } else {
        var u' := Apply(rate, burst, u, c);
        AnswersDependOnOwnBucket(rate, burst, s', u', calls[1..], tenant);
        assert ([c] + kept)[1..] == kept;
      }
    }
  }

  /** Other tenants' calls never change a tenant's answers. */
  lemma TenantsDoNotInterfere(rate: int, burst: int, calls: seq<Call>, tenant: string)
    ensures Answers(rate, burst, map[], calls, tenant)
         == Answers(rate, burst, map[], Relevant(calls, tenant), tenant)
  {
    hide Earned;
    AnswersDependOnOwnBucket(rate, burst, map[], map[], calls, tenant);
  }

  function WithoutCleanups(calls: seq<Call>): seq<Call> {
    if |calls| == 0 then []
    else if calls[0].CleanupCall? then WithoutCleanups(calls[1..])
    else [calls[0]] + WithoutCleanups(calls[1..])
  }

  /** Every cleanup waits at least as long as an empty bucket takes to fill. */
  predicate PatientCleanups(rate: int, burst: int, calls: seq<Call>) {
    forall i :: 0 <= i < |calls| && calls[i].CleanupCall? ==> calls[i].maxAge * rate as real >= burst as real
  }


  /** `s` is `u` with some full buckets missing. */
  predicate Forgets(rate: int, burst: int, s: Buckets, u: Buckets, now: real) {
    && (forall t :: t in s ==> t in u && s[t] == u[t])
    && (forall t :: t in u && t !in s ==> u[t].tokens + Earned(rate, now - u[t].lastTime) >= burst as real)
  }

  lemma CleanupForgetsFullBuckets(rate: int, burst: int, s: Buckets, u: Buckets, c: Call, from: real)
    requires rate >= 0 && burst >= 0 && Sane(burst, u, from) && Forgets(rate, burst, s, u, from)
    requires c.CleanupCall? && from <= c.now && Earned(rate, c.maxAge) >= burst as real
    ensures Forgets(rate, burst, CleanupStep(s, c.maxAge, c.now), u, c.now)
  {
    hide Earned;
    var s' := CleanupStep(s, c.maxAge, c.now);
    forall t | t in u && t !in s'
      ensures u[t].tokens + Earned(rate, c.now - u[t].lastTime) >= burst as real
    {
      if t in s {
        EarnedIsMonotone(rate, c.maxAge, c.now - u[t].lastTime);
      } else {
        EarnedIsMonotone(rate, from - u[t].lastTime, c.now - u[t].lastTime);
      }
    }
  }

  lemma AllowAgrees(rate: int, burst: int, s: Buckets, u: Buckets, c: Call, from: real)
    requires rate >= 0 && burst >= 0 && Sane(burst, u, from) && Forgets(rate, burst, s, u, from)
    requires c.AllowCall? && Monotone([c], from)
    ensures AllowStep(rate, burst, s, c.tenant, c.created, c.now).1
         == AllowStep(rate, burst, u, c.tenant, c.created, c.now).1
    ensures Forgets(rate, burst, Apply(rate, burst, s, c), Apply(rate, burst, u, c), c.now)
  {
    hide Earned;
    forall t | t in u && t !in s
      ensures u[t].tokens + Earned(rate, c.now - u[t].lastTime) >= burst as real
    {
      EarnedIsMonotone(rate, from - u[t].lastTime, c.now - u[t].lastTime);
    }
    EarnedIsMonotone(rate, 0.0, c.now - c.created);
  }

  lemma {:induction false} EvictionSimulation(rate: int, burst: int, s: Buckets, u: Buckets, calls: seq<Call>,
                                              from: real, tenant: string)
    requires rate >= 0 && burst >= 0 && Sane(burst, u, from) && Forgets(rate, burst, s, u, from)
    requires Monotone(calls, from) && PatientCleanups(rate, burst, calls)
    ensures Answers(rate, burst, s, calls, tenant) == Answers(rate, burst, u, WithoutCleanups(calls), tenant)
    decreases |calls|
  {
    hide Earned;
    if |calls| == 0 {
    } else {
      var c, rest, kept := calls[0], calls[1..], WithoutCleanups(calls[1..]);
      var s' := Apply(rate, burst, s, c);
      if c.CleanupCall? {
        EarnedOver(rate, c.maxAge);
        CleanupForgetsFullBuckets(rate, burst, s, u, c, from);
        EvictionSimulation(rate, burst, s', u, rest, c.now, tenant);
      } else {
        var u' := Apply(rate, burst, u, c);
        assert Monotone([c], from);
        AllowAgrees(rate, burst, s, u, c, from);
        ApplySane(rate, burst, u, c, from);
        EvictionSimulation(rate, burst, s', u', rest, c.now, tenant);
        assert ([c] + kept)[1..] == kept;
      }
    }
  }

  /** Patient cleanups cannot be observed by any tenant, in any run. */
  lemma PatientEvictionIsInvisible(rate: int, burst: int, calls: seq<Call>, from: real, tenant: string)
    requires rate >= 0 && burst >= 0
    requires Monotone(calls, from) && PatientCleanups(rate, burst, calls)
    ensures Answers(rate, burst, map[], calls, tenant)
         == Answers(rate, burst, map[], WithoutCleanups(calls), tenant)
  {
    hide Earned;
    EvictionSimulation(rate, burst, map[], map[], calls, from, tenant);
  }

  // ------------------------------------------------------ the exact condition

  /** `n` calls of one tenant at one instant. */
  function Burst(n: nat, tenant: string, now: real): (r: seq<Call>)
    ensures |r| == n && NoEviction(r)
  {
    if n == 0 then [] else [AllowCall(tenant, now, now)] + Burst(n - 1, tenant, now)
  }

  lemma {:induction false} BurstMonotone(n: nat, tenant: string, from: real, now: real)
    requires from <= now
    ensures Monotone(Burst(n, tenant, now), from)
    ensures EndTime(Burst(n, tenant, now), now) == now
  {
    if n == 0 {
    } else {
      BurstMonotone(n - 1, tenant, now, now);
      assert Burst(n, tenant, now)[1..] == Burst(n - 1, tenant, now);
    }
  }

  lemma {:induction false} MonotoneJoin(a: seq<Call>, b: seq<Call>, from: real)
    requires Monotone(a, from) && Monotone(b, EndTime(a, from))
    ensures Monotone(a + b, from) && EndTime(a + b, from) == EndTime(b, EndTime(a, from))
  {
    if |a| == 0 {
      assert a + b == b;
    } else {
      assert (a + b)[1..] == a[1..] + b;
      MonotoneJoin(a[1..], b, a[0].now);
    }
  }

  /** A bucket with at least `n` tokens grants `n` calls at once and keeps the rest. */
  lemma {:induction false} BurstIsGranted(rate: int, burst: int, s: Buckets, n: nat, tenant: string, now: real)
    requires n > 0 && Refilled(rate, burst, Current(burst, s, tenant, now), now) >= n as real
    ensures var calls := Burst(n, tenant, now);
            && Allowed(Answers(rate, burst, s, calls, tenant)) == n
            && Run(rate, burst, s, calls)
               == s[tenant := Bucket(Refilled(rate, burst, Current(burst, s, tenant, now), now) - n as real, now)]
    decreases n
  {
    hide Earned;
    var calls := Burst(n, tenant, now);
    var s' := Apply(rate, burst, s, calls[0]);
    assert calls[1..] == Burst(n - 1, tenant, now);
    AllowedFirst(true, Answers(rate, burst, s', calls[1..], tenant));
    if n == 1 {
    } else {
      EarnedAdds(rate, 0.0, 0.0);
      BurstIsGranted(rate, burst, s', n - 1, tenant, now);
    }
  }

  lemma {:induction false} AnswersAppend(rate: int, burst: int, s: Buckets, a: seq<Call>, b: seq<Call>, tenant: string)
    ensures Answers(rate, burst, s, a + b, tenant)
         == Answers(rate, burst, s, a, tenant) + Answers(rate, burst, Run(rate, burst, s, a), b, tenant)
    ensures Run(rate, burst, s, a + b) == Run(rate, burst, Run(rate, burst, s, a), b)
    decreases |a|
  {
    hide Earned, Apply, Answer;
    if |a| == 0 {
      assert a + b == b;
    } else {
      assert (a + b)[1..] == a[1..] + b;
      AnswersAppend(rate, burst, Apply(rate, burst, s, a[0]), a[1..], b, tenant);
    }
  }

  lemma {:induction false} AllowedAppend(a: seq<bool>, b: seq<bool>)
    ensures Allowed(a + b) == Allowed(a) + Allowed(b)
  {
    if |a| == 0 {
      assert a + b == b;
    } else {
      assert (a + b)[1..] == a[1..] + b;
      AllowedAppend(a[1..], b);
    }
  }

  /** Drain a bucket at time zero, evict it at `time`, and drain it again. */
  function DrainEvictDrain(burst: nat, maxAge: real, time: real, tenant: string): seq<Call> {
    Burst(burst, tenant, 0.0) + ([CleanupCall(maxAge, time)] + Burst(burst, tenant, time))
  }

  lemma {:induction false} WithoutCleanupsAppend(a: seq<Call>, b: seq<Call>)
    ensures WithoutCleanups(a + b) == WithoutCleanups(a) + WithoutCleanups(b)
    ensures NoEviction(a) ==> WithoutCleanups(a) == a
  {
    if |a| == 0 {
      assert a + b == b;
    } else {
      assert (a + b)[1..] == a[1..] + b;
      WithoutCleanupsAppend(a[1..], b);
      assert a == [a[0]] + a[1..];
    }
  }

  /** With eviction both drains succeed. */
  lemma EvictionGrantsTwice(rate: int, burst: nat, maxAge: real, time: real, tenant: string)
    requires rate >= 0 && burst > 0 && 0.0 <= maxAge < time
    ensures var calls := DrainEvictDrain(burst, maxAge, time, tenant);
            Allowed(Answers(rate, burst, map[], calls, tenant)) == 2 * burst
  {
    hide Earned;
    var first, tail := Burst(burst, tenant, 0.0), Burst(burst, tenant, time);
    var sweep := CleanupCall(maxAge, time);
    EarnedAdds(rate, 0.0, 0.0);
    BurstIsGranted(rate, burst, map[], burst, tenant, 0.0);
    var drained := Run(rate, burst, map[], first);
    AnswersAppend(rate, burst, map[], first, [sweep] + tail, tenant);
    var swept := Apply(rate, burst, drained, sweep);
    assert drained.Keys == {tenant} && drained[tenant].lastTime == 0.0;
    assert swept == map[];
    assert Allowed(Answers(rate, burst, map[], first, tenant)) == burst;
    assert ([sweep] + tail)[1..] == tail;
    BurstIsGranted(rate, burst, swept, burst, tenant, time);
    assert Answers(rate, burst, drained, [sweep] + tail, tenant)
        == Answers(rate, burst, swept, tail, tenant);
    AllowedAppend(Answers(rate, burst, map[], first, tenant),
                  Answers(rate, burst, drained, [sweep] + tail, tenant));
  }

  /** Without eviction the second drain cannot, if the bucket has not had time to fill. */
  lemma NoEvictionGrantsLess(rate: int, burst: nat, maxAge: real, time: real, tenant: string)
    requires rate >= 0 && burst > 0 && 0.0 <= maxAge < time && Earned(rate, time) < burst as real
    ensures var calls := WithoutCleanups(DrainEvictDrain(burst, maxAge, time, tenant));
            Allowed(Answers(rate, burst, map[], calls, tenant)) < 2 * burst
  {
    hide Earned;
    var first, tail := Burst(burst, tenant, 0.0), Burst(burst, tenant, time);
    var sweep := CleanupCall(maxAge, time);
    WithoutCleanupsAppend(first, [sweep] + tail);
    assert ([sweep] + tail)[1..] == tail;
    WithoutCleanupsAppend(tail, []);
    var calls := first + tail;
    assert WithoutCleanups(DrainEvictDrain(burst, maxAge, time, tenant)) == calls;
    BurstMonotone(burst, tenant, 0.0, 0.0);
    BurstMonotone(burst, tenant, 0.0, time);
    MonotoneJoin(first, tail, 0.0);
    assert [] + calls == calls;
    WindowBound(rate, burst, [], calls, 0.0, tenant);
    EndOfTail(burst, tenant, time);
  }

  lemma EndOfTail(burst: nat, tenant: string, time: real)
    requires burst > 0 && 0.0 <= time
    ensures EndTime(Burst(burst, tenant, time), 0.0) == time
  {
    BurstMonotone(burst, tenant, 0.0, time);
    BurstMonotone(burst - 1, tenant, time, time);
    assert Burst(burst, tenant, time)[1..] == Burst(burst - 1, tenant, time);
  }

  /** Whether eviction at age `maxAge` can be observed in some run of one tenant. */
  ghost predicate EvictionIsInvisible(rate: int, burst: int, maxAge: real) {
    forall calls: seq<Call>, from: real, tenant: string :: Unseen(rate, burst, maxAge, calls, from, tenant)
  }

  predicate Unseen(rate: int, burst: int, maxAge: real, calls: seq<Call>, from: real, tenant: string) {
    Monotone(calls, from) && UsesMaxAge(calls, maxAge) ==>
      Answers(rate, burst, map[], calls, tenant) == Answers(rate, burst, map[], WithoutCleanups(calls), tenant)
  }

  predicate UsesMaxAge(calls: seq<Call>, maxAge: real) {
    forall i :: 0 <= i < |calls| && calls[i].CleanupCall? ==> calls[i].maxAge == maxAge
  }

  /** Eviction is invisible exactly when the age covers the time an empty bucket takes to fill. */
  lemma EvictionIsInvisibleIff(rate: int, burst: nat, maxAge: real)
    requires rate >= 0 && burst > 0 && maxAge >= 0.0
    ensures EvictionIsInvisible(rate, burst, maxAge) <==> maxAge * rate as real >= burst as real
  {
    hide Earned;
    EarnedOver(rate, maxAge);
    if Earned(rate, maxAge) >= burst as real {
      forall calls: seq<Call>, from: real, tenant: string
        ensures Unseen(rate, burst, maxAge, calls, from, tenant)
      {
        if Monotone(calls, from) && UsesMaxAge(calls, maxAge) {
          PatientEvictionIsInvisible(rate, burst, calls, from, tenant);
        }
      }
    } else {
      var time := BetweenAgeAndFill(rate, burst, maxAge);
      var calls := DrainEvictDrain(burst, maxAge, time, "t");
      EvictionGrantsTwice(rate, burst, maxAge, time, "t");
      NoEvictionGrantsLess(rate, burst, maxAge, time, "t");
      DrainIsLegal(burst, maxAge, time, "t");
      assert !Unseen(rate, burst, maxAge, calls, 0.0, "t");
    }
  }

  lemma BetweenAgeAndFill(rate: int, burst: nat, maxAge: real) returns (time: real)
    requires rate >= 0 && burst > 0 && maxAge >= 0.0 && Earned(rate, maxAge) < burst as real
    ensures maxAge < time && Earned(rate, time) < burst as real
  {
    if rate == 0 {
      time := maxAge + 1.0;
    } else {
      var fill := burst as real / rate as real;
      assert fill * rate as real == burst as real;
      if maxAge >= fill {
        EarnedIsMonotone(rate, fill, maxAge);
      }
      time := (maxAge + fill) / 2.0;
      assert time * rate as real == (Earned(rate, maxAge) + burst as real) / 2.0;
    }
  }

  lemma DrainIsLegal(burst: nat, maxAge: real, time: real, tenant: string)
    requires burst > 0 && 0.0 <= maxAge < time
    ensures var calls := DrainEvictDrain(burst, maxAge, time, tenant);
            Monotone(calls, 0.0) && UsesMaxAge(calls, maxAge)
  {
    var first, tail := Burst(burst, tenant, 0.0), Burst(burst, tenant, time);
    BurstMonotone(burst, tenant, 0.0, 0.0);
    BurstMonotone(burst, tenant, time, time);
    assert ([CleanupCall(maxAge, time)] + tail)[1..] == tail;
    MonotoneJoin(first, [CleanupCall(maxAge, time)] + tail, 0.0);
  }
}
