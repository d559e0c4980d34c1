/** The retry and poll loops of services/api/core/solana_client.go and the attempt loop of
    reconciler.go. What the RPC node answers to the n-th request is the n-th value of a stream. */
module SolanaClient {
  import opened Wrappers

  // ------------------------------------------------------ SubmitTransaction

  datatype SendAnswer = Unreachable | RpcError(message: string) | Garbled | Accepted(signature: string)

  datatype SubmitResult = SubmitResult(success: bool, signature: string, error: string)

  datatype SubmitError = RetriesExhausted | UnparsableResponse

  /** The requests up to but not including the `k`-th all asked for another try. */
  predicate AllRetryable(answers: nat -> SendAnswer, k: nat) {
    forall j: nat :: j < k ==> answers(j).Unreachable? || answers(j).RpcError?
  }

  method SubmitTransaction(answers: nat -> SendAnswer, maxRetries: int)
    returns (r: Result<SubmitResult, SubmitError>, sent: nat)
    ensures sent <= (if maxRetries < 0 then 0 else maxRetries + 1)
    ensures sent > 0 ==> AllRetryable(answers, sent - 1)
    ensures r.Ok? && r.value.success <==>
      sent > 0 && answers(sent - 1).Accepted? && r == Ok(SubmitResult(true, answers(sent - 1).signature, ""))
    ensures r == Err(UnparsableResponse) <==> sent > 0 && answers(sent - 1).Garbled?
    ensures r.Ok? && !r.value.success <==>
      && sent == maxRetries + 1 && sent > 0 && answers(sent - 1).RpcError?
      && r == Ok(SubmitResult(false, "", answers(sent - 1).message))
    ensures r == Err(RetriesExhausted) ==> AllRetryable(answers, sent) && sent == (if maxRetries < 0 then 0 else maxRetries + 1)
    ensures r.Ok? && r.value.success <==>
      exists k: nat :: k <= maxRetries && answers(k).Accepted? && AllRetryable(answers, k)
  {
    sent := 0;
    var attempt := 0;
    while attempt <= maxRetries
      invariant 0 <= attempt && sent == attempt
      invariant attempt <= (if maxRetries < 0 then 0 else maxRetries + 1)
      invariant AllRetryable(answers, attempt)
      invariant attempt == maxRetries + 1 && attempt > 0 ==> !answers(maxRetries).RpcError?
    {
      var resp := answers(sent);
      sent := sent + 1;
      match resp {
        case Unreachable =>
        case RpcError(message) =>
          if attempt >= maxRetries {
            return Ok(SubmitResult(false, "", message)), sent;
          }
        case Garbled =>
          return Err(UnparsableResponse), sent;
        case Accepted(signature) =>
          return Ok(SubmitResult(true, signature, "")), sent;
      }
      attempt := attempt + 1;
    }
    r := Err(RetriesExhausted);
  }

  // ------------------------------------------------------------- the polls

  /** One answer of getSignatureStatuses: a failed query, no status yet, a status with an error,
      any other status below the wanted commitment, or a wanted one. */
  datatype Status = QueryError | NoStatus | FailedOnChain | Processed | Confirmed | Finalized

  /** Poll at most `n` times from query `from`: whether it confirmed, and the queries used. */
  function Poll(stream: nat -> Status, from: nat, n: nat): (bool, nat)
    decreases n
  {
    if n == 0 then (false, 0)
    else if stream(from).Confirmed? || stream(from).Finalized? then (true, 1)
    else if stream(from).FailedOnChain? then (false, 1)
    else
      var (confirmed, used) := Poll(stream, from + 1, n - 1);
      (confirmed, used + 1)
  }

  function QueriesPerPoll(maxRetries: int): nat {
    if maxRetries < 0 then 0 else maxRetries * 10
  }

  method WaitForConfirmation(stream: nat -> Status, from: nat, maxRetries: int) returns (confirmed: bool, used: nat)
    ensures (confirmed, used) == Poll(stream, from, if maxRetries < 0 then 0 else maxRetries * 10)
  {
    used := 0;
    var attempt := 0;
    while attempt < maxRetries * 10
      invariant 0 <= attempt <= QueriesPerPoll(maxRetries) && used == attempt
      invariant var rest := Poll(stream, from + used, QueriesPerPoll(maxRetries) - used);
                Poll(stream, from, QueriesPerPoll(maxRetries)) == (rest.0, used + rest.1)
    {
      var status := stream(from + used);
      used := used + 1;
      if status.FailedOnChain? {
        return false, used;
      }
      if status.Confirmed? || status.Finalized? {
        return true, used;
      }
      attempt := attempt + 1;
    }
    confirmed := false;
  }

  const MAX_ATTEMPTS: nat := 60

  /** The reconciler's loop: a poll that ends in any error is followed by the next attempt. Whether
      it confirmed, the queries used and the attempts made. */
  function Attempts(stream: nat -> Status, from: nat, attempts: nat, n: nat): (bool, nat, nat)
    decreases attempts
  {
    if attempts == 0 then (false, 0, 0)
    else
      var (confirmed, used) := Poll(stream, from, n);
      if confirmed then (true, used, 1)
      else
        var (later, more, made) := Attempts(stream, from + used, attempts - 1, n);
        (later, used + more, made + 1)
  }

  method PollUntilConfirmed(stream: nat -> Status, maxRetries: int) returns (confirmed: bool, used: nat, made: nat)
    ensures (confirmed, used, made) == Attempts(stream, 0, 60, if maxRetries < 0 then 0 else maxRetries * 10)
  {
    hide Attempts, Poll;
    used := 0;
    ghost var n := QueriesPerPoll(maxRetries);
    var attempt := 0;
    while attempt < 60
      invariant 0 <= attempt <= 60
      invariant var rest := Attempts(stream, used, MAX_ATTEMPTS - attempt, n);
                Attempts(stream, 0, MAX_ATTEMPTS, n) == (rest.0, used + rest.1, attempt + rest.2)
    {
      AttemptsUnfold(stream, used, MAX_ATTEMPTS - attempt, n);
      var ok, queries := WaitForConfirmation(stream, used, maxRetries);
      used := used + queries;
      attempt := attempt + 1;
      if ok {
        return true, used, attempt;
      }
    }
    NoAttemptsLeft(stream, used, n);
    confirmed, made := false, attempt;
  }

  lemma NoAttemptsLeft(stream: nat -> Status, from: nat, n: nat)
    ensures Attempts(stream, from, 0, n) == (false, 0, 0)
  {
  }

  lemma AttemptsUnfold(stream: nat -> Status, from: nat, attempts: nat, n: nat)
    requires attempts > 0
    ensures var (confirmed, used) := Poll(stream, from, n);
            var (later, more, made) := Attempts(stream, from + used, attempts - 1, n);
            Attempts(stream, from, attempts, n) == if confirmed then (true, used, 1) else (later, used + more, made + 1)
  {
  }

  // --------------------------------------------------------------- outcome

  /** One poll ends at the first answer that is confirmed, finalized or a failure on chain, and
      otherwise after `n` queries; it confirms exactly when that answer is confirmed or finalized. */
  lemma {:induction false} PollOutcome(stream: nat -> Status, from: nat, n: nat)
    ensures var (confirmed, used) := Poll(stream, from, n);
            && used <= n
            && (confirmed <==> used > 0 && stream(from + used - 1) in {Confirmed, Finalized})
            && (used < n ==> used > 0 && stream(from + used - 1) in {Confirmed, Finalized, FailedOnChain})
            && (forall k: nat :: from <= k < from + used - 1 ==> stream(k) in {QueryError, NoStatus, Processed})
    decreases n
  {
    if n == 0 || stream(from) in {Confirmed, Finalized, FailedOnChain} {
    } else {
      PollOutcome(stream, from + 1, n - 1);
    }
  }

  lemma OneMore(attempts: nat, n: nat)
    ensures (attempts + 1) * n == attempts * n + n && attempts * n >= 0
  {
  }

  /** At most `attempts * n` queries; confirmed exactly when the last of them was answered with
      confirmed or finalized, and no earlier answer is either; otherwise every attempt has been made. */
  lemma {:induction false} AttemptsOutcome(stream: nat -> Status, from: nat, attempts: nat, n: nat)
    ensures var (confirmed, used, made) := Attempts(stream, from, attempts, n);
            && used <= attempts * n && made <= attempts && (!confirmed ==> made == attempts)
            && (confirmed <==> used > 0 && (stream(from + used - 1).Confirmed? || stream(from + used - 1).Finalized?))
            && (forall k: nat :: from <= k < (if confirmed then from + used - 1 else from + used) ==>
                  !stream(k).Confirmed? && !stream(k).Finalized?)
    decreases attempts
  {
    hide Poll, Attempts;
    if attempts == 0 {
      NoAttemptsLeft(stream, from, n);
    } else {
      PollOutcome(stream, from, n);
      AttemptsUnfold(stream, from, attempts, n);
      OneMore(attempts - 1, n);
      var (confirmed, used) := Poll(stream, from, n);
      if !confirmed {
        AttemptsOutcome(stream, from + used, attempts - 1, n);
      }
    }
  }

  lemma {:induction false} PollWithoutFailures(stream: nat -> Status, from: nat, n: nat)
    requires forall k: nat :: !stream(k).FailedOnChain?
    ensures Poll(stream, from, n).0 <==>
      exists k: nat :: from <= k < from + n && (stream(k).Confirmed? || stream(k).Finalized?)
    ensures !Poll(stream, from, n).0 ==> Poll(stream, from, n).1 == n
    decreases n
  {
    if n == 0 || stream(from) in {Confirmed, Finalized} {
    } else {
      PollWithoutFailures(stream, from + 1, n - 1);
    }
  }

  /** When no query reports a failure on chain, confirmation is missed only if neither confirmed nor
      finalized appears among all `attempts * n` answers. */
  lemma {:induction false} AttemptsWithoutFailures(stream: nat -> Status, from: nat, attempts: nat, n: nat)
    requires forall k: nat :: !stream(k).FailedOnChain?
    ensures Attempts(stream, from, attempts, n).0 <==>
      exists k: nat :: from <= k < from + attempts * n && (stream(k).Confirmed? || stream(k).Finalized?)
    decreases attempts
  {
    if attempts == 0 {
    } else {
      PollWithoutFailures(stream, from, n);
      assert attempts * n == (attempts - 1) * n + n;
      assert (attempts - 1) * n >= 0;
      if !Poll(stream, from, n).0 {
        AttemptsWithoutFailures(stream, from + n, attempts - 1, n);
      }
    }
  }

  /** Failures on chain use up attempts: a chain that reports nothing else ends every attempt after its
      first query, and the good answer of a later query is not reached. */
  lemma {:induction false} FailuresUseUpAttempts(stream: nat -> Status, from: nat, attempts: nat, n: nat)
    requires n > 0 && forall k: nat :: from <= k < from + attempts ==> stream(k).FailedOnChain?
    ensures Attempts(stream, from, attempts, n) == (false, attempts, attempts)
    decreases attempts
  {
    if attempts == 0 {
    } else {
      FailuresUseUpAttempts(stream, from + 1, attempts - 1, n);
    }
  }
}
