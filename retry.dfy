/** The retry policy CartService declares on the class (CartService.java,
    lines 28-29): every use-case runs in its own transaction, and when it
    fails with an optimistic-locking conflict the whole use-case runs
    again, up to four attempts in all, waiting 100 ms, then twice as long
    each time, before the next one. Any other error ends it at once; when
    the last attempt conflicts too, that conflict is what the caller gets. */
module RetryPolicy {
  import opened Common

  /** maxAttempts, counting the first. */
  const MAX_ATTEMPTS: nat := 4
  /** The backoff's delay (ms) and multiplier. */
  const INITIAL_DELAY: nat := 100
  const MULTIPLIER: nat := 2

  /** The error a conflicting commit raises. */
  const CONFLICT := Error(OptimisticLockingFailure, WriteConflict)

  /** retryFor: only an optimistic-locking failure is retried. */
  predicate Retryable(e: Error) {
    e.exception == OptimisticLockingFailure
  }

  predicate IsRetryable<T>(o: Result<T>) {
    o.Err? && Retryable(o.error)
  }

  /** What the policy hands back and how many attempts it made. */
  datatype Run<T> = Run(result: Result<T>, attempts: nat)

  /** The policy over the outcomes the successive attempts would give:
      attempt after attempt while the outcome is retryable and attempts
      are left; the last outcome met is the result. */
  function Retry<T>(outcomes: seq<Result<T>>, maxAttempts: nat): (r: Run<T>)
    requires 1 <= maxAttempts <= |outcomes|
    ensures 1 <= r.attempts <= maxAttempts
    ensures r.result == outcomes[r.attempts - 1]
    decreases maxAttempts
  {
    if IsRetryable(outcomes[0]) && maxAttempts > 1 then
      var rest := Retry(outcomes[1..], maxAttempts - 1);
      Run(rest.result, rest.attempts + 1)
    else
      Run(outcomes[0], 1)
  }

  /** A trace of attempts that the policy could have made in this order:
      at least one and at most `maxAttempts`, every one before the last
      retryable, and the last retryable only when no attempt is left. */
  predicate Settled<T>(seen: seq<Result<T>>, maxAttempts: nat) {
    && 1 <= |seen| <= maxAttempts
    && (forall j :: 0 <= j < |seen| - 1 ==> IsRetryable(seen[j]))
    && (IsRetryable(seen[|seen| - 1]) ==> |seen| == maxAttempts)
  }

  /** The attempts the policy makes form a settled trace. */
  lemma {:induction false} RetrySettles<T>(outcomes: seq<Result<T>>, maxAttempts: nat)
    requires 1 <= maxAttempts <= |outcomes|
    ensures Settled(outcomes[..Retry(outcomes, maxAttempts).attempts], maxAttempts)
    decreases maxAttempts
  {
    var r := Retry(outcomes, maxAttempts);
    if IsRetryable(outcomes[0]) && maxAttempts > 1 {
      RetrySettles(outcomes[1..], maxAttempts - 1);
      var n := Retry(outcomes[1..], maxAttempts - 1).attempts;
      assert outcomes[..r.attempts] == [outcomes[0]] + outcomes[1..][..n];
    }
  }

  /** Conversely, after a settled trace the policy stops, whatever the later
      attempts would have given: its result is the trace's last outcome. */
  lemma {:induction false} SettledRetry<T>(seen: seq<Result<T>>, rest: seq<Result<T>>, maxAttempts: nat)
    requires Settled(seen, maxAttempts) && maxAttempts <= |seen + rest|
    ensures Retry(seen + rest, maxAttempts) == Run(seen[|seen| - 1], |seen|)
    decreases maxAttempts
  {
    if |seen| > 1 {
      assert (seen + rest)[1..] == seen[1..] + rest;
      SettledRetry(seen[1..], rest, maxAttempts - 1);
    }
  }

  /** Retryable outcomes while attempts are left, then one the policy stops
      at: a settled trace, whose last outcome is the policy's result
      whatever the attempts after it would have given. */
  lemma SettledAfter<T>(seen: seq<Result<T>>, o: Result<T>, maxAttempts: nat)
    requires |seen| < maxAttempts
    requires forall j :: 0 <= j < |seen| ==> IsRetryable(seen[j])
    requires !IsRetryable(o) || |seen| + 1 == maxAttempts
    ensures Settled(seen + [o], maxAttempts)
    ensures forall rest :: maxAttempts <= |seen + [o] + rest| ==>
              Retry(seen + [o] + rest, maxAttempts) == Run(o, |seen| + 1)
  {
    var t := seen + [o];
    assert forall j :: 0 <= j < |t| - 1 ==> t[j] == seen[j];
    forall rest | maxAttempts <= |t + rest|
      ensures Retry(t + rest, maxAttempts) == Run(o, |seen| + 1)
    {
      SettledRetry(t, rest, maxAttempts);
    }
  }

  /** An error other than a conflict ends the run on its first occurrence. */
  lemma FailureNotRetried<T>(outcomes: seq<Result<T>>, maxAttempts: nat, i: nat)
    requires 1 <= maxAttempts <= |outcomes| && i < maxAttempts
    requires forall j :: 0 <= j < i ==> IsRetryable(outcomes[j])
    requires outcomes[i].Err? && !Retryable(outcomes[i].error)
    ensures Retry(outcomes, maxAttempts) == Run(outcomes[i], i + 1)
  {
    SettledRetry(outcomes[..i + 1], outcomes[i + 1..], maxAttempts);
    assert outcomes[..i + 1] + outcomes[i + 1..] == outcomes;
  }

  /** A success after `i` conflicts is the result, after i + 1 attempts. */
  lemma CommitAfterConflicts<T>(outcomes: seq<Result<T>>, maxAttempts: nat, i: nat)
    requires 1 <= maxAttempts <= |outcomes| && i < maxAttempts
    requires forall j :: 0 <= j < i ==> IsRetryable(outcomes[j])
    requires outcomes[i].Ok?
    ensures Retry(outcomes, maxAttempts) == Run(outcomes[i], i + 1)
  {
    SettledRetry(outcomes[..i + 1], outcomes[i + 1..], maxAttempts);
    assert outcomes[..i + 1] + outcomes[i + 1..] == outcomes;
  }

  /** The caller sees a conflict exactly when every attempt conflicted; it
      is then the last one, after all MAX_ATTEMPTS attempts. */
  lemma ConflictsExhaust<T>(outcomes: seq<Result<T>>)
    requires MAX_ATTEMPTS <= |outcomes|
    ensures var r := Retry(outcomes, MAX_ATTEMPTS);
            IsRetryable(r.result) <==> forall j :: 0 <= j < MAX_ATTEMPTS ==> IsRetryable(outcomes[j])
    ensures (forall j :: 0 <= j < MAX_ATTEMPTS ==> IsRetryable(outcomes[j])) ==>
              Retry(outcomes, MAX_ATTEMPTS) == Run(outcomes[MAX_ATTEMPTS - 1], MAX_ATTEMPTS)
  {
    var r := Retry(outcomes, MAX_ATTEMPTS);
    RetrySettles(outcomes, MAX_ATTEMPTS);
    var seen := outcomes[..r.attempts];
    assert seen[|seen| - 1] == r.result;
    if forall j :: 0 <= j < MAX_ATTEMPTS ==> IsRetryable(outcomes[j]) {
      assert IsRetryable(seen[|seen| - 1]);
    }
  }

  /** The nominal wait (ms) before retry number k, the first retry being 1:
      100 ms, then doubling. */
  function Backoff(k: nat): nat
    requires k >= 1
  {
    if k == 1 then INITIAL_DELAY else MULTIPLIER * Backoff(k - 1)
  }

  /** The nominal time spent waiting in a run of n attempts. */
  function Waited(n: nat): nat {
    if n <= 1 then 0 else Waited(n - 1) + Backoff(n - 1)
  }

  /** Each wait is twice the previous one, and the k-th is 100 * 2^(k-1). */
  lemma {:induction false} BackoffDoubles(k: nat)
    requires k >= 1
    ensures Backoff(k + 1) == 2 * Backoff(k)
    ensures Backoff(k) == INITIAL_DELAY * Pow2(k - 1)
  {
    if k > 1 {
      BackoffDoubles(k - 1);
    }
  }

  function Pow2(n: nat): nat {
    if n == 0 then 1 else 2 * Pow2(n - 1)
  }

  /** A run of n attempts waits 100 * (2^(n-1) - 1) ms in all: 100, 300
      and 700 ms before the second, third and fourth attempt. */
  lemma {:induction false} WaitedTotal(n: nat)
    requires n >= 1
    ensures Waited(n) + INITIAL_DELAY == INITIAL_DELAY * Pow2(n - 1)
  {
    if n > 1 {
      WaitedTotal(n - 1);
      BackoffDoubles(n - 1);
    }
  }

  lemma LongestWait()
    ensures Waited(MAX_ATTEMPTS) == 700
    ensures Backoff(1) == 100 && Backoff(2) == 200 && Backoff(3) == 400
  {
    WaitedTotal(MAX_ATTEMPTS);
  }
}
