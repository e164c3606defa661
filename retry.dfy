/**
 * The bounded retry wrapper of the ratings client (`withRetry`).
 *
 * The wrapped operation is given as `op`, where `op(i)` is how the operation
 * settles on its `i`-th call (counting from 0). The one-second sleep after a
 * transient failure is not performed; the model counts it in `waits`, each
 * wait standing for `RetryDelay` milliseconds.
 */
module Retry {
  import opened Outcomes
  import Strings

  /** Total number of attempts the wrapper makes at most. */
  const MaxRetries: nat := 3
  /** Length of each pause after a transient failure, in milliseconds. */
  const RetryDelay: nat := 1000
  /** The phrase that marks a failure as a transient connection problem. */
  const TransientPhrase: string := "Could not establish connection"

  /** A failure is transient when it is an `Error` whose message contains the phrase. */
  predicate IsTransient(e: Thrown)
    ensures IsTransient(e) <==>
      e.Error? && exists i: nat :: Strings.OccursAt(e.message, TransientPhrase, i)
  {
    if e.Error? then
      Strings.IncludesIff(e.message, TransientPhrase);
      Strings.Includes(e.message, TransientPhrase)
    else false
  }

  predicate IsTransientFailure<T>(o: Outcome<T>)
  {
    o.Rejected? && IsTransient(o.error)
  }

  /** What one call of the wrapper does: how it settles, how many times it called
      the operation and how many times it slept. */
  datatype Run<T> = Run(result: Outcome<T>, attempts: nat, waits: nat)
  {
    /** Total time spent sleeping, in milliseconds. */
    function SleptMs(): nat
    {
      waits * RetryDelay
    }
  }

  /** The first attempt at or after `i` that is not a transient failure, or
      `MaxRetries` when every remaining attempt fails transiently. */
  function Settled<T>(op: nat -> Outcome<T>, i: nat): (k: nat)
    requires i <= MaxRetries
    ensures i <= k <= MaxRetries
    ensures forall j :: i <= j < k ==> IsTransientFailure(op(j))
    ensures k < MaxRetries ==> !IsTransientFailure(op(k))
    decreases MaxRetries - i
  {
    if i == MaxRetries || !IsTransientFailure(op(i)) then i else Settled(op, i + 1)
  }

  /** Reference definition of the wrapper: it stops at the first attempt that is
      not a transient failure and settles as that attempt did, sleeping once per
      transient failure before it; if all attempts fail transiently it sleeps
      after each of them and rethrows the last one's error. */
  function RetryRun<T>(op: nat -> Outcome<T>): (r: Run<T>)
    ensures 1 <= r.attempts <= MaxRetries && r.waits <= r.attempts
    ensures r.result == op(r.attempts - 1)
  {
    var k := Settled(op, 0);
    if k < MaxRetries then Run(op(k), k + 1, k)
    else Run(op(MaxRetries - 1), MaxRetries, MaxRetries)
  }

  /** The wrapper as the source writes it: a counted loop that returns the first
      success, sleeps and continues after a transient failure, rethrows any other
      failure at once, and rethrows the last error once the attempts run out. */
  method WithRetry<T>(op: nat -> Outcome<T>) returns (result: Outcome<T>, attempts: nat, waits: nat)
    ensures Run(result, attempts, waits) == RetryRun(op)
  {
    var lastError: Option<Thrown> := None;
    attempts, waits := 0, 0;
    for i := 0 to MaxRetries
      invariant attempts == i && waits == i
      invariant forall j :: 0 <= j < i ==> IsTransientFailure(op(j))
      invariant i > 0 ==> lastError == Some(op(i - 1).error)
    {
      attempts := attempts + 1;
      var outcome := op(i);
      if outcome.Resolved? {
        result := outcome;
        assert Settled(op, 0) == i;
        return;
      }
      lastError := Some(outcome.error);
      if IsTransient(outcome.error) {
        waits := waits + 1;
        continue;
      }
      result := outcome;
      assert Settled(op, 0) == i;
      return;
    }
    result := Rejected(lastError.value);
  }

  /** When attempt `k` is the first that is not a transient failure, the wrapper
      settles as attempt `k` did, after `k + 1` attempts and `k` sleeps. */
  lemma SettlesAt<T>(op: nat -> Outcome<T>, k: nat)
    requires k < MaxRetries
    requires forall j :: 0 <= j < k ==> IsTransientFailure(op(j))
    requires !IsTransientFailure(op(k))
    ensures RetryRun(op) == Run(op(k), k + 1, k)
  {
  }

  /** The first success is returned, and no further attempt is made. */
  lemma FirstSuccessReturned<T>(op: nat -> Outcome<T>, k: nat, v: T)
    requires k < MaxRetries
    requires forall j :: 0 <= j < k ==> IsTransientFailure(op(j))
    requires op(k) == Resolved(v)
    ensures RetryRun(op) == Run(Resolved(v), k + 1, k)
  {
    SettlesAt(op, k);
  }

  /** A failure that is not transient is rethrown at once, without a sleep and
      without a further attempt, on the last attempt too. */
  lemma PermanentFailureRethrown<T>(op: nat -> Outcome<T>, k: nat, e: Thrown)
    requires k < MaxRetries
    requires forall j :: 0 <= j < k ==> IsTransientFailure(op(j))
    requires op(k) == Rejected(e) && !IsTransient(e)
    ensures RetryRun(op) == Run(Rejected(e), k + 1, k)
  {
    SettlesAt(op, k);
  }

  /** When every attempt fails transiently, the wrapper sleeps after each of them
      and rethrows the error of the last attempt. */
  lemma ExhaustedRethrowsLast<T>(op: nat -> Outcome<T>)
    requires forall j :: 0 <= j < MaxRetries ==> IsTransientFailure(op(j))
    ensures RetryRun(op) == Run(op(MaxRetries - 1), MaxRetries, MaxRetries)
    ensures RetryRun(op).result == Rejected(op(MaxRetries - 1).error)
  {
  }

  /** The wrapper succeeds exactly when some attempt succeeds after transient
      failures only, and then returns that attempt's value. */
  lemma SucceedsIff<T>(op: nat -> Outcome<T>, v: T)
    ensures RetryRun(op).result == Resolved(v) <==>
      exists k :: 0 <= k < MaxRetries && op(k) == Resolved(v) &&
        forall j :: 0 <= j < k ==> IsTransientFailure(op(j))
  {
    var s := Settled(op, 0);
    if RetryRun(op).result == Resolved(v) {
      assert s < MaxRetries && op(s) == Resolved(v);
    }
    if exists k :: 0 <= k < MaxRetries && op(k) == Resolved(v) &&
        forall j :: 0 <= j < k ==> IsTransientFailure(op(j)) {
      var k :| 0 <= k < MaxRetries && op(k) == Resolved(v) &&
        forall j :: 0 <= j < k ==> IsTransientFailure(op(j));
      SettlesAt(op, k);
    }
  }

  /** Bounds of one run: between one and `MaxRetries` attempts; one sleep per
      transient failure, so one fewer sleep than attempts unless the run ended on
      a transient failure, which happens only when the attempts ran out. */
  lemma RunBounds<T>(op: nat -> Outcome<T>)
    ensures var r := RetryRun(op);
      && 1 <= r.attempts <= MaxRetries
      && r.waits == (if IsTransientFailure(r.result) then r.attempts else r.attempts - 1)
      && (IsTransientFailure(r.result) ==> r.attempts == MaxRetries)
      && r.SleptMs() <= MaxRetries * RetryDelay
  {
    var s := Settled(op, 0);
    if s == MaxRetries {
      assert IsTransientFailure(op(MaxRetries - 1));
    }
  }

  /** The wrapper observes only the attempts it makes: two operations that settle
      alike on those attempts give the same run, so nothing after the settling
      attempt is ever called. */
  lemma OnlyMadeAttemptsMatter<T>(op: nat -> Outcome<T>, op': nat -> Outcome<T>)
    requires forall j :: 0 <= j < RetryRun(op).attempts ==> op(j) == op'(j)
    ensures RetryRun(op') == RetryRun(op)
  {
    var s := Settled(op, 0);
    if s < MaxRetries {
      assert op(s) == op'(s);
      SettlesAt(op', s);
    } else {
      assert forall j :: 0 <= j < MaxRetries ==> op(j) == op'(j);
      ExhaustedRethrowsLast(op');
    }
  }

  /** An operation that resolves on its first call is called exactly once. */
  lemma NeverRejectingOpRunsOnce<T>(op: nat -> Outcome<T>)
    requires op(0).Resolved?
    ensures RetryRun(op) == Run(op(0), 1, 0)
  {
    SettlesAt(op, 0);
  }

  /** The phrase is matched anywhere in a message, so any text around it still
      marks the failure transient. */
  lemma PhraseAnywhereIsTransient(before: string, after: string)
    ensures IsTransient(Error(before + TransientPhrase + after))
  {
    var msg := before + TransientPhrase + after;
    assert msg[|before|..|before| + |TransientPhrase|] == TransientPhrase;
    assert Strings.OccursAt(msg, TransientPhrase, |before|);
    Strings.IncludesIff(msg, TransientPhrase);
  }
}
