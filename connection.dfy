/**
 * The database connection layer: the `database_retry` decorator, the
 * commit retry loop, the choice between the regular and the tag session
 * pool, and the automatic backups with their retention.
 *
 * An operation that may fail is given as the outcome of each of its calls
 * (`call(k)` is what the k-th call, counting from 0, returns or raises), so
 * that the retry loops can be stated over every possible sequence of
 * failures.  Sleeping is recorded as the list of delays slept, the random
 * jitter is an input in [0, 1], and the backups directory is a map from file
 * name to modification time (in whole seconds).
 */
module Connection {
  import opened Wrappers
  import Text
  import Sorting

  // ------------------------------------------------------------ exceptions

  /** The exception classes the retry decorator tells apart. */
  datatype ExcKind = OperationalError | DatabaseError | IntegrityError | InterfaceError | OtherError

  /** An exception: its class and `str(e)`. */
  datatype Exc = Exc(kind: ExcKind, message: string)

  /** What one call of the wrapped operation does: return a value or raise. */
  datatype Outcome<T> = Returned(value: T) | Raised(exc: Exc)

  /**
   * `raise last_exception` with `last_exception` still `None`, which is
   * what happens when the loop runs zero times.
   */
  const RaiseNone := Exc(OtherError, "TypeError: exceptions must derive from BaseException")

  /** One of the four SQLAlchemy classes the decorator catches and may retry. */
  predicate IsDbError(e: Exc) { e.kind != OtherError }

  /** Substrings that make a database error worth retrying in `database_retry`. */
  const RetryableErrors: seq<string> := [
    "cannot commit transaction - sql statements in progress",
    "cursor needed to be reset",
    "cursor needed to be reset because of commit/rollback",
    "cannot start a transaction within a transaction",
    "database is locked",
    "database table is locked",
    "not an error",
    "cannot rollback - no transaction is active",
    "single-row insert statement",
    "did not produce a new primary key result",
    "error binding parameter",
    "probably unsupported type",
    "sqlite3.operationalerror",
    "sqlite3.integrityerror",
    "sqlite3.interfaceerror",
    "interfaceerror",
    "foreign key constraint failed"
  ]

  /** Substrings that make a failed commit worth retrying in `_commit_with_retry`. */
  const CommitRetryablePatterns: seq<string> := [
    "cannot commit transaction - sql statements in progress",
    "cursor needed to be reset because of commit/rollback",
    "cannot start a transaction within a transaction",
    "database is locked",
    "database table is locked",
    "not an error",
    "cannot rollback - no transaction is active",
    "single-row insert statement",
    "did not produce a new primary key result",
    "error binding parameter",
    "probably unsupported type",
    "sqlite3.operationalerror",
    "sqlite3.integrityerror",
    "sqlite3.interfaceerror",
    "interfaceerror",
    "can't reconnect until invalid transaction is rolled back",
    "pendingerror",
    "pendingrollbackerror"
  ]

  /**
   * The first pattern, in list order, that occurs in `msg`; `None` when no
   * pattern does.
   */
  function FirstMatch(msg: string, patterns: seq<string>): (r: Option<string>)
    ensures r.Some? <==> MatchesAny(msg, patterns)
    ensures r.Some? ==> exists i :: (0 <= i < |patterns| && patterns[i] == r.value
                                     && Text.Contains(msg, r.value)
                                     && forall j :: 0 <= j < i ==> !Text.Contains(msg, patterns[j]))
  {
    if patterns == [] then None
    else if Text.HasSubstring(msg, patterns[0]) then Some(patterns[0])
    else
      var rest := FirstMatch(msg, patterns[1..]);
      assert forall i :: 1 <= i < |patterns| ==> patterns[i] == patterns[1..][i - 1];
      rest
  }

  /** Some pattern occurs in `msg`. */
  ghost predicate MatchesAny(msg: string, patterns: seq<string>)
  {
    exists i :: 0 <= i < |patterns| && Text.Contains(msg, patterns[i])
  }

  /** The pattern search loop: scans the patterns and stops at the first match. */
  method MatchPattern(msg: string, patterns: seq<string>) returns (matched: Option<string>)
    ensures matched == FirstMatch(msg, patterns)
  {
    matched := None;
    var i := 0;
    while i < |patterns|
      invariant 0 <= i <= |patterns|
      invariant FirstMatch(msg, patterns) == FirstMatch(msg, patterns[i..])
    {
      if Text.HasSubstring(msg, patterns[i]) {
        matched := Some(patterns[i]);
        return;
      }
      assert patterns[i..][1..] == patterns[i + 1..];
      i := i + 1;
    }
  }

  /**
   * The decorator retries a database error whose lower-cased message holds
   * one of `patterns` (its own list is `RetryableErrors`).
   */
  ghost predicate RetryableDbBy(e: Exc, patterns: seq<string>)
  {
    IsDbError(e) && MatchesAny(Text.Lower(e.message), patterns)
  }

  /**
   * The commit loop retries any exception whose lower-cased message holds
   * one of `patterns` (its own list is `CommitRetryablePatterns`).
   */
  ghost predicate RetryableCommitBy(e: Exc, patterns: seq<string>)
  {
    MatchesAny(Text.Lower(e.message), patterns)
  }

  // --------------------------------------------------------------- backoff

  function Pow2(n: nat): (r: nat)
    ensures r >= 1
  {
    if n == 0 then 1 else 2 * Pow2(n - 1)
  }

  /** The delay before jitter: `min(base_delay * 2 ** attempt, max_delay)`. */
  function Backoff(baseDelay: real, attempt: nat, maxDelay: real): (d: real)
    ensures d <= maxDelay && d <= baseDelay * Pow2(attempt) as real
    ensures d == maxDelay || d == baseDelay * Pow2(attempt) as real
  {
    if maxDelay < baseDelay * Pow2(attempt) as real then maxDelay else baseDelay * Pow2(attempt) as real
  }

  /** Each further attempt doubles the previous delay, until the cap is reached. */
  lemma BackoffDoubles(baseDelay: real, attempt: nat, maxDelay: real)
    requires 0.0 <= baseDelay && 0.0 <= maxDelay
    ensures Backoff(baseDelay, attempt, maxDelay) <= Backoff(baseDelay, attempt + 1, maxDelay)
    ensures Backoff(baseDelay, attempt + 1, maxDelay) ==
      (if maxDelay < 2.0 * Backoff(baseDelay, attempt, maxDelay) then maxDelay
       else 2.0 * Backoff(baseDelay, attempt, maxDelay))
  {
    var p := baseDelay * Pow2(attempt) as real;
    assert baseDelay * Pow2(attempt + 1) as real == 2.0 * p;
    assert p <= 2.0 * p;
  }

  /** The delay actually slept: the backoff plus `uniform(0, delay * 0.1)`, `u` being the uniform draw in [0, 1]. */
  function Sleep(baseDelay: real, attempt: nat, maxDelay: real, u: real): real
  {
    var d := Backoff(baseDelay, attempt, maxDelay);
    d + u * (d * 0.1)
  }

  /** The jitter adds at most 10% to the backoff. */
  lemma SleepBounds(baseDelay: real, attempt: nat, maxDelay: real, u: real)
    requires 0.0 <= baseDelay && 0.0 <= maxDelay && 0.0 <= u <= 1.0
    ensures Backoff(baseDelay, attempt, maxDelay) <= Sleep(baseDelay, attempt, maxDelay, u)
                                                  <= Backoff(baseDelay, attempt, maxDelay) * 1.1
  {
    var d := Backoff(baseDelay, attempt, maxDelay);
    assert Sleep(baseDelay, attempt, maxDelay, u) == d + u * (d * 0.1);
    BackoffNonNegative(baseDelay, attempt, maxDelay);
    JitterBounds(d, u);
  }

  lemma BackoffNonNegative(baseDelay: real, attempt: nat, maxDelay: real)
    requires 0.0 <= baseDelay && 0.0 <= maxDelay
    ensures 0.0 <= Backoff(baseDelay, attempt, maxDelay)
  {
    var p := Pow2(attempt) as real;
    assert 0.0 <= baseDelay * p;
  }

  /** Adding a fraction `u` in [0, 1] of 10% keeps a non-negative `d` between itself and 110% of it. */
  lemma JitterBounds(d: real, u: real)
    requires 0.0 <= u <= 1.0 && 0.0 <= d
    ensures d <= d + u * (d * 0.1) <= d * 1.1
  {
    var x := d * 0.1;
    assert x - u * x == (1.0 - u) * x;
    assert 0.0 <= (1.0 - u) * x;
    assert 0.0 <= u * x;
  }

  /** The delays slept before attempts 1 .. n, one per retry. */
  function SleepSchedule(baseDelay: real, maxDelay: real, jitter: nat -> real, n: nat): (s: seq<real>)
    ensures |s| == n
  {
    if n == 0 then [] else SleepSchedule(baseDelay, maxDelay, jitter, n - 1) + [Sleep(baseDelay, n - 1, maxDelay, jitter(n - 1))]
  }

  /** The k-th delay is the k-th backoff with its jitter, between the backoff and 110% of it. */
  lemma {:induction false} SleepScheduleAt(baseDelay: real, maxDelay: real, jitter: nat -> real, n: nat, k: nat)
    requires 0.0 <= baseDelay && 0.0 <= maxDelay
    requires forall k :: 0.0 <= jitter(k) <= 1.0
    requires k < n
    ensures SleepSchedule(baseDelay, maxDelay, jitter, n)[k] == Sleep(baseDelay, k, maxDelay, jitter(k))
    ensures Backoff(baseDelay, k, maxDelay) <= SleepSchedule(baseDelay, maxDelay, jitter, n)[k]
                                            <= Backoff(baseDelay, k, maxDelay) * 1.1
  {
    if k < n - 1 {
      SleepScheduleAt(baseDelay, maxDelay, jitter, n - 1, k);
    } else {
      SleepBounds(baseDelay, k, maxDelay, jitter(k));
    }
  }

  // -------------------------------------------------------- database_retry

  /** The result of a retry loop: the outcome passed to the caller and the number of calls made. */
  datatype Run<T> = Run(outcome: Outcome<T>, calls: nat)

  /** `database_retry` from attempt `attempt` on, retrying the database errors that match `patterns`. */
  ghost function RetryFrom<T>(call: nat -> Outcome<T>, maxRetries: int, attempt: nat, patterns: seq<string>)
    : (r: Run<T>)
    ensures attempt < maxRetries ==> attempt < r.calls <= maxRetries && r.outcome == call(r.calls - 1)
    ensures forall k :: attempt <= k < r.calls - 1 ==> call(k).Raised? && RetryableDbBy(call(k).exc, patterns)
    ensures r.calls < maxRetries && r.outcome.Raised? ==> !RetryableDbBy(r.outcome.exc, patterns)
    ensures attempt >= maxRetries ==> r == Run(Raised(RaiseNone), attempt)
    decreases maxRetries - attempt
  {
    if attempt >= maxRetries then Run(Raised(RaiseNone), attempt)
    else match call(attempt)
      case Returned(v) => Run(Returned(v), attempt + 1)
      case Raised(e) =>
        if !RetryableDbBy(e, patterns) || attempt == maxRetries - 1 then Run(Raised(e), attempt + 1)
        else RetryFrom(call, maxRetries, attempt + 1, patterns)
  }

  /**
   * `database_retry(max_retries)` applied to an operation: the operation is
   * called until it returns, raises something not retryable, or has been
   * called `max_retries` times; what the last call did is what the caller
   * sees.
   */
  ghost function Retry<T>(call: nat -> Outcome<T>, maxRetries: int): (r: Run<T>)
    ensures maxRetries <= 0 ==> r == Run(Raised(RaiseNone), 0)
    ensures 0 < maxRetries ==> 1 <= r.calls <= maxRetries && r.outcome == call(r.calls - 1)
    ensures forall k :: 0 <= k < r.calls - 1 ==> call(k).Raised? && RetryableDbBy(call(k).exc, RetryableErrors)
    ensures r.calls < maxRetries && r.outcome.Raised? ==> !RetryableDbBy(r.outcome.exc, RetryableErrors)
  {
    RetryFrom(call, maxRetries, 0, RetryableErrors)
  }

  /** An exception that is not a database error, or a database error with no retryable pattern, ends the loop at once. */
  lemma NotRetryableRaisedAtOnce<T>(call: nat -> Outcome<T>, maxRetries: int)
    requires 0 < maxRetries && call(0).Raised? && !RetryableDbBy(call(0).exc, RetryableErrors)
    ensures Retry(call, maxRetries) == Run(call(0), 1)
  {
  }

  /** A retryable failure before the last attempt hands over to the next attempt. */
  lemma RetryStep<T>(call: nat -> Outcome<T>, maxRetries: int, attempt: nat, patterns: seq<string>)
    requires attempt < maxRetries - 1 && call(attempt).Raised? && RetryableDbBy(call(attempt).exc, patterns)
    ensures RetryFrom(call, maxRetries, attempt, patterns) == RetryFrom(call, maxRetries, attempt + 1, patterns)
  {
  }

  /**
   * The decision after one call: try again only after a database error
   * whose message matches, and never after the last attempt.
   */
  method ShouldRetry<T>(o: Outcome<T>, attempt: nat, maxRetries: int, patterns: seq<string>) returns (again: bool)
    requires attempt < maxRetries
    ensures again <==> o.Raised? && RetryableDbBy(o.exc, patterns) && attempt < maxRetries - 1
  {
    if o.Returned? || !IsDbError(o.exc) {
      return false;
    }
    var matched := MatchPattern(Text.Lower(o.exc.message), patterns);
    return matched.Some? && attempt != maxRetries - 1;
  }

  /**
   * One attempt: call the operation and decide.  When the loop stops here,
   * what this call did is the loop's result; otherwise the loop goes on as
   * it would have from the next attempt.
   */
  method TryOnce<T>(call: nat -> Outcome<T>, attempt: nat, maxRetries: int, patterns: seq<string>,
                    baseDelay: real, maxDelay: real, jitter: nat -> real, sleeps: seq<real>)
    returns (again: bool, o: Outcome<T>, slept: seq<real>)
    requires attempt < maxRetries
    requires sleeps == SleepSchedule(baseDelay, maxDelay, jitter, attempt)
    ensures !again ==> RetryFrom(call, maxRetries, attempt, patterns) == Run(o, attempt + 1) && slept == sleeps
    ensures again ==> attempt + 1 < maxRetries
    ensures again ==> RetryFrom(call, maxRetries, attempt, patterns) == RetryFrom(call, maxRetries, attempt + 1, patterns)
    ensures again ==> slept == SleepSchedule(baseDelay, maxDelay, jitter, attempt + 1)
  {
    o := call(attempt);
    again := ShouldRetry(o, attempt, maxRetries, patterns);
    slept := sleeps;
    if again {
      RetryStep(call, maxRetries, attempt, patterns);
      slept := sleeps + [Sleep(baseDelay, attempt, maxDelay, jitter(attempt))];
    }
  }

  /**
   * The decorator's loop over the attempts, for a given pattern list.
   * Returns what the caller sees, how many calls were made and the delays
   * slept between them.
   */
  method RetryLoop<T>(call: nat -> Outcome<T>, maxRetries: int, baseDelay: real, maxDelay: real,
                      jitter: nat -> real, patterns: seq<string>)
    returns (r: Outcome<T>, calls: nat, sleeps: seq<real>)
    ensures Run(r, calls) == RetryFrom(call, maxRetries, 0, patterns)
    ensures sleeps == SleepSchedule(baseDelay, maxDelay, jitter, if calls == 0 then 0 else calls - 1)
  {
    var attempt: nat := 0;
    sleeps := [];
    while attempt < maxRetries
      invariant attempt == 0 || attempt < maxRetries
      invariant RetryFrom(call, maxRetries, attempt, patterns) == RetryFrom(call, maxRetries, 0, patterns)
      invariant sleeps == SleepSchedule(baseDelay, maxDelay, jitter, attempt)
    {
      var again, o;
      again, o, sleeps := TryOnce(call, attempt, maxRetries, patterns, baseDelay, maxDelay, jitter, sleeps);
      if !again {
        return o, attempt + 1, sleeps;
      }
      attempt := attempt + 1;
    }
    return Raised(RaiseNone), 0, sleeps;
  }

  /** The `database_retry(max_retries, base_delay, max_delay)` wrapper around `call`. */
  method DatabaseRetry<T>(call: nat -> Outcome<T>, maxRetries: int, baseDelay: real, maxDelay: real,
                          jitter: nat -> real)
    returns (r: Outcome<T>, calls: nat, sleeps: seq<real>)
    ensures Run(r, calls) == Retry(call, maxRetries)
    ensures sleeps == SleepSchedule(baseDelay, maxDelay, jitter, if calls == 0 then 0 else calls - 1)
  {
    r, calls, sleeps := RetryLoop(call, maxRetries, baseDelay, maxDelay, jitter, RetryableErrors);
  }

  // ---------------------------------------------------- _commit_with_retry

  /**
   * The result of the commit loop: the exception that escapes (`None` when
   * the commit went through), and how many commits and rollbacks were tried.
   */
  datatype CommitRun = CommitRun(raised: Option<Exc>, commits: nat, rollbacks: nat)

  /**
   * `_commit_with_retry` from attempt `attempt` on; `commit(k)` and
   * `rollback(k)` are the exceptions the k-th commit and rollback raise.
   */
  ghost function CommitFrom(commit: nat -> Option<Exc>, rollback: nat -> Option<Exc>, maxRetries: int, attempt: nat,
                            patterns: seq<string>)
    : (r: CommitRun)
    ensures attempt < maxRetries ==> attempt < r.commits <= maxRetries
    ensures attempt < maxRetries ==>
      r.rollbacks == r.commits - 1 || (r.rollbacks == r.commits && r.raised == rollback(r.commits - 1))
    ensures attempt < maxRetries && r.rollbacks < r.commits ==> r.raised == commit(r.commits - 1)
    ensures forall k :: attempt <= k < r.rollbacks ==> commit(k).Some? && RetryableCommitBy(commit(k).value, patterns)
    ensures forall k :: attempt <= k < r.commits - 1 ==> rollback(k).None?
    ensures r.rollbacks < r.commits < maxRetries && r.raised.Some? ==> !RetryableCommitBy(r.raised.value, patterns)
    ensures attempt >= maxRetries ==> r == CommitRun(Some(RaiseNone), attempt, attempt)
    decreases maxRetries - attempt
  {
    if attempt >= maxRetries then CommitRun(Some(RaiseNone), attempt, attempt)
    else match commit(attempt)
      case None => CommitRun(None, attempt + 1, attempt)
      case Some(e) =>
        if !RetryableCommitBy(e, patterns) || attempt == maxRetries - 1 then CommitRun(Some(e), attempt + 1, attempt)
        else if rollback(attempt).Some? then CommitRun(rollback(attempt), attempt + 1, attempt + 1)
        else CommitFrom(commit, rollback, maxRetries, attempt + 1, patterns)
  }

  /**
   * `_commit_with_retry(max_retries)`: the commit is tried at most
   * `max_retries` times; a rollback comes between two commits and only after
   * a retryable failure; a failed rollback ends the loop with its own
   * exception; otherwise what the last commit did is what the caller sees.
   */
  ghost function CommitRetry(commit: nat -> Option<Exc>, rollback: nat -> Option<Exc>, maxRetries: int): (r: CommitRun)
    ensures maxRetries <= 0 ==> r == CommitRun(Some(RaiseNone), 0, 0)
    ensures 0 < maxRetries ==> 1 <= r.commits <= maxRetries
    ensures 0 < maxRetries ==>
      r.rollbacks == r.commits - 1 || (r.rollbacks == r.commits && r.raised == rollback(r.commits - 1))
    ensures 0 < maxRetries && r.rollbacks < r.commits ==> r.raised == commit(r.commits - 1)
    ensures forall k :: 0 <= k < r.rollbacks ==>
      commit(k).Some? && RetryableCommitBy(commit(k).value, CommitRetryablePatterns)
    ensures forall k :: 0 <= k < r.commits - 1 ==> rollback(k).None?
    ensures r.rollbacks < r.commits < maxRetries && r.raised.Some? ==>
      !RetryableCommitBy(r.raised.value, CommitRetryablePatterns)
  {
    CommitFrom(commit, rollback, maxRetries, 0, CommitRetryablePatterns)
  }

  /** A retryable commit failure before the last attempt, rolled back cleanly, hands over to the next attempt. */
  lemma CommitStep(commit: nat -> Option<Exc>, rollback: nat -> Option<Exc>, maxRetries: int, attempt: nat,
                   patterns: seq<string>)
    requires attempt < maxRetries - 1 && commit(attempt).Some? && RetryableCommitBy(commit(attempt).value, patterns)
    requires rollback(attempt).None?
    ensures CommitFrom(commit, rollback, maxRetries, attempt, patterns)
      == CommitFrom(commit, rollback, maxRetries, attempt + 1, patterns)
  {
  }

  /** The decision after a failed commit: retry only a matching failure, and never after the last attempt. */
  method ShouldRetryCommit(failure: Exc, attempt: nat, maxRetries: int, patterns: seq<string>) returns (again: bool)
    requires attempt < maxRetries
    ensures again <==> RetryableCommitBy(failure, patterns) && attempt < maxRetries - 1
  {
    var matched := MatchPattern(Text.Lower(failure.message), patterns);
    return matched.Some? && attempt != maxRetries - 1;
  }

  /**
   * One commit attempt: commit, decide, and roll back before a retry.  When
   * the loop stops here, `raised` and `rolledBack` are its result;
   * otherwise it goes on as it would have from the next attempt.
   */
  method CommitOnce(commit: nat -> Option<Exc>, rollback: nat -> Option<Exc>, attempt: nat, maxRetries: int,
                    patterns: seq<string>)
    returns (again: bool, raised: Option<Exc>, rolledBack: bool)
    requires attempt < maxRetries
    ensures !again ==> (CommitFrom(commit, rollback, maxRetries, attempt, patterns)
                        == CommitRun(raised, attempt + 1, if rolledBack then attempt + 1 else attempt))
    ensures again ==> attempt + 1 < maxRetries
    ensures again ==> (CommitFrom(commit, rollback, maxRetries, attempt, patterns)
                       == CommitFrom(commit, rollback, maxRetries, attempt + 1, patterns))
  {
    raised := commit(attempt);
    rolledBack := false;
    if raised.None? {
      return false, raised, rolledBack;
    }
    again := ShouldRetryCommit(raised.value, attempt, maxRetries, patterns);
    if !again {
      return;
    }
    var rollbackFailure := rollback(attempt);
    if rollbackFailure.Some? {
      return false, rollbackFailure, true;
    }
    CommitStep(commit, rollback, maxRetries, attempt, patterns);
  }

  /** The commit loop over the attempts, for a given pattern list. */
  method CommitLoop(commit: nat -> Option<Exc>, rollback: nat -> Option<Exc>, maxRetries: int,
                    baseDelay: real, jitter: nat -> real, patterns: seq<string>)
    returns (raised: Option<Exc>, commits: nat, rollbacks: nat, sleeps: seq<real>)
    ensures CommitRun(raised, commits, rollbacks) == CommitFrom(commit, rollback, maxRetries, 0, patterns)
    ensures sleeps == SleepSchedule(baseDelay, 2.0, jitter, if commits == 0 then 0 else commits - 1)
  {
    var attempt: nat := 0;
    sleeps := [];
    while attempt < maxRetries
      invariant attempt == 0 || attempt < maxRetries
      invariant CommitFrom(commit, rollback, maxRetries, attempt, patterns)
        == CommitFrom(commit, rollback, maxRetries, 0, patterns)
      invariant sleeps == SleepSchedule(baseDelay, 2.0, jitter, attempt)
    {
      var again, failure, rolledBack := CommitOnce(commit, rollback, attempt, maxRetries, patterns);
      if !again {
        return failure, attempt + 1, if rolledBack then attempt + 1 else attempt, sleeps;
      }
      sleeps := sleeps + [Sleep(baseDelay, attempt, 2.0, jitter(attempt))];
      attempt := attempt + 1;
    }
    return Some(RaiseNone), 0, 0, sleeps;
  }

  /**
   * `_commit_with_retry(session, session_id, max_retries, base_delay)`: each
   * retry is preceded by a rollback, a rollback that fails ends the loop
   * with its own exception, and the commit is tried at most `max_retries`
   * times.
   */
  method CommitWithRetry(commit: nat -> Option<Exc>, rollback: nat -> Option<Exc>, maxRetries: int,
                         baseDelay: real, jitter: nat -> real)
    returns (raised: Option<Exc>, commits: nat, rollbacks: nat, sleeps: seq<real>)
    ensures CommitRun(raised, commits, rollbacks) == CommitRetry(commit, rollback, maxRetries)
    ensures sleeps == SleepSchedule(baseDelay, 2.0, jitter, if commits == 0 then 0 else commits - 1)
  {
    raised, commits, rollbacks, sleeps := CommitLoop(commit, rollback, maxRetries, baseDelay, jitter,
                                                     CommitRetryablePatterns);
  }

  // ---------------------------------------------- the swallowed-error slip

  /**
   * The thumbnail and metadata stores wrap their whole body in
   * `try: ... except Exception: log`, so whatever the body raises, the
   * decorated call returns normally.
   */
  function Swallowing(body: nat -> Outcome<()>): (call: nat -> Outcome<()>)
    ensures forall k :: call(k) == Returned(())
  {
    k => Returned(())
  }

  const Locked := Exc(OperationalError, "database is locked")

  /** A store whose first write meets a locked database and whose second succeeds. */
  function LockedOnce(k: nat): Outcome<()>
  {
    if k == 0 then Raised(Locked) else Returned(())
  }

  /**
   * As written: the decorator sees the store succeed on its first call, so a
   * write lost to a locked database is never retried.
   */
  lemma SwallowedStoreIsNotRetried()
    ensures LockedOnce(0).Raised? && RetryableDbBy(LockedOnce(0).exc, RetryableErrors)
    ensures Retry(Swallowing(LockedOnce), 5) == Run(Returned(()), 1)
  {
    LockedIsRetryable();
  }

  /** Corrected: when the store lets the exception propagate, the decorator retries and the second write succeeds. */
  lemma PropagatedStoreIsRetried()
    ensures Retry(LockedOnce, 5) == Run(Returned(()), 2)
  {
    LockedIsRetryable();
    RetriedOnce(LockedOnce, 5, RetryableErrors);
  }

  /** A call that fails retryably once and then returns is answered by its second call. */
  lemma RetriedOnce<T>(call: nat -> Outcome<T>, maxRetries: int, patterns: seq<string>)
    requires 2 <= maxRetries
    requires call(0).Raised? && RetryableDbBy(call(0).exc, patterns) && call(1).Returned?
    ensures RetryFrom(call, maxRetries, 0, patterns) == Run(call(1), 2)
  {
    RetryStep(call, maxRetries, 0, patterns);
  }

  /** A locked database is one of the retryable errors. */
  lemma LockedIsRetryable()
    ensures RetryableDbBy(Locked, RetryableErrors)
  {
    LockedLowerCase();
    LockedListed();
    SelfMatch(Locked.message, RetryableErrors, 4);
  }

  lemma LockedLowerCase()
    ensures Text.Lower(Locked.message) == Locked.message
  {
    LowerOfLowerCase(Locked.message);
  }

  lemma LockedListed()
    ensures RetryableErrors[4] == Locked.message
  {
  }

  lemma SelfMatch(msg: string, patterns: seq<string>, i: nat)
    requires i < |patterns| && patterns[i] == msg
    ensures MatchesAny(msg, patterns)
  {
    assert Text.OccursAt(msg, msg, 0);
  }

  /** A string without upper-case ASCII letters is its own lower-case form. */
  lemma {:induction false} LowerOfLowerCase(s: string)
    requires forall i :: 0 <= i < |s| ==> !('A' <= s[i] <= 'Z')
    ensures Text.Lower(s) == s
  {
    if s != [] {
      LowerOfLowerCase(s[1..]);
    }
  }

  // ----------------------------------------------------------- the manager

  /** What `get_session` raises before `initialize_database` has run. */
  const NotInitializedError := "RuntimeError: Database not initialized. Call initialize_database() first."

  /** What `get_session` raises when no slot of the pool frees up within the five-second wait. */
  function AcquireTimeout(pool: string): string
  {
    "RuntimeError: Failed to acquire " + pool + " database session within 5.0s timeout."
  }

  /** A session pool: its name and how many sessions it admits at once. */
  datatype Pool = RegularPool | TagPool

  /** Tag operations get a pool of their own that admits eight sessions. */
  const TagPoolSize := 8

  /** A backup file of the automatic backups: `stockshot_browser_*.db`. */
  predicate IsBackupName(name: string)
  {
    |name| >= 21 && name[..18] == "stockshot_browser_" && name[|name| - 3..] == ".db"
  }

  /** The name of the backup made at the time rendered as `stamp` (`%Y%m%d_%H%M%S`). */
  function BackupName(stamp: string): (name: string)
    ensures IsBackupName(name)
  {
    var name := "stockshot_browser_" + stamp + ".db";
    assert name[..18] == "stockshot_browser_";
    assert name[|name| - 3..] == ".db";
    name
  }

  /** The backup files in a directory. */
  function BackupFiles(dir: map<string, int>): set<string>
  {
    set n | n in dir && IsBackupName(n)
  }

  /** `glob` lists each backup file of the directory exactly once, in some order. */
  predicate IsListing(dir: map<string, int>, listing: seq<string>)
  {
    (forall i, j :: 0 <= i < j < |listing| ==> listing[i] != listing[j])
    && (forall n :: n in listing ==> n in dir && IsBackupName(n))
    && (forall n :: n in dir && IsBackupName(n) ==> n in listing)
  }

  /** The newest modification time among the listed backups, `None` when there is none. */
  function LatestMtime(dir: map<string, int>, listing: seq<string>): (r: Option<int>)
    requires forall n :: n in listing ==> n in dir
    ensures r.None? <==> listing == []
    ensures r.Some? ==> exists n :: n in listing && dir[n] == r.value
    ensures r.Some? ==> forall n :: n in listing ==> dir[n] <= r.value
  {
    if listing == [] then None
    else
      var rest := LatestMtime(dir, listing[1..]);
      if rest.None? || dir[listing[0]] >= rest.value then Some(dir[listing[0]]) else rest
  }

  /** The backups sorted by modification time, newest first, ties in listing order. */
  function NewestFirst(dir: map<string, int>, listing: seq<string>): (r: seq<string>)
    ensures multiset(r) == multiset(listing)
    ensures forall i, j :: 0 <= i < j < |r| && r[i] in dir && r[j] in dir ==> dir[r[i]] >= dir[r[j]]
  {
    var key := (n: string) => if n in dir then -dir[n] else 0;
    var r := Sorting.SortByInt(listing, key);
    assert forall i, j :: 0 <= i < j < |r| ==> key(r[i]) <= key(r[j]);
    r
  }

  /** Sorting lists the same names, as many of them, and none twice when the listing had none twice. */
  lemma NewestFirstSameNames(dir: map<string, int>, listing: seq<string>)
    ensures |NewestFirst(dir, listing)| == |listing|
    ensures forall n :: n in NewestFirst(dir, listing) <==> n in listing
    ensures (forall i, j :: 0 <= i < j < |listing| ==> listing[i] != listing[j])
      ==> forall p, q :: 0 <= p < q < |NewestFirst(dir, listing)| ==> NewestFirst(dir, listing)[p] != NewestFirst(dir, listing)[q]
  {
    var ordered := NewestFirst(dir, listing);
    assert |ordered| == |listing| by {
      assert |multiset(ordered)| == |multiset(listing)|;
    }
    forall n ensures n in ordered <==> n in listing {
      assert n in ordered <==> n in multiset(ordered);
    }
    if forall i, j :: 0 <= i < j < |listing| ==> listing[i] != listing[j] {
      forall p, q | 0 <= p < q < |ordered| ensures ordered[p] != ordered[q] {
        if ordered[p] == ordered[q] {
          TwiceCounted(ordered, p, q);
          DistinctCount(listing, ordered[p]);
          assert false;
        }
      }
    }
  }

  /** A name at two positions occurs at least twice in the multiset. */
  lemma TwiceCounted(s: seq<string>, p: nat, q: nat)
    requires p < q < |s| && s[p] == s[q]
    ensures multiset(s)[s[p]] >= 2
  {
    assert s == s[..p] + [s[p]] + s[p + 1..q] + [s[q]] + s[q + 1..];
  }

  /** Where Python's `xs[start:]` begins, for a negative `start` too. */
  function SliceStart(start: int, length: nat): (i: nat)
    ensures i <= length
    ensures 0 <= start ==> i == if start < length then start else length
  {
    if start >= 0 then (if start < length then start else length)
    else if length + start >= 0 then length + start else 0
  }

  /** The backups `_cleanup_old_backups` keeps: the first `max_backups` of the newest-first order. */
  function Kept(dir: map<string, int>, listing: seq<string>, maxBackups: int): seq<string>
  {
    var ordered := NewestFirst(dir, listing);
    ordered[..SliceStart(maxBackups, |ordered|)]
  }

  /** The backups it tries to delete: the rest. */
  function Doomed(dir: map<string, int>, listing: seq<string>, maxBackups: int): seq<string>
  {
    var ordered := NewestFirst(dir, listing);
    ordered[SliceStart(maxBackups, |ordered|)..]
  }

  /** The names among `doomed` whose deletion succeeds. */
  function Unlinked(doomed: seq<string>, unlinkOk: string -> bool): set<string>
  {
    set n | n in doomed && unlinkOk(n)
  }

  /** The directory after the cleanup: the doomed files whose deletion succeeds are gone. */
  function AfterCleanup(dir: map<string, int>, listing: seq<string>, maxBackups: int,
                        unlinkOk: string -> bool): map<string, int>
  {
    dir - Unlinked(Doomed(dir, listing, maxBackups), unlinkOk)
  }

  lemma NewestFirstSplit(dir: map<string, int>, listing: seq<string>, maxBackups: int)
    ensures NewestFirst(dir, listing) == Kept(dir, listing, maxBackups) + Doomed(dir, listing, maxBackups)
  {
  }

  /** Retention keeps `min(found, max_backups)` backups; a negative bound counts from the end, as Python slices do. */
  lemma KeptCount(dir: map<string, int>, listing: seq<string>, maxBackups: int)
    ensures 0 <= maxBackups ==>
      |Kept(dir, listing, maxBackups)| == if maxBackups < |listing| then maxBackups else |listing|
    ensures maxBackups < 0 ==>
      |Kept(dir, listing, maxBackups)| == if |listing| + maxBackups < 0 then 0 else |listing| + maxBackups
  {
    NewestFirstSameNames(dir, listing);
  }

  /** No kept backup is older than a deleted one. */
  lemma KeptAreNewest(dir: map<string, int>, listing: seq<string>, maxBackups: int)
    ensures forall a, b ::
              a in Kept(dir, listing, maxBackups) && b in Doomed(dir, listing, maxBackups) && a in dir && b in dir
              ==> dir[a] >= dir[b]
  {
    var ordered := NewestFirst(dir, listing);
    var i := SliceStart(maxBackups, |ordered|);
    var kept, doomed := ordered[..i], ordered[i..];
    forall a, b | a in kept && b in doomed && a in dir && b in dir ensures dir[a] >= dir[b] {
      var p :| 0 <= p < |kept| && kept[p] == a;
      var q :| 0 <= q < |doomed| && doomed[q] == b;
      assert ordered[p] == a && ordered[i + q] == b;
    }
  }

  /** A listed backup is either kept or doomed, never both. */
  lemma KeptOrDoomed(dir: map<string, int>, listing: seq<string>, maxBackups: int, n: string)
    requires IsListing(dir, listing)
    ensures n in listing <==> n in Kept(dir, listing, maxBackups) || n in Doomed(dir, listing, maxBackups)
    ensures !(n in Kept(dir, listing, maxBackups) && n in Doomed(dir, listing, maxBackups))
  {
    var ordered := NewestFirst(dir, listing);
    NewestFirstSameNames(dir, listing);
    SliceMembership(ordered, SliceStart(maxBackups, |ordered|), n);
  }

  /** Cutting a sequence without repeats at `i` puts each of its names on exactly one side. */
  lemma SliceMembership(s: seq<string>, i: nat, n: string)
    requires i <= |s|
    requires forall p, q :: 0 <= p < q < |s| ==> s[p] != s[q]
    ensures n in s <==> n in s[..i] || n in s[i..]
    ensures !(n in s[..i] && n in s[i..])
  {
    assert s == s[..i] + s[i..];
  }

  /**
   * Retention: with every deletion succeeding, the backups left are exactly
   * the kept ones, and every file that is not a backup is untouched.
   */
  lemma CleanupKeepsNewest(dir: map<string, int>, listing: seq<string>, maxBackups: int,
                           unlinkOk: string -> bool)
    requires IsListing(dir, listing)
    requires forall n :: unlinkOk(n)
    ensures BackupFiles(AfterCleanup(dir, listing, maxBackups, unlinkOk)) == set n | n in Kept(dir, listing, maxBackups)
    ensures forall n :: n in dir && !IsBackupName(n) ==> n in AfterCleanup(dir, listing, maxBackups, unlinkOk)
  {
    var after := AfterCleanup(dir, listing, maxBackups, unlinkOk);
    forall n ensures n in BackupFiles(after) <==> n in Kept(dir, listing, maxBackups) {
      KeptOrDoomed(dir, listing, maxBackups, n);
    }
    forall n | n in dir && !IsBackupName(n) ensures n in after {
      KeptOrDoomed(dir, listing, maxBackups, n);
    }
  }

  /** One more deletion attempt adds its name to the deleted ones exactly when it succeeds. */
  lemma UnlinkedStep(doomed: seq<string>, i: nat, unlinkOk: string -> bool)
    requires i < |doomed|
    ensures Unlinked(doomed[..i + 1], unlinkOk)
      == Unlinked(doomed[..i], unlinkOk) + (if unlinkOk(doomed[i]) then {doomed[i]} else {})
  {
    assert doomed[..i + 1] == doomed[..i] + [doomed[i]];
  }

  /** A name listed once occurs once in the multiset of the listing. */
  lemma {:induction false} DistinctCount(listing: seq<string>, n: string)
    requires forall i, j :: 0 <= i < j < |listing| ==> listing[i] != listing[j]
    ensures multiset(listing)[n] <= 1
  {
    if listing != [] {
      assert listing == [listing[0]] + listing[1..];
      DistinctCount(listing[1..], n);
      if listing[0] == n {
        assert n !in listing[1..];
      }
    }
  }

  /** The backup-and-retain step once a backup is due: copy the database in, then clean up. */
  function WithBackup(dir: map<string, int>, stamp: string, copiedMtime: int, listingAfter: seq<string>,
                      maxBackups: int, unlinkOk: string -> bool): map<string, int>
  {
    AfterCleanup(dir[BackupName(stamp) := copiedMtime], listingAfter, maxBackups, unlinkOk)
  }

  /** A backup is due when there is none yet, or the newest is at least the interval old. */
  predicate BackupDue(dir: map<string, int>, listing: seq<string>, now: int, intervalHours: int)
    requires forall n :: n in listing ==> n in dir
  {
    var latest := LatestMtime(dir, listing);
    latest.None? || now - latest.value >= intervalHours * 3600
  }

  /**
   * As written, `shutil.copy2` gives the new backup the database file's own
   * modification time, so a database left unchanged for longer than the
   * interval makes every later check back it up again: two checks a minute
   * apart both copy it.
   */
  lemma CopiedMtimeRepeatsBackups()
    ensures var dir0: map<string, int> := map[];
            var dir1 := WithBackup(dir0, "20240103_000000", 0, [BackupName("20240103_000000")], 7, _ => true);
            BackupDue(dir0, [], 172800, 24)
            && BackupName("20240103_000000") in dir1
            && BackupDue(dir1, [BackupName("20240103_000000")], 172860, 24)
  {
    var name := BackupName("20240103_000000");
    var copied := map[name := 0];
    assert IsListing(copied, [name]);
    CleanupKeepsNewest(copied, [name], 7, _ => true);
    assert Kept(copied, [name], 7) == [name];
  }

  /**
   * Corrected: the new backup carries the time it was made, so right after a
   * backup no other is made before the interval has passed.
   */
  lemma {:induction false} FreshBackupIsRecent(dir: map<string, int>, stamp: string, now: int, listingAfter: seq<string>,
                                             maxBackups: int, unlinkOk: string -> bool, later: int, intervalHours: int)
    requires forall n :: n in dir ==> dir[n] <= now
    requires var copied := dir[BackupName(stamp) := now];
      IsListing(copied, listingAfter)
    requires BackupName(stamp) in Kept(dir[BackupName(stamp) := now], listingAfter, maxBackups)
    requires now <= later < now + intervalHours * 3600
    ensures var after := WithBackup(dir, stamp, now, listingAfter, maxBackups, unlinkOk);
      forall listing | IsListing(after, listing) :: !BackupDue(after, listing, later, intervalHours)
  {
    var copied := dir[BackupName(stamp) := now];
    var after := WithBackup(dir, stamp, now, listingAfter, maxBackups, unlinkOk);
    var name := BackupName(stamp);
    assert name !in Doomed(copied, listingAfter, maxBackups) by {
      KeptOrDoomed(copied, listingAfter, maxBackups, name);
    }
    forall listing | IsListing(after, listing) ensures !BackupDue(after, listing, later, intervalHours) {
      assert name in after && IsBackupName(name);
      assert name in listing;
      var latest := LatestMtime(after, listing);
      assert after[name] == now;
      assert latest.Some? && latest.value >= now;
    }
  }

  /**
   * `DatabaseManager`: the session pools and the automatic backup settings.
   * Engines, sessions, pragmas and table creation are not part of this model;
   * `initialized` stands for the session factory having been created.
   */
  class DatabaseManager {
    const databasePath: string
    const maxConcurrentSessions: nat
    var initialized: bool
    var regularFree: int
    var tagFree: int
    var backupEnabled: bool
    var backupIntervalHours: int
    var maxBackups: int

    constructor(databasePath: string, maxConcurrentSessions: nat)
      ensures this.databasePath == databasePath && this.maxConcurrentSessions == maxConcurrentSessions
      ensures !initialized && regularFree == maxConcurrentSessions && tagFree == TagPoolSize
      ensures !backupEnabled && backupIntervalHours == 24 && maxBackups == 7
    {
      this.databasePath := databasePath;
      this.maxConcurrentSessions := maxConcurrentSessions;
      initialized := false;
      regularFree := maxConcurrentSessions;
      tagFree := TagPoolSize;
      backupEnabled := false;
      backupIntervalHours := 24;
      maxBackups := 7;
    }

    /**
     * `initialize_database`: the session factory exists once the engine is
     * configured, even when the connection test or the migrations then fail.
     */
    method InitializeDatabase(connectionOk: bool, migrationsOk: bool) returns (r: Result<()>)
      modifies this`initialized
      ensures initialized
      ensures r.Ok? <==> connectionOk && migrationsOk
    {
      initialized := true;
      if !connectionOk {
        return Err("Database connection test failed");
      }
      if !migrationsOk {
        return Err("migration failed");
      }
      return Ok(());
    }

    /** The pool `get_session(for_tags)` draws from. */
    function PoolFor(forTags: bool): Pool
    {
      if forTags then TagPool else RegularPool
    }

    function Free(p: Pool): int
      reads this`regularFree, this`tagFree
    {
      if p == TagPool then tagFree else regularFree
    }

    /**
     * The start of `get_session`: not initialized raises; otherwise a slot is
     * taken from the pool chosen by `for_tags`, and a pool with no free slot
     * fails as the timed-out wait does.  The other pool is untouched.
     */
    method AcquireSession(forTags: bool) returns (r: Result<Pool>)
      modifies this`regularFree, this`tagFree
      ensures !initialized ==> r.Err? && regularFree == old(regularFree) && tagFree == old(tagFree)
      ensures initialized && old(Free(PoolFor(forTags))) <= 0 ==>
        r.Err? && regularFree == old(regularFree) && tagFree == old(tagFree)
      ensures initialized && old(Free(PoolFor(forTags))) > 0 ==>
        r == Ok(PoolFor(forTags)) && Free(r.value) == old(Free(r.value)) - 1
      ensures Free(PoolFor(!forTags)) == old(Free(PoolFor(!forTags)))
    {
      if !initialized {
        return Err(NotInitializedError);
      }
      if forTags {
        if tagFree <= 0 {
          return Err(AcquireTimeout("tag"));
        }
        tagFree := tagFree - 1;
        return Ok(TagPool);
      } else {
        if regularFree <= 0 {
          return Err(AcquireTimeout("regular"));
        }
        regularFree := regularFree - 1;
        return Ok(RegularPool);
      }
    }

    /** The `finally` of `get_session`: the slot goes back to the pool it came from. */
    method ReleaseSession(p: Pool)
      modifies this`regularFree, this`tagFree
      ensures Free(p) == old(Free(p)) + 1
      ensures p == TagPool ==> regularFree == old(regularFree)
      ensures p == RegularPool ==> tagFree == old(tagFree)
    {
      if p == TagPool {
        tagFree := tagFree + 1;
      } else {
        regularFree := regularFree + 1;
      }
    }

    /**
     * `_cleanup_old_backups`: deletes every backup past the first
     * `max_backups` of the newest-first order; a deletion that fails is
     * logged and the file stays.
     */
    method CleanupOldBackups(dir: map<string, int>, listing: seq<string>, unlinkOk: string -> bool)
      returns (after: map<string, int>)
      ensures after == AfterCleanup(dir, listing, maxBackups, unlinkOk)
    {
      var doomed := Doomed(dir, listing, maxBackups);
      after := dir;
      var i := 0;
      while i < |doomed|
        invariant 0 <= i <= |doomed|
        invariant after == dir - Unlinked(doomed[..i], unlinkOk)
      {
        UnlinkedStep(doomed, i, unlinkOk);
        if unlinkOk(doomed[i]) {
          after := after - {doomed[i]};
        }
        i := i + 1;
      }
      assert doomed[..i] == doomed;
    }

    /**
     * `_check_and_backup`, with the new backup stamped with the time it is
     * made: nothing happens when backups are off, the database file is
     * missing, or the newest backup is younger than the interval; a failed
     * copy is logged and leaves the directory as it was; otherwise the
     * backup is added and the old ones are cleaned up.
     */
    method CheckAndBackup(dbExists: bool, dir: map<string, int>, listing: seq<string>, now: int, stamp: string,
                          copyOk: bool, listingAfter: seq<string>, unlinkOk: string -> bool)
      returns (after: map<string, int>)
      requires forall n :: n in listing ==> n in dir
      ensures !backupEnabled || !dbExists || !BackupDue(dir, listing, now, backupIntervalHours) || !copyOk
        ==> after == dir
      ensures backupEnabled && dbExists && BackupDue(dir, listing, now, backupIntervalHours) && copyOk
        ==> after == WithBackup(dir, stamp, now, listingAfter, maxBackups, unlinkOk)
    {
      if !backupEnabled || !dbExists {
        return dir;
      }
      var latest := LatestMtime(dir, listing);
      if latest.Some? && now - latest.value < backupIntervalHours * 3600 {
        return dir;
      }
      if !copyOk {
        return dir;
      }
      var copied := dir[BackupName(stamp) := now];
      after := CleanupOldBackups(copied, listingAfter, unlinkOk);
    }

    /** `setup_auto_backup`: turns backups on with the given settings and checks at once. */
    method SetupAutoBackup(intervalHours: int, maxBackups: int, dbExists: bool, dir: map<string, int>,
                           listing: seq<string>, now: int, stamp: string, copyOk: bool,
                           listingAfter: seq<string>, unlinkOk: string -> bool)
      returns (after: map<string, int>)
      requires forall n :: n in listing ==> n in dir
      modifies this`backupEnabled, this`backupIntervalHours, this`maxBackups
      ensures backupEnabled && backupIntervalHours == intervalHours && this.maxBackups == maxBackups
      ensures !dbExists || !BackupDue(dir, listing, now, intervalHours) || !copyOk ==> after == dir
      ensures dbExists && BackupDue(dir, listing, now, intervalHours) && copyOk
        ==> after == WithBackup(dir, stamp, now, listingAfter, maxBackups, unlinkOk)
    {
      backupEnabled := true;
      backupIntervalHours := intervalHours;
      this.maxBackups := maxBackups;
      after := CheckAndBackup(dbExists, dir, listing, now, stamp, copyOk, listingAfter, unlinkOk);
    }
  }
}
