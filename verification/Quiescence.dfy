/**
  The retry loop of `read_bytes_after_quiescence` in benchmarks/harness/workspace_io.py, under an
  attempt cap and a deadline. The reader, the error classification and the clock are the environment.
 */
module Quiescence {

  datatype Classification = TransientSharingOrLock | Nonexistent | PathType | PermanentAccessDenied | FilesystemError

  datatype Outcome = Content(data: seq<nat>) | NotBytes | OsError(kind: Classification)

  /** One attempt: what the read gave, and the clock at the deadline check and before the sleep. */
  datatype Attempt = Attempt(outcome: Outcome, check: real, beforeSleep: real)

  /** Attempts are numbered from 1. */
  type Environment = nat -> Attempt

  datatype Bounds = Bounds(started: real, deadlineSeconds: real, intervalSeconds: real)
  {
    predicate Valid() {
      deadlineSeconds > 0.0 && intervalSeconds > 0.0 && intervalSeconds <= deadlineSeconds
    }

    function Deadline(): real {
      started + deadlineSeconds
    }

    /** `math.ceil(deadline_seconds / retry_interval_seconds)` */
    function Steps(): int
      requires Valid()
    {
      Ceil(deadlineSeconds / intervalSeconds)
    }

    function MaxAttempts(): int
      requires Valid()
    {
      if Steps() + 1 < 1 then 1 else Steps() + 1
    }
  }

  function Ceil(x: real): int {
    -(-x).Floor
  }

  function Min(a: real, b: real): real {
    if a < b then a else b
  }

  function Max(a: real, b: real): real {
    if a < b then b else a
  }

  datatype ReadResult =
    | BadArguments
    | Read(data: seq<nat>, attempts: nat, transientErrors: nat)
    | FailedClosed(kind: Classification, attempts: nat)
    | ReaderContractError(attempts: nat)
    | DeadlineExpired(attempts: nat)

  /** Attempt i failed transiently before the deadline. */
  predicate Retried(env: Environment, b: Bounds, i: nat) {
    env(i).outcome == OsError(TransientSharingOrLock) && env(i).check < b.Deadline()
  }

  ghost predicate RetriedBefore(env: Environment, b: Bounds, n: nat) {
    forall i: nat {:trigger Retried(env, b, i)} :: 1 <= i < n ==> Retried(env, b, i)
  }

  /** The result that the last attempt decides. */
  predicate Decided(env: Environment, b: Bounds, n: nat, r: ReadResult)
    requires b.Valid() && n >= 1
  {
    match env(n).outcome
    case Content(data) => r == Read(data, n, n - 1)
    case NotBytes => r == ReaderContractError(n)
    case OsError(kind) =>
      if kind == TransientSharingOrLock then r == DeadlineExpired(n) && (n == b.MaxAttempts() || env(n).check >= b.Deadline())
      else r == FailedClosed(kind, n)
  }

  /**
    The clock never goes back and a sleep never returns early: the next deadline check happens no
    earlier than the requested time after the sleep began.
   */
  ghost predicate ClockRespected(env: Environment, b: Bounds) {
    b.started <= env(1).check && forall i: nat {:trigger Slept(env, b, i)} :: 1 <= i ==> Slept(env, b, i)
  }

  predicate Slept(env: Environment, b: Bounds, i: nat) {
    && env(i).check <= env(i).beforeSleep
    && env(i).beforeSleep + Min(b.intervalSeconds, Max(0.0, b.Deadline() - env(i).beforeSleep)) <= env(i + 1).check
  }

  /**
    `read_bytes_after_quiescence`, from the argument check on. The last attempt n decides the result,
    every earlier one failed transiently before the deadline, and n is within the cap. With a
    respected clock the deadline error is raised only at or after the deadline.
   */
  method ReadBytes(env: Environment, b: Bounds) returns (r: ReadResult, n: nat)
    ensures !b.Valid() <==> r == BadArguments
    ensures b.Valid() ==> 1 <= n <= b.MaxAttempts() && RetriedBefore(env, b, n) && Decided(env, b, n, r)
    ensures b.Valid() && r.DeadlineExpired? && ClockRespected(env, b) ==> env(n).check >= b.Deadline()
  {
    if b.deadlineSeconds <= 0.0 || b.intervalSeconds <= 0.0 || b.intervalSeconds > b.deadlineSeconds {
      return BadArguments, 0;
    }
    var maxAttempts := b.MaxAttempts();
    var transientErrors := 0;
    var ordinal := 1;
    while true
      invariant 1 <= ordinal <= maxAttempts
      invariant transientErrors == ordinal - 1
      invariant RetriedBefore(env, b, ordinal)
      decreases maxAttempts - ordinal
    {
      var attempt := env(ordinal);
      match attempt.outcome {
        case Content(data) =>
          return Read(data, ordinal, transientErrors), ordinal;
        case NotBytes =>
          return ReaderContractError(ordinal), ordinal;
        case OsError(kind) =>
          if kind != TransientSharingOrLock {
            return FailedClosed(kind, ordinal), ordinal;
          }
          transientErrors := transientErrors + 1;
          if ordinal >= maxAttempts || attempt.check >= b.Deadline() {
            if ClockRespected(env, b) {
              DeadlineNotEarly(env, b, ordinal);
            }
            return DeadlineExpired(ordinal), ordinal;
          }
          ordinal := ordinal + 1;
      }
    }
  }

  // ---------------------------------------------------------------- how the two bounds relate

  lemma CeilBounds(q: real)
    ensures q <= Ceil(q) as real && (Ceil(q) - 1) as real < q
  {
  }

  /** If n-1 < q <= n for the quotient q of d and i, then n is the least number of steps of i that covers d. */
  lemma QuotientBounds(d: real, i: real, q: real, n: real, below: real)
    requires i > 0.0 && q * i == d && below < q <= n
    ensures n * i >= d && below * i < d
  {
    ProductLe(q, n, i);
    ProductLt(below, q, i);
  }

  lemma CeilOfQuotient(d: real, i: real, q: real)
    requires 0.0 < i <= d && q == d / i
    ensures Ceil(q) as real * i >= d
    ensures (Ceil(q) - 1) as real * i < d
    ensures Ceil(q) >= 1
  {
    QuotientTimes(d, i);
    CeilBounds(q);
    QuotientBounds(d, i, q, Ceil(q) as real, (Ceil(q) - 1) as real);
    hide Ceil;
    if Ceil(q) < 1 {
      ProductLe(Ceil(q) as real, 0.0, i);
      assert false;
    }
  }

  lemma QuotientTimes(x: real, y: real)
    requires y > 0.0
    ensures x / y * y == x
  {
  }

  lemma CeilCovers(b: Bounds)
    requires b.Valid()
    ensures b.Steps() as real * b.intervalSeconds >= b.deadlineSeconds
    ensures (b.Steps() - 1) as real * b.intervalSeconds < b.deadlineSeconds
    ensures b.Steps() >= 1
  {
    CeilOfQuotient(b.deadlineSeconds, b.intervalSeconds, b.deadlineSeconds / b.intervalSeconds);
  }

  lemma ProductLe(x: real, y: real, z: real)
    requires x <= y && z > 0.0
    ensures x * z <= y * z
  {
  }

  lemma ProductLt(x: real, y: real, z: real)
    requires x < y && z > 0.0
    ensures x * z < y * z
  {
  }

  /** After i-1 retries the clock has advanced by i-1 full intervals, or has reached the deadline. */
  lemma {:induction false} RetriesTakeTime(env: Environment, b: Bounds, i: nat)
    requires b.Valid() && ClockRespected(env, b) && 1 <= i && RetriedBefore(env, b, i)
    ensures env(i).check >= b.started + (i - 1) as real * b.intervalSeconds || env(i).check >= b.Deadline()
  {
    if i > 1 {
      assert Retried(env, b, i - 1);
      RetriesTakeTime(env, b, i - 1);
      assert Slept(env, b, i - 1);
      assert (i - 1) as real * b.intervalSeconds == (i - 2) as real * b.intervalSeconds + b.intervalSeconds by {
        assert (i - 1) as real == (i - 2) as real + 1.0;
      }
    }
  }

  /** The attempt cap cannot be reached before the deadline. */
  lemma DeadlineNotEarly(env: Environment, b: Bounds, n: nat)
    requires b.Valid() && ClockRespected(env, b) && 1 <= n && RetriedBefore(env, b, n)
    requires n >= b.MaxAttempts() || env(n).check >= b.Deadline()
    ensures env(n).check >= b.Deadline()
  {
    if env(n).check < b.Deadline() {
      RetriesTakeTime(env, b, n);
      StepsReachDeadline(b, n);
      assert false;
    }
  }

  lemma StepsReachDeadline(b: Bounds, n: nat)
    requires b.Valid() && n >= b.MaxAttempts()
    ensures (n - 1) as real * b.intervalSeconds >= b.deadlineSeconds
  {
    hide Bounds.Steps, Ceil;
    CeilCovers(b);
    assert b.Steps() <= n - 1;
    ProductCovers(b.Steps() as real, (n - 1) as real, b.intervalSeconds, b.deadlineSeconds);
  }

  lemma ProductCovers(steps: real, elapsed: real, interval: real, d: real)
    requires steps <= elapsed && interval > 0.0 && steps * interval >= d
    ensures elapsed * interval >= d
  {
    ProductLe(steps, elapsed, interval);
  }

  // ---------------------------------------------------------------- an ideal environment

  /** Reads take no time, sleeps are exact, and the file stays locked. */
  ghost predicate Ideal(env: Environment, b: Bounds) {
    env(1).check == b.started && forall i: nat {:trigger IdealStep(env, b, i)} :: 1 <= i ==> IdealStep(env, b, i)
  }

  predicate IdealStep(env: Environment, b: Bounds, i: nat) {
    && env(i).outcome == OsError(TransientSharingOrLock)
    && env(i).beforeSleep == env(i).check
    && env(i + 1).check == env(i).check + Min(b.intervalSeconds, Max(0.0, b.Deadline() - env(i).check))
  }

  lemma {:induction false} IdealClock(env: Environment, b: Bounds, i: nat)
    requires b.Valid() && Ideal(env, b) && 1 <= i
    ensures env(i).check == b.started + Min((i - 1) as real * b.intervalSeconds, b.deadlineSeconds)
  {
    if i > 1 {
      assert IdealStep(env, b, i - 1);
      IdealClock(env, b, i - 1);
      assert (i - 1) as real * b.intervalSeconds == (i - 2) as real * b.intervalSeconds + b.intervalSeconds by {
        assert (i - 1) as real == (i - 2) as real + 1.0;
      }
    }
  }

  /** In an ideal environment the loop makes exactly ceil(D/I)+1 attempts, so neither bound is slack. */
  lemma IdealAttempts(env: Environment, b: Bounds, r: ReadResult, n: nat)
    requires b.Valid() && Ideal(env, b)
    requires 1 <= n <= b.MaxAttempts() && RetriedBefore(env, b, n) && Decided(env, b, n, r)
    ensures n == b.Steps() + 1 && r == DeadlineExpired(n) && env(n).check == b.Deadline()
  {
    CeilCovers(b);
    assert IdealStep(env, b, n);
    IdealClock(env, b, n);
    if n <= b.Steps() {
      FewerStepsFallShort(b, n);
      assert false;
    } else {
      StepsReachDeadline(b, n);
    }
  }

  lemma FewerStepsFallShort(b: Bounds, n: nat)
    requires b.Valid() && 1 <= n <= b.Steps()
    ensures (n - 1) as real * b.intervalSeconds < b.deadlineSeconds
  {
    hide Bounds.Steps, Ceil;
    CeilCovers(b);
    assert n - 1 <= b.Steps() - 1;
    ProductFallsShort((n - 1) as real, (b.Steps() - 1) as real, b.intervalSeconds, b.deadlineSeconds);
  }

  lemma ProductFallsShort(elapsed: real, steps: real, interval: real, d: real)
    requires elapsed <= steps && interval > 0.0 && steps * interval < d
    ensures elapsed * interval < d
  {
    ProductLe(elapsed, steps, interval);
  }
}
