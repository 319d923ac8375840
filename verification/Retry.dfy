/** The two retry loops: `executeWithRetry` of the repository and `retryWithBackoff` of the consumer. */
module Retry {
  import opened Wrappers
  import opened AppendProtocol

  function Pow2(n: nat): (r: nat)
    ensures r >= 1
  {
    if n == 0 then 1 else 2 * Pow2(n - 1)
  }

  /** The consumer's k-th delay: 100 * 2^(k-1) plus a jitter below 50. */
  function Delay(jitter: nat -> nat, k: nat): nat
    requires k >= 1
  {
    100 * Pow2(k - 1) + jitter(k) % 50
  }

  /** Sum of the first r delays. */
  function Slept(jitter: nat -> nat, r: nat): nat {
    if r == 0 then 0 else Slept(jitter, r - 1) + Delay(jitter, r)
  }

  lemma {:induction false} SleptBound(jitter: nat -> nat, r: nat)
    ensures 100 * (Pow2(r) - 1) <= Slept(jitter, r) <= 100 * (Pow2(r) - 1) + 49 * r
  {
    if r > 0 {
      SleptBound(jitter, r - 1);
    }
  }

  /** Sum of the first r delays of the repository: 50 * 2^k plus a jitter below 50 each. */
  function InnerSlept(jitter: nat -> nat, r: nat): nat {
    if r == 0 then 0 else InnerSlept(jitter, r - 1) + 50 * Pow2(r) + jitter(r) % 50
  }

  lemma {:induction false} InnerSleptBound(jitter: nat -> nat, r: nat)
    ensures 100 * (Pow2(r) - 1) <= InnerSlept(jitter, r) <= 100 * (Pow2(r) - 1) + 49 * r
  {
    if r > 0 {
      InnerSleptBound(jitter, r - 1);
    }
  }

  /** `retryWithBackoff`: fn(k) is the outcome of attempt k, None for success. Stops at the first success
      or after maxRetries + 1 failures, having slept after every failure but the last. */
  method RetryWithBackoff<E>(fn: nat -> Option<E>, jitter: nat -> nat, maxRetries: nat)
    returns (error: Option<E>, attempts: nat, slept: nat)
    ensures 1 <= attempts <= maxRetries + 1
    ensures forall k: nat :: k < attempts - 1 ==> fn(k).Some?
    ensures error == fn(attempts - 1)
    ensures error.Some? ==> attempts == maxRetries + 1
    ensures slept == Slept(jitter, attempts - 1)
    ensures slept <= 100 * (Pow2(attempts - 1) - 1) + 49 * (attempts - 1)
  {
    var attempt: nat := 0;
    slept := 0;
    while true
      invariant attempt <= maxRetries
      invariant forall k: nat :: k < attempt ==> fn(k).Some?
      invariant slept == Slept(jitter, attempt)
      decreases maxRetries - attempt
    {
      var outcome := fn(attempt);
      SleptBound(jitter, attempt);
      if outcome.None? || attempt >= maxRetries {
        return outcome, attempt + 1, slept;
      }
      attempt := attempt + 1;
      slept := slept + Delay(jitter, attempt);
    }
  }

  // ----- the nested loops behave as the flat counters of AppendProtocol -----

  /** A call that has made `outer` and `inner` retries. */
  function Counters(outer: nat, inner: nat): Op {
    Op(0, Ready, outer, inner, 0, [], 0)
  }

  /** What becomes of a call whose n-th database attempt has outcome db(n), by AfterError alone:
      the error that is finally thrown, if any, and the number of attempts made. */
  function Flat(db: nat -> Option<Error>, n: nat, o: Op, maxRetries: nat): (Option<Error>, nat)
    requires o.inner <= INNER_RETRIES && o.outer <= maxRetries
    decreases maxRetries - o.outer, INNER_RETRIES - o.inner
  {
    match db(n)
    case None => (None, n + 1)
    case Some(e) =>
      var after := AfterError(o, e, maxRetries);
      if after.phase.Failed? then (Some(e), n + 1) else Flat(db, n + 1, after, maxRetries)
  }

  /** `executeWithRetry` starting at database attempt `first`: retries only serialization failures, and
      sleeps after each one that it retries. */
  method ExecuteWithRetry(db: nat -> Option<Error>, first: nat, jitter: nat -> nat,
                          ghost outer: nat, ghost maxRetries: nat)
    returns (error: Option<Error>, next: nat, slept: nat)
    requires outer <= maxRetries
    ensures error.None? ==> Flat(db, first, Counters(outer, 0), maxRetries) == (None, next)
    ensures error.Some? ==>
              Flat(db, first, Counters(outer, 0), maxRetries) ==
              if outer < maxRetries then Flat(db, next, Counters(outer + 1, 0), maxRetries) else (error, next)
    ensures first < next <= first + INNER_RETRIES + 1
    ensures error == db(next - 1) && forall k :: first <= k < next - 1 ==> db(k) == Some(Serialization)
    ensures error == Some(Serialization) ==> next == first + 4
    ensures slept == InnerSlept(jitter, next - first - 1)
  {
    var attempt: nat := 0;
    next, slept := first, 0;
    while true
      invariant attempt <= INNER_RETRIES && next == first + attempt
      invariant Flat(db, first, Counters(outer, 0), maxRetries) == Flat(db, next, Counters(outer, attempt), maxRetries)
      invariant forall k :: first <= k < next ==> db(k) == Some(Serialization)
      invariant slept == InnerSlept(jitter, attempt)
      decreases INNER_RETRIES - attempt
    {
      var outcome := db(next);
      next := next + 1;
      match outcome
      case None =>
        return None, next, slept;
      case Some(e) =>
        if e == Serialization && attempt < INNER_RETRIES {
          attempt := attempt + 1;
          slept := slept + 50 * Pow2(attempt) + jitter(attempt) % 50;
        } else {
          return Some(e), next, slept;
        }
    }
  }

  /** The most that one `executeWithRetry` can sleep, in milliseconds. */
  const INNER_SLEEP_MAX: nat := 847

  lemma InnerDelaysAreShort(jitter: nat -> nat, r: nat)
    requires r <= INNER_RETRIES
    ensures InnerSlept(jitter, r) <= INNER_SLEEP_MAX
  {
    InnerSleptBound(jitter, r);
    assert Pow2(1) == 2 && Pow2(2) == 4 && Pow2(3) == 8;
  }

  lemma {:induction false} Pow2Monotone(a: nat, b: nat)
    requires a <= b
    ensures Pow2(a) <= Pow2(b)
    decreases b
  {
    if a < b {
      Pow2Monotone(a, b - 1);
    }
  }

  /** One call of `append`. */
  method AppendOnce(db: nat -> Option<Error>, first: nat, jitter: nat -> nat, ghost outer: nat, ghost maxRetries: nat)
    returns (error: Option<Error>, next: nat, slept: nat)
    requires outer <= maxRetries
    ensures Flat(db, first, Counters(outer, 0), maxRetries) ==
            if error.Some? && outer < maxRetries then Flat(db, next, Counters(outer + 1, 0), maxRetries)
            else (error, next)
    ensures slept <= INNER_SLEEP_MAX
  {
    error, next, slept := ExecuteWithRetry(db, first, jitter, outer, maxRetries);
    InnerDelaysAreShort(jitter, next - first - 1);
  }

  lemma SleepBound(pause: nat -> nat, total: nat, attempt: nat, maxRetries: nat)
    requires attempt <= maxRetries && total <= INNER_SLEEP_MAX * (attempt + 1) + Slept(pause, attempt)
    ensures total <= 847 * (maxRetries + 1) + 100 * (Pow2(maxRetries) - 1) + 49 * maxRetries
  {
    SleptBound(pause, attempt);
    Pow2Monotone(attempt, maxRetries);
  }

  /** The consumer's call of `append` under `retryWithBackoff`: one loop inside the other ends as the flat
      counters do, after the same number of database attempts, and sleeps no longer than that.
      `jitter(n, k)` belongs to the k-th delay of the n-th call of `append`, `pause(n)` to the delay after it. */
  method AppendWithRetries(db: nat -> Option<Error>, jitter: (nat, nat) -> nat, pause: nat -> nat, maxRetries: nat)
    returns (error: Option<Error>, used: nat, total: nat)
    ensures (error, used) == Flat(db, 0, Counters(0, 0), maxRetries)
    ensures 0 < used <= 4 * (maxRetries + 1) && error == db(used - 1)
    ensures forall k :: 0 <= k < used - 1 ==> db(k).Some?
    ensures total <= 847 * (maxRetries + 1) + 100 * (Pow2(maxRetries) - 1) + 49 * maxRetries
  {
    var attempt: nat := 0;
    used, total := 0, 0;
    while true
      invariant attempt <= maxRetries
      invariant Flat(db, 0, Counters(0, 0), maxRetries) == Flat(db, used, Counters(attempt, 0), maxRetries)
      invariant total <= INNER_SLEEP_MAX * attempt + Slept(pause, attempt)
      decreases maxRetries - attempt
    {
      var slept;
      error, used, slept := AppendOnce(db, used, k => jitter(attempt, k), attempt, maxRetries);
      total := total + slept;
      if error.None? || attempt >= maxRetries {
        SleepBound(pause, total, attempt, maxRetries);
        FlatOutcome(db, 0, Counters(0, 0), maxRetries);
        return;
      }
      attempt := attempt + 1;
      total := total + Delay(pause, attempt);
    }
  }

  /** Whatever the outcomes: attempts go on over errors only and end with the outcome that is returned, after at most
      four for each call that the retries allow. */
  lemma {:induction false} FlatOutcome(db: nat -> Option<Error>, n: nat, o: Op, maxRetries: nat)
    requires o.inner <= INNER_RETRIES && o.outer <= maxRetries
    ensures var (error, used) := Flat(db, n, o, maxRetries);
            && n < used <= n + 4 * (maxRetries - o.outer) + 4 - o.inner
            && error == db(used - 1)
            && forall k :: n <= k < used - 1 ==> db(k).Some?
    decreases maxRetries - o.outer, INNER_RETRIES - o.inner
  {
    if db(n).Some? {
      var after := AfterError(o, db(n).value, maxRetries);
      if !after.phase.Failed? {
        FlatOutcome(db, n + 1, after, maxRetries);
      }
    }
  }

  /** Without serialization failures: the loops fail exactly when the first maxRetries + 1 attempts do, and then
      make no other. */
  lemma {:induction false} ConflictsOnly(db: nat -> Option<Error>, n: nat, outer: nat, maxRetries: nat)
    requires outer <= maxRetries
    requires forall k :: n <= k ==> db(k) != Some(Serialization)
    ensures Flat(db, n, Counters(outer, 0), maxRetries).0.Some? <==>
            forall k :: n <= k <= n + (maxRetries - outer) ==> db(k).Some?
    ensures Flat(db, n, Counters(outer, 0), maxRetries).1 <= n + (maxRetries - outer) + 1
    decreases maxRetries - outer
  {
    if db(n).Some? {
      assert db(n).value != Serialization;
      if outer < maxRetries {
        ConflictsOnly(db, n + 1, outer + 1, maxRetries);
      }
    }
  }

  /** With nothing but serialization failures the loops make four attempts for every call. */
  lemma {:induction false} SerializationOnly(db: nat -> Option<Error>, n: nat, o: Op, maxRetries: nat)
    requires o.inner <= INNER_RETRIES && o.outer <= maxRetries
    requires forall k :: n <= k ==> db(k) == Some(Serialization)
    ensures Flat(db, n, o, maxRetries) ==
            (Some(Serialization), n + 4 * (maxRetries - o.outer) + 4 - o.inner)
    decreases maxRetries - o.outer, INNER_RETRIES - o.inner
  {
    var after := AfterError(o, Serialization, maxRetries);
    if !after.phase.Failed? {
      SerializationOnly(db, n + 1, after, maxRetries);
    }
  }
}
