/**
 * `retry_sync` / `retry_async`: call an operation up to `max_retries` times
 * with exponential backoff between attempts.
 *
 * The operation is abstracted as the outcome of its k-th call (`attempt(k)`);
 * the sleeps are recorded as the list of waits instead of being performed.
 * The async variant differs only in awaiting the call and the sleep, so
 * one model covers both.  Waits are exact reals: float rounding of
 * `delay_seconds * backoff ** attempt` is not modelled.
 */
module Retry {
  import opened Common

  /** Outcome of one call of the operation. */
  datatype Attempt<T, E> = Succeeded(value: T) | Raised(error: E)

  /** What the retry helper ends with. */
  datatype Outcome<T, E> =
    | Returned(value: T)      // some call succeeded
    | Reraised(error: E)      // the last allowed call raised
    | ReturnedNone            // the loop never ran (max_retries <= 0)

  function Pow(b: real, k: nat): real
  {
    if k == 0 then 1.0 else b * Pow(b, k - 1)
  }

  /** The wait after failed attempt `k` (zero-based). */
  function Wait(delay: real, backoff: real, k: nat): real
  {
    delay * Pow(backoff, k)
  }

  /** The waits after attempts 0 .. n-1. */
  function Waits(delay: real, backoff: real, n: nat): (w: seq<real>)
    ensures |w| == n
    ensures forall k | 0 <= k < n :: w[k] == Wait(delay, backoff, k)
  {
    if n == 0 then [] else Waits(delay, backoff, n - 1) + [Wait(delay, backoff, n - 1)]
  }

  /** Index of the first successful attempt below `limit`, if any. */
  function FirstSuccess<T, E>(attempt: nat -> Attempt<T, E>, limit: nat): (r: Option<nat>)
    ensures r.Some? ==> r.value < limit && attempt(r.value).Succeeded?
    ensures r.Some? ==> forall k | 0 <= k < r.value :: attempt(k).Raised?
    ensures r.None? ==> forall k | 0 <= k < limit :: attempt(k).Raised?
  {
    if limit == 0 then None
    else
      var earlier := FirstSuccess(attempt, limit - 1);
      if earlier.Some? then earlier
      else if attempt(limit - 1).Succeeded? then Some(limit - 1)
      else None
  }

  /**
   * The retry loop.  Returns the outcome, how many times the operation was
   * called and the waits slept between calls.
   */
  method Run<T, E>(attempt: nat -> Attempt<T, E>, maxRetries: int, delay: real, backoff: real)
    returns (outcome: Outcome<T, E>, calls: nat, waits: seq<real>)
    ensures maxRetries <= 0 ==> outcome == ReturnedNone && calls == 0 && waits == []
    ensures maxRetries > 0 ==> 1 <= calls <= maxRetries && waits == Waits(delay, backoff, calls - 1)
    ensures forall k | 0 <= k < calls - 1 :: attempt(k).Raised?
    ensures maxRetries > 0 ==> match FirstSuccess(attempt, maxRetries)
      case Some(k) => outcome == Returned(attempt(k).value) && calls == k + 1
      case None => calls == maxRetries && outcome == Reraised(attempt(maxRetries - 1).error)
  {
    outcome := ReturnedNone;
    calls := 0;
    waits := [];
    var k := 0;
    while k < maxRetries
      invariant 0 <= k
      invariant maxRetries > 0 ==> k < maxRetries
      invariant maxRetries <= 0 ==> k == 0
      invariant calls == k
      invariant waits == Waits(delay, backoff, k)
      invariant forall j | 0 <= j < k :: attempt(j).Raised?
      decreases maxRetries - k
    {
      calls := calls + 1;
      match attempt(k)
      case Succeeded(v) =>
        FirstSuccessAt(attempt, maxRetries, k);
        return Returned(v), calls, waits;
      case Raised(e) =>
        if k == maxRetries - 1 {
          FirstSuccessNone(attempt, maxRetries);
          return Reraised(e), calls, waits;
        }
        waits := waits + [Wait(delay, backoff, k)];
        k := k + 1;
    }
  }

  lemma {:induction false} FirstSuccessAt<T, E>(attempt: nat -> Attempt<T, E>, limit: nat, k: nat)
    requires k < limit && attempt(k).Succeeded?
    requires forall j | 0 <= j < k :: attempt(j).Raised?
    ensures FirstSuccess(attempt, limit) == Some(k)
    decreases limit
  {
    if limit - 1 > k {
      FirstSuccessAt(attempt, limit - 1, k);
    } else {
      assert FirstSuccess(attempt, limit - 1).None?;
    }
  }

  lemma FirstSuccessNone<T, E>(attempt: nat -> Attempt<T, E>, limit: nat)
    requires forall j | 0 <= j < limit :: attempt(j).Raised?
    ensures FirstSuccess(attempt, limit).None?
  {
  }

  /**
   * An operation that fails twice and then succeeds, with three attempts
   * allowed, returns its value after waiting `delay` and `delay * backoff`.
   */
  method FailTwiceThenSucceed(delay: real, backoff: real) returns (outcome: Outcome<int, string>, waits: seq<real>)
    ensures outcome == Returned(42)
    ensures waits == [delay, delay * backoff]
  {
    var attempt := (k: nat) => if k < 2 then Raised("transient") else Succeeded(42);
    var calls;
    assert FirstSuccess(attempt, 3) == Some(2) by {
      FirstSuccessAt(attempt, 3, 2);
    }
    outcome, calls, waits := Run(attempt, 3, delay, backoff);
    assert Waits(delay, backoff, 2) == [Wait(delay, backoff, 0), Wait(delay, backoff, 1)];
    assert Wait(delay, backoff, 0) == delay;
    assert Wait(delay, backoff, 1) == delay * backoff by {
      assert Pow(backoff, 1) == backoff * Pow(backoff, 0);
    }
  }
}
