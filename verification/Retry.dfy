/** Capped exponential retry of HTTP requests (backend/shared/src/http_retry.rs).
  * Durations are nanoseconds. */
module Retry {
  import opened Wrappers

  const NANOS_PER_MILLI: nat := 1_000_000
  const U64_MAX: nat := 0xFFFF_FFFF_FFFF_FFFF

  datatype RetryConfig = RetryConfig(maxAttempts: nat, baseDelay: nat, maxDelay: nat)

  function DelayForAttempt(p: RetryConfig, attempt: nat): nat {
    var exponent := Min(SaturatingSub(attempt, 1), 31);
    var multiplier := Pow2(exponent);
    var baseMillis := Min(p.baseDelay / NANOS_PER_MILLI, U64_MAX);
    var delayMillis := Min(baseMillis * multiplier, U64_MAX);
    Min(delayMillis * NANOS_PER_MILLI, p.maxDelay)
  }

  /** The base delay cut to whole milliseconds. */
  function WholeMillis(p: RetryConfig): nat {
    p.baseDelay / NANOS_PER_MILLI
  }

  lemma TimesMonotone(a: nat, b: nat, c: nat)
    requires a <= b
    ensures a * c <= b * c && c * a <= c * b
  {
  }

  /** Delays never shrink from one attempt to the next. */
  lemma DelayMonotone(p: RetryConfig, a: nat, b: nat)
    requires a <= b
    ensures DelayForAttempt(p, a) <= DelayForAttempt(p, b)
  {
    var e, f := Min(SaturatingSub(a, 1), 31), Min(SaturatingSub(b, 1), 31);
    Pow2Monotone(e, f);
    TimesMonotone(Pow2(e), Pow2(f), Min(p.baseDelay / NANOS_PER_MILLI, U64_MAX));
  }

  /** Up to attempt 32 the delay is the doubled base cut off at the maximum, saturation of
    * the millisecond count notwithstanding, unless the maximum lies beyond that saturation. */
  lemma DelayDoubles(p: RetryConfig, attempt: nat)
    requires 1 <= attempt <= 32
    ensures
      var doubled := WholeMillis(p) * Pow2(attempt - 1);
      DelayForAttempt(p, attempt) == Min(p.maxDelay, doubled * NANOS_PER_MILLI) <==>
        doubled <= U64_MAX || p.maxDelay <= U64_MAX * NANOS_PER_MILLI
  {
    var n, base := Pow2(attempt - 1), WholeMillis(p);
    if base > U64_MAX {
      TimesMonotone(1, n, base);
      TimesMonotone(1, n, U64_MAX);
    }
  }

  /** Total time slept before send number sends. */
  function TotalWait(p: RetryConfig, sends: nat): nat {
    if sends <= 1 then 0 else TotalWait(p, sends - 1) + DelayForAttempt(p, sends - 1)
  }

  /** The time slept is bounded by the maximum delay and by the geometric sum. */
  lemma {:induction false} TotalWaitBound(p: RetryConfig, sends: nat)
    requires 1 <= sends
    ensures TotalWait(p, sends) <= (sends - 1) * p.maxDelay
    ensures TotalWait(p, sends) <= p.baseDelay * (Pow2(sends - 1) - 1)
  {
    hide DelayForAttempt, Pow2;
    if sends == 1 {
      assert Pow2(0) == 1 by { FirstPower(); }
    } else {
      TotalWaitBound(p, sends - 1);
      DelayBelowDoubledBase(p, sends - 1);
      NextPower(sends - 2);
      OneMoreWait(p.baseDelay, Pow2(sends - 2), p.maxDelay, sends - 1);
    }
  }

  lemma FirstPower()
    ensures Pow2(0) == 1
  {
  }

  lemma NextPower(z: nat)
    ensures Pow2(z + 1) == 2 * Pow2(z)
  {
  }

  lemma OneMoreWait(base: nat, n: nat, max: nat, k: nat)
    requires 0 < n && 0 < k
    ensures base * (2 * n - 1) == base * (n - 1) + base * n
    ensures k * max == (k - 1) * max + max
  {
  }

  lemma DelayBelowDoubledBase(p: RetryConfig, attempt: nat)
    requires 1 <= attempt
    ensures DelayForAttempt(p, attempt) <= p.maxDelay
    ensures DelayForAttempt(p, attempt) <= p.baseDelay * Pow2(attempt - 1)
  {
    var e := Min(attempt - 1, 31);
    Pow2Monotone(e, attempt - 1);
    MillisBelowBase(p.baseDelay, Min(p.baseDelay / NANOS_PER_MILLI, U64_MAX), Pow2(e), Pow2(attempt - 1));
  }

  lemma MillisBelowBase(base: nat, millis: nat, m: nat, n: nat)
    requires millis * NANOS_PER_MILLI <= base && m <= n
    ensures millis * m * NANOS_PER_MILLI <= base * n
  {
    TimesMonotone(millis * NANOS_PER_MILLI, base, n);
    TimesMonotone(m, n, millis);
    assert millis * NANOS_PER_MILLI * n == millis * n * NANOS_PER_MILLI;
  }

  // -------------------------------------------------------------------------- the retry loops

  datatype Reply = Response(status: nat) | TransportError(timeoutOrConnect: bool)

  predicate IsRetryableStatus(status: nat) {
    status == 408 || status == 429 || 500 <= status < 600
  }

  predicate IsRetryable(reply: Reply) {
    match reply
    case Response(status) => IsRetryableStatus(status)
    case TransportError(timeoutOrConnect) => timeoutOrConnect
  }

  datatype SendOutcome = Returned(reply: Reply) | Panicked

  /** The first send whose reply is not retryable, or the last one allowed. */
  ghost predicate StopsAt(send: nat -> Reply, maxAttempts: nat, sends: nat) {
    && 1 <= sends <= Max(maxAttempts, 1)
    && (forall a | 1 <= a < sends :: IsRetryable(send(a)))
    && (sends < Max(maxAttempts, 1) ==> !IsRetryable(send(sends)))
  }

  lemma StopsAtOnce(send: nat -> Reply, maxAttempts: nat, s: nat, t: nat)
    requires StopsAt(send, maxAttempts, s) && StopsAt(send, maxAttempts, t)
    ensures s == t
  {
  }

  /** Sends a request that answers send(a) to attempt a.  It panics exactly when the request
    * cannot be cloned, retries are allowed, and the first reply asks for one. */
  method SendWithRetry(cloneable: bool, p: RetryConfig, send: nat -> Reply)
    returns (outcome: SendOutcome, sends: nat, waited: nat)
    ensures outcome == Panicked <==> !cloneable && p.maxAttempts > 1 && IsRetryable(send(1))
    ensures outcome.Returned? ==>
      StopsAt(send, p.maxAttempts, sends) && outcome.reply == send(sends) && waited == TotalWait(p, sends)
  {
    var available := true;
    var maxAttempts := Max(p.maxAttempts, 1);
    sends, waited := 0, 0;
    for attempt := 1 to maxAttempts + 1
      invariant attempt <= maxAttempts && sends == attempt - 1 && waited == TotalWait(p, attempt)
      invariant forall a | 1 <= a < attempt :: a < maxAttempts && IsRetryable(send(a))
      invariant available <==> cloneable || attempt == 1
    {
      if attempt == maxAttempts {
        if !available {
          return Panicked, sends, waited;
        }
        available := false;
      } else if !(available && cloneable) {
        if !available {
          return Panicked, sends, waited;
        }
        available := false;
      }
      sends := sends + 1;
      var reply := send(attempt);
      if attempt < maxAttempts && IsRetryable(reply) {
        waited := waited + DelayForAttempt(p, attempt);
      } else {
        return Returned(reply), sends, waited;
      }
    }
    assert false;
    outcome := Panicked;
  }

  /** The same loop for an arbitrary operation that answers attempt a with operation(a). */
  method RetryAsync<T, E>(p: RetryConfig, operation: nat -> Result<T, E>, shouldRetry: E -> bool)
    returns (r: Result<T, E>, calls: nat, waited: nat)
    ensures 1 <= calls <= Max(p.maxAttempts, 1) && r == operation(calls) && waited == TotalWait(p, calls)
    ensures forall a | 1 <= a < calls :: operation(a).Failure? && shouldRetry(operation(a).error)
    ensures r.Failure? && shouldRetry(r.error) ==> calls == Max(p.maxAttempts, 1)
  {
    var maxAttempts := Max(p.maxAttempts, 1);
    calls, waited := 0, 0;
    for attempt := 1 to maxAttempts + 1
      invariant attempt <= maxAttempts && calls == attempt - 1 && waited == TotalWait(p, attempt)
      invariant forall a | 1 <= a < attempt ::
                  a < maxAttempts && operation(a).Failure? && shouldRetry(operation(a).error)
    {
      calls := calls + 1;
      r := operation(attempt);
      if r.Success? || attempt == maxAttempts || !shouldRetry(r.error) {
        return;
      }
      waited := waited + DelayForAttempt(p, attempt);
    }
    assert false;
    r := operation(calls);
  }
}
