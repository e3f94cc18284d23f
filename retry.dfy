/**
 * `withRetry`: call an operation until it succeeds, waiting between
 * attempts with a doubling delay capped at a maximum, and giving up at
 * once on an error that is not worth retrying or after the last allowed
 * attempt.
 *
 * The operation is the function `fn` from the attempt number to what
 * that call did; the waits are returned as the list of delays slept, in
 * order, instead of being slept.
 */
module Retry {
  import opened Common

  const DefaultMaxRetries: int := 3
  const DefaultBaseDelay: int := 1000
  const DefaultMaxDelay: int := 16000

  /**
   * What an error carries that matters here: the HTTP status of an
   * attached response, and a `statusCode` of its own. A thrown value that
   * is not an object is `None` where `Option<Failure>` is used.
   */
  datatype Failure = Failure(responseStatus: Option<int>, statusCode: Option<int>)

  datatype Attempt<T> = Succeeded(value: T) | Threw(error: Option<Failure>)

  /** How the returned promise settles. */
  datatype Settlement<T> = Resolved(value: T) | Rejected(error: Option<Failure>)

  /** The options; an absent field takes its default. */
  datatype RetryOptions = RetryOptions(
    maxRetries: Option<int>, baseDelay: Option<int>, maxDelay: Option<int>,
    shouldRetry: Option<Option<Failure> -> bool>)

  /** `error?.response?.status || error?.statusCode`, where a status of 0 counts as missing. */
  function Status(e: Option<Failure>): (s: Option<int>)
    ensures e.None? ==> s.None?
    ensures s.Some? ==> s.value != 0
    ensures e.Some? && e.value.responseStatus.Some? && e.value.responseStatus.value != 0 ==> s == e.value.responseStatus
  {
    if e.None? then None
    else if e.value.responseStatus.Some? && e.value.responseStatus.value != 0 then e.value.responseStatus
    else if e.value.statusCode.Some? && e.value.statusCode.value != 0 then e.value.statusCode
    else None
  }

  /** Retry when there is no status, on a server error (500 and above), and on 429 Too Many Requests. */
  predicate DefaultShouldRetry(e: Option<Failure>) {
    var s := Status(e);
    s.None? || s.value >= 500 || s.value == 429
  }

  /** A client error other than 429 is final; a missing status, 429 and 5xx are retried. */
  lemma DefaultShouldRetryCases(e: Option<Failure>)
    ensures Status(e).None? ==> DefaultShouldRetry(e)
    ensures Status(e) == Some(429) ==> DefaultShouldRetry(e)
    ensures Status(e).Some? && 400 <= Status(e).value < 500 && Status(e).value != 429 ==> !DefaultShouldRetry(e)
    ensures Status(e).Some? && Status(e).value >= 500 ==> DefaultShouldRetry(e)
  {
  }

  /** The options in force: each absent field replaced by its default. */
  datatype Settings = Settings(maxRetries: int, baseDelay: int, maxDelay: int, shouldRetry: Option<Failure> -> bool)

  function Resolve(o: RetryOptions): (s: Settings)
    ensures o.maxRetries.None? ==> s.maxRetries == DefaultMaxRetries
    ensures o.baseDelay.None? ==> s.baseDelay == DefaultBaseDelay
    ensures o.maxDelay.None? ==> s.maxDelay == DefaultMaxDelay
    ensures o.shouldRetry.None? ==> s.shouldRetry == DefaultShouldRetry
    ensures o.maxRetries.Some? ==> s.maxRetries == o.maxRetries.value
    ensures o.baseDelay.Some? ==> s.baseDelay == o.baseDelay.value
    ensures o.maxDelay.Some? ==> s.maxDelay == o.maxDelay.value
    ensures o.shouldRetry.Some? ==> s.shouldRetry == o.shouldRetry.value
  {
    Settings(
      if o.maxRetries.Some? then o.maxRetries.value else DefaultMaxRetries,
      if o.baseDelay.Some? then o.baseDelay.value else DefaultBaseDelay,
      if o.maxDelay.Some? then o.maxDelay.value else DefaultMaxDelay,
      if o.shouldRetry.Some? then o.shouldRetry.value else DefaultShouldRetry)
  }

  function Pow2(k: nat): (p: nat)
    ensures p >= 1
  {
    if k == 0 then 1 else 2 * Pow2(k - 1)
  }

  /** `Math.min(baseDelay * Math.pow(2, attempt), maxDelay)`. */
  function Delay(s: Settings, attempt: nat): (d: int)
    ensures d <= s.maxDelay
    ensures d == s.maxDelay || d == s.baseDelay * Pow2(attempt)
  {
    if s.baseDelay * Pow2(attempt) < s.maxDelay then s.baseDelay * Pow2(attempt) else s.maxDelay
  }

  lemma {:induction false} Pow2Monotone(i: nat, j: nat)
    requires i <= j
    ensures Pow2(i) <= Pow2(j)
  {
    if i < j {
      Pow2Monotone(i, j - 1);
    }
  }

  /** With a non-negative base delay the waits never get shorter. */
  lemma DelayNonDecreasing(s: Settings, i: nat, j: nat)
    requires s.baseDelay >= 0 && i <= j
    ensures Delay(s, i) <= Delay(s, j)
  {
    Pow2Monotone(i, j);
    assert s.baseDelay * Pow2(i) <= s.baseDelay * Pow2(j) by {
      var d := Pow2(j) - Pow2(i);
      assert s.baseDelay * Pow2(j) == s.baseDelay * Pow2(i) + s.baseDelay * d;
    }
  }

  /** A whole run: how it settled, how many times `fn` was called, and the delays waited. */
  datatype Run<T> = Run(result: Settlement<T>, calls: nat, waits: seq<int>)

  /** The loop from attempt `attempt` on, with `lastError` the error recorded so far. */
  function RunFrom<T>(fn: nat -> Attempt<T>, s: Settings, attempt: nat, lastError: Option<Failure>): Run<T>
    decreases if attempt <= s.maxRetries then s.maxRetries + 1 - attempt else 0
  {
    if attempt > s.maxRetries then Run(Rejected(lastError), 0, [])
    else
      match fn(attempt)
      case Succeeded(v) => Run(Resolved(v), 1, [])
      case Threw(e) =>
        if attempt == s.maxRetries || !s.shouldRetry(e) then Run(Rejected(e), 1, [])
        else
          var rest := RunFrom(fn, s, attempt + 1, e);
          Run(rest.result, rest.calls + 1, [Delay(s, attempt)] + rest.waits)
  }

  /** `withRetry(fn, options)`. */
  function WithRetrySpec<T>(fn: nat -> Attempt<T>, o: RetryOptions): Run<T> {
    RunFrom(fn, Resolve(o), 0, None)
  }

  /** The loop, run: the attempts in order, stopping at the first success or the first final error. */
  method WithRetry<T>(fn: nat -> Attempt<T>, o: RetryOptions) returns (result: Settlement<T>, calls: nat, waits: seq<int>)
    ensures Run(result, calls, waits) == WithRetrySpec(fn, o)
  {
    var s := Resolve(o);
    var lastError: Option<Failure> := None;
    var attempt: nat := 0;
    calls, waits := 0, [];
    while attempt <= s.maxRetries
      invariant calls == attempt
      invariant attempt > 0 ==> attempt <= s.maxRetries
      invariant
        var rest := RunFrom(fn, s, attempt, lastError);
        Run(rest.result, calls + rest.calls, waits + rest.waits) == RunFrom(fn, s, 0, None)
      decreases s.maxRetries + 1 - attempt
    {
      calls := calls + 1;
      match fn(attempt) {
        case Succeeded(v) =>
          return Resolved(v), calls, waits;
        case Threw(e) =>
          lastError := e;
          if attempt == s.maxRetries || !s.shouldRetry(e) {
            return Rejected(e), calls, waits;
          }
          assert waits + ([Delay(s, attempt)] + RunFrom(fn, s, attempt + 1, e).waits)
              == (waits + [Delay(s, attempt)]) + RunFrom(fn, s, attempt + 1, e).waits;
          waits := waits + [Delay(s, attempt)];
      }
      attempt := attempt + 1;
    }
    result := Rejected(lastError);
  }

  /** `fn` is called at most `maxRetries + 1` times, and never when `maxRetries` is negative. */
  lemma {:induction false} CallsBounded<T>(fn: nat -> Attempt<T>, s: Settings, attempt: nat, lastError: Option<Failure>)
    ensures var r := RunFrom(fn, s, attempt, lastError);
      r.calls <= (if attempt <= s.maxRetries then s.maxRetries + 1 - attempt else 0) &&
      (attempt <= s.maxRetries ==> r.calls >= 1) &&
      (r.calls >= 1 ==> |r.waits| == r.calls - 1)
    decreases if attempt <= s.maxRetries then s.maxRetries + 1 - attempt else 0
  {
    if attempt <= s.maxRetries && fn(attempt).Threw? && attempt != s.maxRetries && s.shouldRetry(fn(attempt).error) {
      CallsBounded(fn, s, attempt + 1, fn(attempt).error);
    }
  }

  /**
   * How a run that made its calls ended: every call but the last threw an
   * error worth retrying; the result is the last call's value if it
   * succeeded, and its error if it threw, which then was final or on the
   * last allowed attempt.
   */
  ghost predicate EndedAsReported<T>(fn: nat -> Attempt<T>, s: Settings, attempt: nat, r: Run<T>) {
    && r.calls >= 1
    && (forall k :: attempt <= k < attempt + r.calls - 1 ==> fn(k).Threw? && s.shouldRetry(fn(k).error) && k < s.maxRetries)
    && (r.result.Resolved? ==> fn(attempt + r.calls - 1) == Succeeded(r.result.value))
    && (r.result.Rejected? ==> fn(attempt + r.calls - 1) == Threw(r.result.error) &&
                               (attempt + r.calls - 1 == s.maxRetries || !s.shouldRetry(r.result.error)))
  }

  lemma {:induction false} RunOutcome<T>(fn: nat -> Attempt<T>, s: Settings, attempt: nat, lastError: Option<Failure>)
    requires attempt <= s.maxRetries
    ensures EndedAsReported(fn, s, attempt, RunFrom(fn, s, attempt, lastError))
    decreases s.maxRetries + 1 - attempt
  {
    if fn(attempt).Threw? && attempt != s.maxRetries && s.shouldRetry(fn(attempt).error) {
      var e := fn(attempt).error;
      RunOutcome(fn, s, attempt + 1, e);
      var rest := RunFrom(fn, s, attempt + 1, e);
      assert RunFrom(fn, s, attempt, lastError) == Run(rest.result, rest.calls + 1, [Delay(s, attempt)] + rest.waits);
      RetriedRunEndsAsReported(fn, s, attempt, rest, [Delay(s, attempt)] + rest.waits);
    } else {
      assert RunFrom(fn, s, attempt, lastError).calls == 1;
    }
  }

  /** One retried failure in front of a run that ended as reported still ends as reported. */
  lemma RetriedRunEndsAsReported<T>(fn: nat -> Attempt<T>, s: Settings, attempt: nat, rest: Run<T>, waits: seq<int>)
    requires fn(attempt).Threw? && s.shouldRetry(fn(attempt).error) && attempt < s.maxRetries
    requires EndedAsReported(fn, s, attempt + 1, rest)
    ensures EndedAsReported(fn, s, attempt, Run(rest.result, rest.calls + 1, waits))
  {
    var r := Run(rest.result, rest.calls + 1, waits);
    assert attempt + r.calls - 1 == attempt + 1 + rest.calls - 1;
    forall k | attempt <= k < attempt + r.calls - 1
      ensures fn(k).Threw? && s.shouldRetry(fn(k).error) && k < s.maxRetries
    {
      if k != attempt {
        assert attempt + 1 <= k < attempt + 1 + rest.calls - 1;
      }
    }
  }

  /** The k-th wait follows the k-th failed attempt and lasts `Delay(k)`. */
  lemma {:induction false} WaitsAreDelays<T>(fn: nat -> Attempt<T>, s: Settings, attempt: nat, lastError: Option<Failure>)
    ensures forall k :: 0 <= k < |RunFrom(fn, s, attempt, lastError).waits| ==>
      RunFrom(fn, s, attempt, lastError).waits[k] == Delay(s, attempt + k)
    decreases if attempt <= s.maxRetries then s.maxRetries + 1 - attempt else 0
  {
    if attempt <= s.maxRetries && fn(attempt).Threw? && attempt != s.maxRetries && s.shouldRetry(fn(attempt).error) {
      var e := fn(attempt).error;
      WaitsAreDelays(fn, s, attempt + 1, e);
      var rest := RunFrom(fn, s, attempt + 1, e);
      var w := [Delay(s, attempt)] + rest.waits;
      assert RunFrom(fn, s, attempt, lastError).waits == w;
      forall k | 0 <= k < |w|
        ensures w[k] == Delay(s, attempt + k)
      {
        if k > 0 {
          assert w[k] == rest.waits[k - 1];
          assert rest.waits[k - 1] == Delay(s, (attempt + 1) + (k - 1));
          assert (attempt + 1) + (k - 1) == attempt + k;
        }
      }
    }
  }

  /** The whole call, with the default options: at most four calls and waits of 1, 2 and 4 seconds. */
  lemma DefaultRun<T>(fn: nat -> Attempt<T>)
    ensures var r := WithRetrySpec(fn, RetryOptions(None, None, None, None));
      1 <= r.calls <= 4 && forall k :: 0 <= k < |r.waits| ==> r.waits[k] == 1000 * Pow2(k)
  {
    var s := Resolve(RetryOptions(None, None, None, None));
    CallsBounded(fn, s, 0, None);
    WaitsAreDelays(fn, s, 0, None);
    assert Pow2(1) == 2 && Pow2(2) == 4;
  }

  /** With a negative `maxRetries` the loop never runs and the promise rejects with nothing. */
  lemma NegativeMaxRetries<T>(fn: nat -> Attempt<T>, o: RetryOptions)
    requires o.maxRetries.Some? && o.maxRetries.value < 0
    ensures WithRetrySpec(fn, o) == Run(Rejected(None), 0, [])
  {
  }
}
