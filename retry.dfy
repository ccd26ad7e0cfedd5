/** The rate-limit retry controller shared by the two dialogue call sites
    (`fetchInitialStatement` and `fetchAiResponse`).

    The remote service is not called: the responses it would give to successive
    requests are an injected sequence, and each wait is recorded by its duration
    instead of being slept. */
module Retry {

  /** `maxRetries`: a request is retried at most this many times. */
  const MaxRetries: nat := 3

  /** `backoffTimes`: the wait, in milliseconds, before the retry with that index. */
  const BackoffTimes: seq<nat> := [5000, 10000, 15000]

  /** The HTTP status the service uses for "too many requests". */
  const RateLimitedStatus: nat := 429

  /** What one `fetch` gives back: a response with a status, or a rejection. */
  datatype Attempt = Status(code: nat) | NetworkFailure(message: string)

  /** `response.ok`. */
  predicate IsOk(code: nat) {
    200 <= code <= 299
  }

  /** The response is a rate-limit refusal. */
  predicate IsRateLimited(a: Attempt) {
    a.Status? && a.code == RateLimitedStatus
  }

  /** How the request loop ends: a response whose body is streamed next, or one of the
      three terminal failures. */
  datatype Outcome =
    | Accepted(status: nat)
    | RateLimitExhausted
    | ServerError(status: nat)
    | Thrown(message: string)

  /** The classification after the loop: `!response.ok` with 429 is exhaustion, any other
      non-ok status is a server error; a rejected `fetch` propagates its error. */
  function Classify(a: Attempt): Outcome {
    match a
    case NetworkFailure(m) => Thrown(m)
    case Status(c) =>
      if IsOk(c) then Accepted(c)
      else if c == RateLimitedStatus then RateLimitExhausted
      else ServerError(c)
  }

  /** The whole record of one call: how it ended, the waits taken, the requests issued. */
  datatype Trace = Trace(outcome: Outcome, waits: seq<nat>, requests: nat)

  /** The index of the response that stops the loop, searching from attempt `k`: the first
      one that is not a rate-limit refusal, or the last allowed attempt. */
  function StopFrom(responses: seq<Attempt>, k: nat): nat
    requires k <= MaxRetries < |responses|
    decreases MaxRetries - k
  {
    if k == MaxRetries || !IsRateLimited(responses[k]) then k else StopFrom(responses, k + 1)
  }

  /** The trace of a call whose successive requests receive `responses`. */
  function RetrySpec(responses: seq<Attempt>): Trace
    requires MaxRetries < |responses|
  {
    var s := StopFrom(responses, 0);
    Trace(Classify(responses[s]), BackoffTimes[..s], s + 1)
  }

  lemma {:induction false} StopFromBounds(responses: seq<Attempt>, k: nat)
    requires k <= MaxRetries < |responses|
    ensures k <= StopFrom(responses, k) <= MaxRetries
    ensures forall i :: k <= i < StopFrom(responses, k) ==> IsRateLimited(responses[i])
    ensures StopFrom(responses, k) < MaxRetries ==> !IsRateLimited(responses[StopFrom(responses, k)])
    decreases MaxRetries - k
  {
    if k < MaxRetries && IsRateLimited(responses[k]) {
      StopFromBounds(responses, k + 1);
    }
  }

  /** The loop stops at request `k`: every earlier request was refused for rate
      limiting and this one was not. */
  ghost predicate StoppedAt(responses: seq<Attempt>, k: nat) {
    k <= MaxRetries < |responses|
    && (forall i :: 0 <= i < k ==> IsRateLimited(responses[i]))
    && !IsRateLimited(responses[k])
  }

  /** How the call ends is decided by the response that stopped the loop: the body is
      streamed exactly when that response is ok, a server error is reported exactly when
      it has another status than 429, and the error propagates exactly when that
      request was rejected. */
  lemma OutcomeKinds(responses: seq<Attempt>)
    requires MaxRetries < |responses|
    ensures RetrySpec(responses).outcome.Accepted?
        <==> exists k: nat :: StoppedAt(responses, k) && responses[k].Status? && IsOk(responses[k].code)
    ensures RetrySpec(responses).outcome.ServerError?
        <==> exists k: nat :: StoppedAt(responses, k) && responses[k].Status? && !IsOk(responses[k].code)
    ensures RetrySpec(responses).outcome.Thrown?
        <==> exists k: nat :: StoppedAt(responses, k) && responses[k].NetworkFailure?
  {
    StopFromBounds(responses, 0);
    var s := StopFrom(responses, 0);
    forall k | StoppedAt(responses, k) ensures k == s {
      FirstNonRateLimitedStops(responses, k);
    }
    if !IsRateLimited(responses[s]) {
      assert StoppedAt(responses, s);
    }
  }

  /** At most `MaxRetries + 1` requests go out; every request but the last was refused
      for rate limiting; the last one was not, unless the retries ran out; the i-th wait
      is `BackoffTimes[i]`. */
  lemma RetryBound(responses: seq<Attempt>)
    requires MaxRetries < |responses|
    ensures var t := RetrySpec(responses);
      && 1 <= t.requests <= MaxRetries + 1
      && |t.waits| == t.requests - 1
      && (forall i :: 0 <= i < |t.waits| ==> t.waits[i] == BackoffTimes[i])
      && (forall i :: 0 <= i < t.requests - 1 ==> IsRateLimited(responses[i]))
      && (t.requests - 1 < MaxRetries ==> !IsRateLimited(responses[t.requests - 1]))
      && t.outcome == Classify(responses[t.requests - 1])
  {
    StopFromBounds(responses, 0);
  }

  /** The first response that is not a rate-limit refusal ends the call and decides it. */
  lemma FirstNonRateLimitedStops(responses: seq<Attempt>, k: nat)
    requires k <= MaxRetries < |responses|
    requires forall i :: 0 <= i < k ==> IsRateLimited(responses[i])
    requires !IsRateLimited(responses[k])
    ensures RetrySpec(responses) == Trace(Classify(responses[k]), BackoffTimes[..k], k + 1)
  {
    StopFromBounds(responses, 0);
    var s := StopFrom(responses, 0);
    assert s == k;
  }

  /** "Rate limit exhausted" is reported exactly when all `MaxRetries + 1` requests were
      refused; the call then waited the whole schedule. */
  lemma ExhaustionIff(responses: seq<Attempt>)
    requires MaxRetries < |responses|
    ensures RetrySpec(responses).outcome == RateLimitExhausted
        <==> forall i :: 0 <= i <= MaxRetries ==> IsRateLimited(responses[i])
    ensures RetrySpec(responses).outcome == RateLimitExhausted
        ==> RetrySpec(responses).waits == BackoffTimes && RetrySpec(responses).requests == MaxRetries + 1
  {
    StopFromBounds(responses, 0);
  }

  /** Only the responses to requests actually issued matter. */
  lemma {:induction false} UnusedResponsesIrrelevant(a: seq<Attempt>, b: seq<Attempt>)
    requires MaxRetries < |a| && MaxRetries < |b|
    requires RetrySpec(a).requests <= |b|
    requires a[..RetrySpec(a).requests] == b[..RetrySpec(a).requests]
    ensures RetrySpec(b) == RetrySpec(a)
  {
    StopFromBounds(a, 0);
    var n := RetrySpec(a).requests;
    forall i | 0 <= i < n ensures a[i] == b[i] {
      assert a[..n][i] == b[..n][i];
    }
    if n - 1 < MaxRetries {
      FirstNonRateLimitedStops(b, n - 1);
    } else {
      ExhaustionIff(a);
      ExhaustionIff(b);
    }
  }

  /** The request loop of `fetchInitialStatement` / `fetchAiResponse`: issue a request;
      on a rate-limit refusal with retries left, wait `BackoffTimes[retries]` and retry;
      otherwise stop and classify the last response. A rejected `fetch` leaves the loop
      at once. */
  method FetchWithRetry(responses: seq<Attempt>) returns (outcome: Outcome, waits: seq<nat>, requests: nat)
    requires MaxRetries < |responses|
    ensures Trace(outcome, waits, requests) == RetrySpec(responses)
  {
    var retries: nat := 0;
    requests := 0;
    waits := [];
    var response: Attempt;
    while retries <= MaxRetries
      invariant retries <= MaxRetries
      invariant requests == retries
      invariant waits == BackoffTimes[..retries]
      invariant StopFrom(responses, retries) == StopFrom(responses, 0)
      decreases MaxRetries - retries
    {
      response := responses[requests];
      requests := requests + 1;
      if response.NetworkFailure? {
        outcome := Thrown(response.message);
        return;
      }
      if response.code == RateLimitedStatus && retries < MaxRetries {
        waits := waits + [BackoffTimes[retries]];
        retries := retries + 1;
        continue;
      }
      break;
    }
    outcome := Classify(response);
  }
}
