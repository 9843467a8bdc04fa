/** Retrying an LLM request with exponential backoff. */
module Retry {
  import opened Wrappers
  import opened Words

  datatype StreamErrorKind = Network | Protocol | Parse

  datatype LlmError =
    | RateLimited(text: string)
    | Overloaded(text: string)
    | InvalidRequest(text: string)
    | ProviderError(text: string)
    | Timeout(after: nat)
    | AuthError(text: string)
    | ContextOverflow(text: string)
    | Cancelled
    | Serialization(text: string)
    | UnknownProvider(text: string)
    | StreamError(kind: StreamErrorKind, text: string)
  {
    predicate IsRetryable() {
      RateLimited? || Overloaded? || Timeout? || (StreamError? && kind.Network?)
    }
  }

  datatype Answer<+S> = Stream(stream: S) | Failure(error: LlmError)

  /** How a run of `with_retry` ends; Overflow is where the delay in milliseconds does not fit
      in 64 bits. */
  datatype Outcome<+S> = Returned(answer: Answer<S>) | Overflow

  function Delay(k: nat): nat { 100 * Power(2, k) }

  function Sum(xs: seq<nat>): nat {
    if xs == [] then 0 else Sum(xs[..|xs| - 1]) + xs[|xs| - 1]
  }

  /** Call `k` failed in a way that is to be retried, if its delay can be had. */
  predicate WantsRetry<S>(op: nat -> Answer<S>, k: nat, maxRetries: nat) {
    k < maxRetries && op(k).Failure? && op(k).error.IsRetryable()
  }

  predicate IsRetried<S>(op: nat -> Answer<S>, k: nat, maxRetries: nat, cap: Option<nat>) {
    WantsRetry(op, k, maxRetries) && Delay(k) < U64_SIZE && (cap.Some? ==> Delay(k) <= cap.value)
  }

  /** `k` retries are made and no more. */
  ghost predicate StopsAfter<S>(op: nat -> Answer<S>, k: nat, maxRetries: nat, cap: Option<nat>) {
    (forall i: nat | i < k :: IsRetried(op, i, maxRetries, cap)) && !IsRetried(op, k, maxRetries, cap)
  }

  /** `op` says what the k-th call would answer. The sleeps are a result, as the time slept
      between the calls; the answers of the calls made are `op(0)` to `op(|sleeps|)`. */
  method WithRetry<S>(op: nat -> Answer<S>, maxRetries: nat, cap: Option<nat>)
    returns (outcome: Outcome<S>, calls: nat, sleeps: seq<nat>)
    requires cap.Some? ==> cap.value < U64_SIZE
    ensures calls == |sleeps| + 1 && calls <= maxRetries + 1
    ensures StopsAfter(op, |sleeps|, maxRetries, cap)
    ensures forall i | 0 <= i < |sleeps| :: sleeps[i] == Delay(i)
    ensures outcome == if WantsRetry(op, |sleeps|, maxRetries) && Delay(|sleeps|) >= U64_SIZE then Overflow
                       else Returned(op(|sleeps|))
  {
    var attempt := 0;
    calls, sleeps := 0, [];
    while true
      invariant attempt <= maxRetries && calls == attempt == |sleeps|
      invariant forall i: nat | i < attempt :: IsRetried(op, i, maxRetries, cap)
      invariant forall i | 0 <= i < |sleeps| :: sleeps[i] == Delay(i)
      decreases maxRetries - attempt
    {
      var answer := op(attempt);
      calls := calls + 1;
      if answer.Stream? {
        return Returned(answer), calls, sleeps;
      }
      if !(attempt < maxRetries && answer.error.IsRetryable()) {
        return Returned(answer), calls, sleeps;
      }
      var delay := 100 * Power(2, attempt);
      if delay >= U64_SIZE {
        return Overflow, calls, sleeps;
      }
      if cap.Some? && delay > cap.value {
        return Returned(answer), calls, sleeps;
      }
      sleeps := sleeps + [delay];
      attempt := attempt + 1;
    }
  }

  lemma {:induction false} DelaysSum(sleeps: seq<nat>)
    requires forall i | 0 <= i < |sleeps| :: sleeps[i] == Delay(i)
    ensures Sum(sleeps) == 100 * (Power(2, |sleeps|) - 1)
  {
    if sleeps != [] {
      DelaysSum(sleeps[..|sleeps| - 1]);
    }
  }

  /** The last delay that fits is 100 * 2^57 ms. */
  lemma LastDelay()
    ensures Power(2, 57) == 0x200_0000_0000_0000 && Delay(57) == 14411518807585587200 < U64_SIZE <= Delay(58)
  {
    assert Power(2, 10) == 1024;
    assert Power(2, 20) == 1024 * 1024;
    assert Power(2, 30) == 1024 * 1024 * 1024;
    assert Power(2, 40) == 0x100_0000_0000;
    assert Power(2, 50) == 0x4_0000_0000_0000;
  }

  /** What a run of `k` retries has cost and how it ended: it slept 100 * (2^k - 1) ms in all,
      never longer at once than the cap, and a retryable error comes back only when the retries
      are used up or the next delay is over the cap. */
  lemma RunsKeepTheirPromise<S>(op: nat -> Answer<S>, maxRetries: nat, cap: Option<nat>, sleeps: seq<nat>)
    requires StopsAfter(op, |sleeps|, maxRetries, cap)
    requires forall i | 0 <= i < |sleeps| :: sleeps[i] == Delay(i)
    ensures |sleeps| <= maxRetries
    ensures Sum(sleeps) == 100 * (Power(2, |sleeps|) - 1) <= 100 * (Power(2, maxRetries) - 1)
    ensures cap.Some? ==> forall i | 0 <= i < |sleeps| :: sleeps[i] <= cap.value
    ensures forall i: nat | i < |sleeps| :: op(i).Failure? && op(i).error.IsRetryable()
    ensures op(|sleeps|).Failure? && op(|sleeps|).error.IsRetryable() ==>
              || |sleeps| == maxRetries
              || Delay(|sleeps|) >= U64_SIZE
              || (cap.Some? && Delay(|sleeps|) > cap.value)
  {
    var k := |sleeps|;
    forall i: nat | i < k
      ensures op(i).Failure? && op(i).error.IsRetryable() && (cap.Some? ==> sleeps[i] <= cap.value)
    {
      assert IsRetried(op, i, maxRetries, cap);
    }
    if k > 0 {
      assert IsRetried(op, k - 1, maxRetries, cap);
    }
    DelaysSum(sleeps);
    PowerGrows(2, k, maxRetries);
  }

  ghost predicate CanOverflow(maxRetries: nat, cap: Option<nat>) {
    exists op: nat -> Answer<()>, k: nat ::
      StopsAfter(op, k, maxRetries, cap) && WantsRetry(op, k, maxRetries) && Delay(k) >= U64_SIZE
  }

  function AlwaysBusy(k: nat): Answer<()> { Failure(Overloaded("")) }

  /** The delay can overflow exactly when more than 58 retries are allowed and no cap below
      100 * 2^57 ms is set. */
  lemma OverflowsExactlyWhen(maxRetries: nat, cap: Option<nat>)
    ensures CanOverflow(maxRetries, cap) <==> maxRetries > 58 && (cap.Some? ==> cap.value >= Delay(57))
  {
    LastDelay();
    if maxRetries > 58 && (cap.Some? ==> cap.value >= Delay(57)) {
      forall i: nat | i < 58
        ensures IsRetried(AlwaysBusy, i, maxRetries, cap)
      {
        PowerGrows(2, i, 57);
      }
      assert StopsAfter(AlwaysBusy, 58, maxRetries, cap) && WantsRetry(AlwaysBusy, 58, maxRetries);
    }
    forall op: nat -> Answer<()>, k: nat |
      StopsAfter(op, k, maxRetries, cap) && WantsRetry(op, k, maxRetries) && Delay(k) >= U64_SIZE
      ensures maxRetries > 58 && (cap.Some? ==> cap.value >= Delay(57))
    {
      if k < 58 {
        PowerGrows(2, k, 57);
      } else {
        assert IsRetried(op, 57, maxRetries, cap);
      }
    }
  }

  /** The kinds of error that are retried: rate limits, overload, timeouts, and stream errors of
      the network; and none of the others. */
  lemma RetriedKinds(e: LlmError)
    ensures match e
            case RateLimited(_) => e.IsRetryable()
            case Overloaded(_) => e.IsRetryable()
            case Timeout(_) => e.IsRetryable()
            case StreamError(kind, _) => e.IsRetryable() <==> kind == Network
            case InvalidRequest(_) => !e.IsRetryable()
            case ProviderError(_) => !e.IsRetryable()
            case AuthError(_) => !e.IsRetryable()
            case ContextOverflow(_) => !e.IsRetryable()
            case Cancelled => !e.IsRetryable()
            case Serialization(_) => !e.IsRetryable()
            case UnknownProvider(_) => !e.IsRetryable()
  {}

  /** Whether call `k` is followed by another, in plain terms: retries are left, its error is of
      a kind that is retried, and 100 * 2^k ms fit in 64 bits and are within the cap. */
  lemma RetriedExactlyWhen<S>(op: nat -> Answer<S>, k: nat, maxRetries: nat, cap: Option<nat>)
    ensures IsRetried(op, k, maxRetries, cap) <==>
            && k < maxRetries
            && op(k).Failure?
            && (op(k).error.RateLimited? || op(k).error.Overloaded? || op(k).error.Timeout?
                || (op(k).error.StreamError? && op(k).error.kind.Network?))
            && 100 * Power(2, k) < 0x1_0000_0000_0000_0000
            && (cap.Some? ==> 100 * Power(2, k) <= cap.value)
  {}
}
