/**
 Retry with geometric backoff, on one endpoint and across an ordered list of endpoints.  The
 operation is stateful, so its answers are given by call number; sleeps are nominal milliseconds,
 before jitter.
 */
module Retry {
  import opened Prelude

  const FALLBACK_ATTEMPTS: nat := 6
  const BASE_BACKOFF_MS: nat := 4_000
  const MAX_BACKOFF_MS: nat := 64_000

  /** The shifted value before the cap is applied. */
  function Shifted(attempt: nat): nat {
    BASE_BACKOFF_MS * Pow2(Min(attempt, 31))
  }

  function Backoff(attempt: nat): nat {
    Min(Shifted(attempt), MAX_BACKOFF_MS)
  }

  function TotalBackoff(attempts: nat): nat {
    if attempts == 0 then 0 else TotalBackoff(attempts - 1) + Backoff(attempts - 1)
  }

  lemma {:induction false} Pow2Grows(j: nat, k: nat)
    requires j <= k
    ensures 0 < Pow2(j) <= Pow2(k)
    decreases k
  {
    if j < k {
      Pow2Grows(j, k - 1);
    } else if k > 0 {
      Pow2Grows(k - 1, k - 1);
    }
  }

  /** Never below 4 s nor above 64 s, never shrinking, and the shift never leaves 64 bits. */
  lemma BackoffSchedule(j: nat, k: nat)
    requires j <= k
    ensures BASE_BACKOFF_MS <= Backoff(j) <= Backoff(k) <= MAX_BACKOFF_MS
    ensures k <= 4 ==> Backoff(k) == BASE_BACKOFF_MS * Pow2(k)
    ensures k >= 4 ==> Backoff(k) == MAX_BACKOFF_MS
    ensures Shifted(k) <= U64_MAX
  {
    Pow2Grows(0, Min(j, 31));
    Pow2Grows(Min(j, 31), Min(k, 31));
    Pow2Grows(Min(k, 31), 31);
    if k <= 4 {
      Pow2Grows(k, 4);
    } else {
      Pow2Grows(4, Min(k, 31));
    }
    assert Pow2(4) == 16;
    assert Pow2(31) == 0x8000_0000 by {
      Pow2Sum(15, 16);
      Pow2Sum(8, 8);
      Pow2Sum(7, 8);
      Pow2Sum(4, 4);
      Pow2Sum(3, 4);
    }
  }

  lemma {:induction false} Pow2Sum(j: nat, k: nat)
    ensures Pow2(j + k) == Pow2(j) * Pow2(k)
  {
    if k > 0 {
      Pow2Sum(j, k - 1);
    }
  }

  /** A nominal delay times a random factor near one; rounding is left out. */
  function Jittered(attempt: nat, factor: real): real {
    Backoff(attempt) as real * factor
  }

  predicate IsJitter(factor: real) { 0.8 <= factor < 1.2 }

  lemma Spread(b: real, f: real)
    requires b > 0.0 && IsJitter(f)
    ensures 0.8 * b <= b * f < 1.2 * b
  {
    assert b * (f - 0.8) >= 0.0 && b * (1.2 - f) > 0.0;
  }

  /** Every sleep is between 3.2 s and 76.8 s, and before the cap no jitter lets a retry wait less than the last. */
  lemma JitterKeepsOrder(j: nat, k: nat, f: real, g: real)
    requires j < k && IsJitter(f) && IsJitter(g)
    ensures 3_200.0 <= Jittered(j, f) < 76_800.0
    ensures k <= 4 ==> Jittered(j, f) < Jittered(k, g)
  {
    BackoffSchedule(j, k);
    Spread(Backoff(j) as real, f);
    Spread(Backoff(k) as real, g);
    if k <= 4 {
      BackoffSchedule(j, j);
      Pow2Grows(j + 1, k);
      assert Backoff(k) >= 2 * Backoff(j);
    }
  }

  lemma ExhaustedEndpointSleeps()
    ensures TotalBackoff(FALLBACK_ATTEMPTS - 1) == 124_000
  {
    BackoffSchedule(0, 0);
    BackoffSchedule(1, 1);
    BackoffSchedule(2, 2);
    BackoffSchedule(3, 3);
    BackoffSchedule(4, 4);
    assert TotalBackoff(3) == 28_000;
  }

  predicate Final<T, E>(answer: Result<T, E>, isTransient: E -> bool) {
    answer.Ok? || !isTransient(answer.error)
  }

  /** A linear search of the first `limit` answers for one that ends the retrying. */
  ghost predicate IsSearch<T, E>(
    answers: seq<Result<T, E>>, isTransient: E -> bool, limit: nat, calls: nat, r: Result<T, E>)
    requires limit <= |answers|
  {
    && 0 < calls <= limit
    && r == answers[calls - 1]
    && (forall k :: 0 <= k < calls - 1 ==> !Final(answers[k], isTransient))
    && (calls == limit || Final(r, isTransient))
  }

  /** Zero attempts still make one call, as the source's loop does. */
  method RetryAsync<T, E>(attempts: nat, isTransient: E -> bool, answers: seq<Result<T, E>>)
    returns (r: Result<T, E>, calls: nat, slept: nat)
    requires |answers| >= attempts && |answers| > 0
    ensures IsSearch(answers, isTransient, if attempts == 0 then 1 else attempts, calls, r)
    ensures slept == TotalBackoff(calls - 1)
  {
    var attempt := 0;
    calls, slept := 0, 0;
    while true
      invariant calls == attempt && slept == TotalBackoff(attempt)
      invariant attempt < |answers| && (attempt == 0 || attempt < attempts)
      invariant forall k :: 0 <= k < attempt ==> !Final(answers[k], isTransient)
      decreases |answers| - attempt
    {
      r := answers[attempt];
      calls := calls + 1;
      if r.Err? && attempt + 1 < attempts && isTransient(r.error) {
        slept := slept + Backoff(attempt);
        attempt := attempt + 1;
      } else {
        return;
      }
    }
  }

  /** The endpoint and attempt of the k-th call. */
  function Slot(k: nat): (nat, nat) {
    (k / FALLBACK_ATTEMPTS, k % FALLBACK_ATTEMPTS)
  }

  predicate InOrder(calls: seq<(nat, nat)>) {
    forall k :: 0 <= k < |calls| ==> calls[k] == Slot(k)
  }

  lemma SlotOf(endpoint: nat, attempt: nat)
    requires attempt < FALLBACK_ATTEMPTS
    ensures Slot(FALLBACK_ATTEMPTS * endpoint + attempt) == (endpoint, attempt)
  {
  }

  /** Nominal sleep before call `k`: 124 s per exhausted endpoint, then this endpoint's backoffs. */
  function SleptBefore(slot: (nat, nat)): nat {
    124_000 * slot.0 + TotalBackoff(slot.1)
  }

  lemma SleepStep(endpoint: nat, attempt: nat)
    requires attempt < FALLBACK_ATTEMPTS
    ensures attempt + 1 < FALLBACK_ATTEMPTS ==>
              SleptBefore((endpoint, attempt + 1)) == SleptBefore((endpoint, attempt)) + Backoff(attempt)
    ensures attempt + 1 == FALLBACK_ATTEMPTS ==> SleptBefore((endpoint + 1, 0)) == SleptBefore((endpoint, attempt))
  {
    ExhaustedEndpointSleeps();
  }

  /** Calls go endpoint by endpoint, attempt by attempt, and stop at the first final answer. */
  method RetryWithFallback<T, E>(endpoints: nat, isTransient: E -> bool, answers: seq<Result<T, E>>)
    returns (r: Result<T, E>, calls: seq<(nat, nat)>, slept: nat)
    requires endpoints > 0 && |answers| == FALLBACK_ATTEMPTS * endpoints
    ensures IsSearch(answers, isTransient, FALLBACK_ATTEMPTS * endpoints, |calls|, r)
    ensures InOrder(calls)
    ensures slept == SleptBefore(Slot(|calls| - 1))
  {
    var finalError: Option<E> := None;
    calls, slept := [], 0;
    for endpoint := 0 to endpoints
      invariant |calls| == FALLBACK_ATTEMPTS * endpoint && InOrder(calls)
      invariant forall k :: 0 <= k < |calls| ==> !Final(answers[k], isTransient)
      invariant slept == SleptBefore((endpoint, 0))
      invariant endpoint > 0 ==> finalError.Some? && answers[|calls| - 1] == Err(finalError.value)
    {
      for attempt := 0 to FALLBACK_ATTEMPTS
        invariant |calls| == FALLBACK_ATTEMPTS * endpoint + attempt && InOrder(calls)
        invariant forall k :: 0 <= k < |calls| ==> !Final(answers[k], isTransient)
        invariant slept == SleptBefore(if attempt == FALLBACK_ATTEMPTS then (endpoint + 1, 0) else (endpoint, attempt))
        invariant attempt == FALLBACK_ATTEMPTS ==> finalError.Some? && answers[|calls| - 1] == Err(finalError.value)
      {
        SlotOf(endpoint, attempt);
        SleepStep(endpoint, attempt);
        r := answers[|calls|];
        calls := calls + [(endpoint, attempt)];
        if r.Ok? || !isTransient(r.error) {
          return;
        }
        if attempt + 1 < FALLBACK_ATTEMPTS {
          slept := slept + Backoff(attempt);
        } else {
          finalError := Some(r.error);
        }
      }
    }
    r := Err(finalError.value);
    SlotOf(endpoints - 1, FALLBACK_ATTEMPTS - 1);
    SleepStep(endpoints - 1, FALLBACK_ATTEMPTS - 1);
  }
}
