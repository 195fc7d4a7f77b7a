/**
 When the circuit breaker opens, and when a send stops retrying (packages/supplier-sdk/src/transport.ts),
 told from the records and attempts alone.
 */
module BreakerLaws {
  import opened Numbers
  import opened SupplierTransport

  // ---------------------------------------------------------------------------
  // When it opens

  const DEFAULT_CIRCUIT_BREAKER_OPTIONS := BreakerOptions(5, 30000)

  /** The failures that open a closed breaker; one always suffices below that. */
  function Limit(options: BreakerOptions): int {
    if options.failureThreshold > 1 then options.failureThreshold else 1
  }

  /** Failure records among these calls; inconclusive ones and admissions do not count. */
  function Failures(calls: seq<BreakerCall>): nat {
    if calls == [] then 0 else Failures(calls[..|calls| - 1]) + if calls[|calls| - 1].RecordFailure? then 1 else 0
  }

  /** The calls after the last success, all of them if there was none. */
  function SinceSuccess(calls: seq<BreakerCall>): seq<BreakerCall> {
    if calls == [] || calls[|calls| - 1] == RecordSuccess then [] else SinceSuccess(calls[..|calls| - 1]) + [calls[|calls| - 1]]
  }

  lemma FailuresOneMore(calls: seq<BreakerCall>, call: BreakerCall)
    ensures Failures(calls + [call]) == Failures(calls) + if call.RecordFailure? then 1 else 0
  {
    assert (calls + [call])[..|calls|] == calls;
  }

  /** Closed exactly below the limit, having counted each failure. */
  predicate Counts(options: BreakerOptions, b: Breaker, failures: nat) {
    (b.state == Closed <==> failures < Limit(options)) && (b.state == Closed ==> b.consecutiveFailures == failures)
  }

  lemma OneMoreCounts(options: BreakerOptions, b: Breaker, failures: nat, call: BreakerCall)
    requires Counts(options, b, failures)
    ensures Counts(options, After(options, b, call), if call == RecordSuccess then 0 else if call.RecordFailure? then failures + 1 else failures)
  {
  }

  lemma SinceSuccessOneMore(calls: seq<BreakerCall>)
    requires calls != []
    ensures var failures, call := Failures(SinceSuccess(calls[..|calls| - 1])), calls[|calls| - 1];
            Failures(SinceSuccess(calls)) == if call == RecordSuccess then 0 else if call.RecordFailure? then failures + 1 else failures
  {
    FailuresOneMore(SinceSuccess(calls[..|calls| - 1]), calls[|calls| - 1]);
  }

  /**
   After any calls a breaker is closed exactly if fewer failures than the limit were recorded since the
   last success, and then it has counted each of them. Only a success closes it once it has opened.
   */
  lemma {:induction false} ClosedIffFewFailures(options: BreakerOptions, calls: seq<BreakerCall>)
    ensures Counts(options, AfterAll(options, FRESH, calls), Failures(SinceSuccess(calls)))
  {
    if calls != [] {
      var init, call := calls[..|calls| - 1], calls[|calls| - 1];
      ClosedIffFewFailures(options, init);
      SinceSuccessOneMore(calls);
      OneMoreCounts(options, AfterAll(options, FRESH, init), Failures(SinceSuccess(init)), call);
    }
  }

  ghost predicate NoSuccess(calls: seq<BreakerCall>) {
    forall i :: 0 <= i < |calls| ==> calls[i] != RecordSuccess
  }

  ghost predicate NoAdmission(calls: seq<BreakerCall>) {
    forall i :: 0 <= i < |calls| ==> !calls[i].AssertCanCall?
  }

  /** Below the limit failures only count, and no state changes. */
  lemma {:induction false} FailuresCount(options: BreakerOptions, b: Breaker, calls: seq<BreakerCall>)
    requires b.state == Closed || (b.state == Open && NoAdmission(calls))
    requires b.consecutiveFailures == 0 && NoSuccess(calls) && Failures(calls) < Limit(options)
    ensures var b' := AfterAll(options, b, calls);
            b'.state == b.state && b'.openedAt == b.openedAt && b'.consecutiveFailures == Failures(calls)
  {
    if calls != [] {
      FailuresCount(options, b, calls[..|calls| - 1]);
    }
  }

  /**
   Of the failures recorded without a success in between, exactly the one that reaches the limit opens the
   breaker, at its own instant, and the count starts over; a breaker that is open already is opened anew.
   */
  lemma LimitOpens(options: BreakerOptions, b: Breaker, calls: seq<BreakerCall>, now: int)
    requires b.state == Closed || (b.state == Open && NoAdmission(calls))
    requires b.consecutiveFailures == 0 && NoSuccess(calls) && Failures(calls) < Limit(options)
    ensures var b' := AfterAll(options, b, calls + [RecordFailure(now)]);
            if Failures(calls + [RecordFailure(now)]) >= Limit(options)
            then b' == Breaker(Open, 0, now, false)
            else b'.state == b.state && b'.openedAt == b.openedAt && b'.consecutiveFailures == Failures(calls) + 1
  {
    FailuresCount(options, b, calls);
    FailuresOneMore(calls, RecordFailure(now));
    AfterAllOneMore(options, b, calls, RecordFailure(now));
  }

  /** In half-open the probe decides: its failure opens the breaker at once, its success closes it, and an inconclusive end frees the slot alone. */
  lemma ProbeDecides(options: BreakerOptions, b: Breaker, call: BreakerCall)
    requires b.state == HalfOpen && !call.AssertCanCall?
    ensures var b' := After(options, b, call);
            && !b'.probeInFlight
            && (b'.state == Open <==> call.RecordFailure?) && (b'.state == Open ==> b'.openedAt == call.now && b'.consecutiveFailures == 0)
            && (b'.state == Closed <==> call.RecordSuccess?) && (b'.state == Closed ==> b'.consecutiveFailures == 0)
            && (call == RecordInconclusive ==> b'.(probeInFlight := true) == b.(probeInFlight := true))
  {
  }

  /** A call goes out while closed, as the one probe once the cooldown has passed, and in half-open while no probe is out. */
  lemma AdmissionIs(options: BreakerOptions, b: Breaker, now: int)
    ensures var (b', admitted) := Admit(options, b, now);
            && (admitted <==> || b.state == Closed
                              || (b.state == Open && b.openedAt + options.cooldownMs <= now)
                              || (b.state == HalfOpen && !b.probeInFlight))
            && (!admitted ==> b' == b)
            && (admitted && b.state == Closed ==> b' == b)
            && (admitted && b.state != Closed ==> b' == b.(state := HalfOpen, probeInFlight := true))
  {
  }

  /** By default the fifth failure in a row opens it for thirty seconds, and the fourth does not. */
  lemma FifthFailureOpens(a: int, b: int, c: int, d: int, e: int, now: int)
    ensures var four := [RecordFailure(a), RecordFailure(b), RecordFailure(c), RecordFailure(d)];
            && Admit(DEFAULT_CIRCUIT_BREAKER_OPTIONS, AfterAll(DEFAULT_CIRCUIT_BREAKER_OPTIONS, FRESH, four), now).1
            && (Admit(DEFAULT_CIRCUIT_BREAKER_OPTIONS, AfterAll(DEFAULT_CIRCUIT_BREAKER_OPTIONS, FRESH, four + [RecordFailure(e)]), now).1
                <==> e + 30000 <= now)
  {
    var four := [RecordFailure(a), RecordFailure(b), RecordFailure(c), RecordFailure(d)];
    FailuresOneMore([], four[0]);
    FailuresOneMore([four[0]], four[1]);
    FailuresOneMore([four[0], four[1]], four[2]);
    FailuresOneMore([four[0], four[1], four[2]], four[3]);
    assert [] + [four[0]] == [four[0]] && [four[0]] + [four[1]] == [four[0], four[1]];
    assert [four[0], four[1]] + [four[2]] == [four[0], four[1], four[2]] && [four[0], four[1], four[2]] + [four[3]] == four;
    FailuresCount(DEFAULT_CIRCUIT_BREAKER_OPTIONS, FRESH, four);
    FailuresOneMore(four, RecordFailure(e));
    LimitOpens(DEFAULT_CIRCUIT_BREAKER_OPTIONS, FRESH, four, e);
  }

  // ---------------------------------------------------------------------------
  // The same for sends that share it

  lemma SharedClosedIff(options: BreakerOptions, steps: seq<SharedStep>)
    ensures Counts(options, SharedRun(options, IDLE, steps).breaker, Failures(SinceSuccess(CallsOf(options, IDLE, steps))))
  {
    RunsAreCalls(options, IDLE, steps);
    ClosedIffFewFailures(options, CallsOf(options, IDLE, steps));
  }

  // ---------------------------------------------------------------------------
  // When a send stops

  lemma ShareIsLess(random: real, whole: real)
    requires 0.0 <= random < 1.0 && whole >= 0.0
    ensures 0.0 <= random * whole <= whole && (whole > 0.0 ==> random * whole < whole)
  {
    assert whole - random * whole == (1.0 - random) * whole;
  }

  lemma FloorOfShare(random: real, ceiling: int)
    requires 0.0 <= random < 1.0 && ceiling >= 0
    ensures 0 <= (random * ceiling as real).Floor <= ceiling && (ceiling > 0 ==> (random * ceiling as real).Floor < ceiling)
  {
    ShareIsLess(random, ceiling as real);
    var share := random * ceiling as real;
    assert 0.0 <= share <= ceiling as real;
    if ceiling > 0 {
      assert ceiling as real > 0.0;
      assert share < ceiling as real;
    }
  }

  lemma DoublingKeepsSign(base: int, attempt: nat)
    requires base >= 0
    ensures base * PowerOfTwo(attempt) >= 0
  {
  }

  /** The delay drawn is never negative, and never past the doubled base or the cap. */
  lemma DelayIsBounded(retry: RetryPolicy, attempt: nat, random: real)
    requires attempt >= 1 && 0.0 <= random < 1.0 && retry.baseDelayMs >= 0 && retry.maxDelayMs >= 0
    ensures var delay, doubled := BackoffDelay(retry, attempt, random), retry.baseDelayMs * PowerOfTwo(attempt - 1);
            0 <= delay <= retry.maxDelayMs && delay <= doubled && (retry.maxDelayMs > 0 && doubled > 0 ==> delay < retry.maxDelayMs && delay < doubled)
  {
    DoublingKeepsSign(retry.baseDelayMs, attempt - 1);
    FloorOfShare(random, BackoffCeiling(retry, attempt));
  }

  /** Only timeouts, rate limits and the listed statuses are retried, while attempts are left and the delay ends before the deadline. */
  lemma RetriedIff(retry: RetryPolicy, maxAttempts: int, deadline: int, attempt: nat, a: Attempt)
    requires attempt >= 1
    ensures TriesAgain(retry, maxAttempts, deadline, attempt, a)
            <==> && attempt < maxAttempts && a.answeredAt + BackoffDelay(retry, attempt, a.random) < deadline
                 && (a.answer in {Errored(SupplierTimeout), Errored(RateLimited)}
                     || (a.answer.Responded? && a.answer.status in retry.retryableStatuses))
  {
  }

  /**
   How the loop ends: every attempt but the last was retried, and either the last one is not, and its
   answer stands, or the next would start past the deadline, which reads as a timeout.
   */
  ghost predicate EndsWith(retry: RetryPolicy, maxAttempts: int, deadline: int, world: nat -> Attempt, answer: Answer, made: nat) {
    && (forall k: nat :: 1 <= k <= made ==> world(k).startAt < deadline)
    && (forall k: nat :: 1 <= k < made ==> TriesAgain(retry, maxAttempts, deadline, k, world(k)))
    && (|| (made >= 1 && !TriesAgain(retry, maxAttempts, deadline, made, world(made)) && answer == world(made).answer)
        || ((made >= 1 ==> TriesAgain(retry, maxAttempts, deadline, made, world(made)))
            && world(made + 1).startAt >= deadline && answer == Errored(SupplierTimeout)))
  }

  lemma {:induction false} LoopFrom(retry: RetryPolicy, maxAttempts: int, deadline: int, world: nat -> Attempt, attempt: nat, answer: Answer, made: nat)
    requires attempt >= 1
    requires forall k: nat :: 1 <= k < attempt ==> world(k).startAt < deadline && TriesAgain(retry, maxAttempts, deadline, k, world(k))
    ensures Attempts(retry, maxAttempts, deadline, world, attempt) == (answer, made) <==> EndsWith(retry, maxAttempts, deadline, world, answer, made)
    decreases maxAttempts - attempt
  {
    var a := world(attempt);
    if a.startAt < deadline && TriesAgain(retry, maxAttempts, deadline, attempt, a) {
      LoopFrom(retry, maxAttempts, deadline, world, attempt + 1, answer, made);
    } else if EndsWith(retry, maxAttempts, deadline, world, answer, made) {
      assert made < attempt + 1;
    }
  }

  /** A send retries as long as it may and stops as soon as it must: the loop's end determines answer and attempts. */
  lemma SendStopsExactly(retry: RetryPolicy, maxAttempts: int, deadline: int, world: nat -> Attempt, answer: Answer, made: nat)
    ensures Attempts(retry, maxAttempts, deadline, world, 1) == (answer, made) <==> EndsWith(retry, maxAttempts, deadline, world, answer, made)
  {
    LoopFrom(retry, maxAttempts, deadline, world, 1, answer, made);
  }
}
