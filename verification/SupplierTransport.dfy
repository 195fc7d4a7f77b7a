/**
 The supplier HTTP client (packages/supplier-sdk/src/transport.ts): a circuit breaker shared by every
 send to one supplier account, and the retry loop of a single send.
 */
module SupplierTransport {
  import opened Numbers
  import opened Wrappers

  // ---------------------------------------------------------------------------
  // The breaker

  datatype CircuitState = Closed | Open | HalfOpen

  datatype Breaker = Breaker(state: CircuitState, consecutiveFailures: int, openedAt: int, probeInFlight: bool)

  datatype BreakerOptions = BreakerOptions(failureThreshold: int, cooldownMs: int)

  const FRESH := Breaker(Closed, 0, 0, false)

  /** What sends do to the breaker. */
  datatype BreakerCall = AssertCanCall(now: int) | RecordSuccess | RecordFailure(now: int) | RecordInconclusive

  function Trip(b: Breaker, now: int): Breaker {
    Breaker(Open, 0, now, false)
  }

  /** assertCanCall: the breaker afterwards, and whether the call may go out. */
  function Admit(options: BreakerOptions, b: Breaker, now: int): (Breaker, bool) {
    if b.state == Open && now - b.openedAt < options.cooldownMs then (b, false)
    else
      var probing := if b.state == Open then b.(state := HalfOpen, probeInFlight := false) else b;
      if probing.state != HalfOpen then (probing, true)
      else if probing.probeInFlight then (probing, false)
      else (probing.(probeInFlight := true), true)
  }

  function Failed(options: BreakerOptions, b: Breaker, now: int): Breaker {
    if b.state == HalfOpen then Trip(b, now)
    else
      var counted := b.(consecutiveFailures := b.consecutiveFailures + 1);
      if counted.consecutiveFailures >= options.failureThreshold then Trip(counted, now) else counted
  }

  function After(options: BreakerOptions, b: Breaker, call: BreakerCall): Breaker {
    match call
    case AssertCanCall(now) => Admit(options, b, now).0
    case RecordSuccess => b.(state := Closed, consecutiveFailures := 0, probeInFlight := false)
    case RecordFailure(now) => Failed(options, b, now)
    case RecordInconclusive => b.(probeInFlight := false)
  }

  function AfterAll(options: BreakerOptions, b: Breaker, calls: seq<BreakerCall>): Breaker {
    if calls == [] then b else After(options, AfterAll(options, b, calls[..|calls| - 1]), calls[|calls| - 1])
  }

  class CircuitBreaker {
    const options: BreakerOptions
    var state: CircuitState
    var consecutiveFailures: int
    var openedAt: int
    var probeInFlight: bool

    constructor (options: BreakerOptions)
      ensures this.options == options && Contents() == FRESH
    {
      this.options, state, consecutiveFailures, openedAt, probeInFlight := options, Closed, 0, 0, false;
    }

    function Contents(): Breaker
      reads this
    {
      Breaker(state, consecutiveFailures, openedAt, probeInFlight)
    }

    method CheckCanCall(now: int) returns (admitted: bool)
      modifies this
      ensures (Contents(), admitted) == Admit(options, old(Contents()), now)
    {
      if state == Open {
        if now - openedAt >= options.cooldownMs {
          state, probeInFlight := HalfOpen, false;
        } else {
          return false;
        }
      }
      if state == HalfOpen {
        if probeInFlight {
          return false;
        }
        probeInFlight := true;
      }
      admitted := true;
    }

    method Succeed()
      modifies this
      ensures Contents() == After(options, old(Contents()), RecordSuccess)
    {
      state, consecutiveFailures, probeInFlight := Closed, 0, false;
    }

    method Fail(now: int)
      modifies this
      ensures Contents() == After(options, old(Contents()), RecordFailure(now))
    {
      if state == HalfOpen {
        TripAt(now);
        return;
      }
      consecutiveFailures := consecutiveFailures + 1;
      if consecutiveFailures >= options.failureThreshold {
        TripAt(now);
      }
    }

    method Inconclusive()
      modifies this
      ensures Contents() == After(options, old(Contents()), RecordInconclusive)
    {
      probeInFlight := false;
    }

    method TripAt(now: int)
      modifies this
      ensures Contents() == Trip(old(Contents()), now)
    {
      state, openedAt, consecutiveFailures, probeInFlight := Open, now, 0, false;
    }

    /** Calls of other sends that share this breaker. */
    method OthersCall(calls: seq<BreakerCall>)
      modifies this
      ensures Contents() == AfterAll(options, old(Contents()), calls)
    {
      var i := 0;
      while i < |calls|
        invariant 0 <= i <= |calls|
        invariant Contents() == AfterAll(options, old(Contents()), calls[..i])
      {
        assert calls[..i + 1][..i] == calls[..i];
        match calls[i] {
          case AssertCanCall(now) => var _ := CheckCanCall(now);
          case RecordSuccess => Succeed();
          case RecordFailure(now) => Fail(now);
          case RecordInconclusive => Inconclusive();
        }
        i := i + 1;
      }
      assert calls[..i] == calls;
    }
  }

  // ---------------------------------------------------------------------------
  // One send

  /** What a transport attempt can end in; any transport-level error reads as a supplier timeout. */
  datatype ErrorKind = SupplierTimeout | RateLimited | OtherSupplierError | ReplayMiss

  datatype Answer = Responded(status: int) | Errored(kind: ErrorKind)

  /** One attempt as the outside world plays it: clock readings, answer, and the jitter drawn afterwards. */
  datatype Attempt = Attempt(startAt: int, answer: Answer, answeredAt: int, random: real)

  datatype RetryPolicy = RetryPolicy(maxAttempts: int, baseDelayMs: int, maxDelayMs: int, retryableStatuses: set<int>)

  const DEFAULT_RETRY_POLICY := RetryPolicy(3, 200, 2000, {429, 502, 503, 504})

  function BackoffCeiling(retry: RetryPolicy, attempt: nat): int
    requires attempt >= 1
  {
    var doubled := retry.baseDelayMs * PowerOfTwo(attempt - 1);
    if retry.maxDelayMs < doubled then retry.maxDelayMs else doubled
  }

  function BackoffDelay(retry: RetryPolicy, attempt: nat, random: real): int
    requires attempt >= 1
  {
    (random * BackoffCeiling(retry, attempt) as real).Floor
  }

  /** Worth another attempt, were there time and attempts left. */
  predicate Retryable(retry: RetryPolicy, answer: Answer) {
    match answer
    case Responded(status) => status in retry.retryableStatuses
    case Errored(kind) => kind == SupplierTimeout || kind == RateLimited
  }

  predicate TriesAgain(retry: RetryPolicy, maxAttempts: int, deadline: int, attempt: nat, a: Attempt)
    requires attempt >= 1
  {
    Retryable(retry, a.answer) && attempt < maxAttempts && deadline - a.answeredAt > BackoffDelay(retry, attempt, a.random)
  }

  /** The loop from attempt number `attempt` on: its outcome and the number of attempts made in all. */
  function Attempts(retry: RetryPolicy, maxAttempts: int, deadline: int, world: nat -> Attempt, attempt: nat): (Answer, nat)
    requires attempt >= 1
    decreases maxAttempts - attempt
  {
    var a := world(attempt);
    if deadline - a.startAt <= 0 then (Errored(SupplierTimeout), attempt - 1)
    else if TriesAgain(retry, maxAttempts, deadline, attempt, a) then Attempts(retry, maxAttempts, deadline, world, attempt + 1)
    else (a.answer, attempt)
  }

  function MaxAttempts(retry: RetryPolicy, idempotent: bool): int {
    if idempotent then retry.maxAttempts else 1
  }

  /** The one record a send leaves. */
  function RecordOf(answer: Answer, now: int): BreakerCall {
    match answer
    case Errored(kind) => if kind == ReplayMiss then RecordInconclusive else RecordFailure(now)
    case Responded(status) => if status >= 500 then RecordFailure(now) else RecordSuccess
  }

  class SupplierHttpClient {
    const breaker: CircuitBreaker
    const retry: RetryPolicy

    constructor (breaker: CircuitBreaker, retry: RetryPolicy)
      ensures this.breaker == breaker && this.retry == retry
    {
      this.breaker, this.retry := breaker, retry;
    }

    method AttemptLoop(maxAttempts: int, deadline: int, world: nat -> Attempt) returns (answer: Answer, made: nat)
      ensures (answer, made) == Attempts(retry, maxAttempts, deadline, world, 1)
    {
      var attempt := 1;
      while true
        invariant attempt >= 1
        invariant Attempts(retry, maxAttempts, deadline, world, attempt) == Attempts(retry, maxAttempts, deadline, world, 1)
        decreases maxAttempts - attempt
      {
        var a := world(attempt);
        if deadline - a.startAt <= 0 {
          return Errored(SupplierTimeout), attempt - 1;
        }
        if !Retryable(retry, a.answer) || attempt >= maxAttempts {
          return a.answer, attempt;
        }
        var delay := BackoffDelay(retry, attempt, a.random);
        if deadline - a.answeredAt <= delay {
          return a.answer, attempt;
        }
        attempt := attempt + 1;
      }
    }

    /** None when the breaker refuses. `others` is what other sends do to the breaker in the meantime. */
    method Send(idempotent: bool, deadline: int, world: nat -> Attempt, admitAt: int, others: seq<BreakerCall>, recordAt: int)
      returns (answer: Option<Answer>, made: nat)
      modifies breaker
      ensures var before := old(breaker.Contents());
              var (admitted, allowed) := Admit(breaker.options, before, admitAt);
              var (outcome, attempts) := Attempts(retry, MaxAttempts(retry, idempotent), deadline, world, 1);
              if allowed then
                && answer == Some(outcome) && made == attempts
                && breaker.Contents() == After(breaker.options, AfterAll(breaker.options, admitted, others), RecordOf(outcome, recordAt))
              else
                answer == None && made == 0 && breaker.Contents() == admitted
    {
      var allowed := breaker.CheckCanCall(admitAt);
      if !allowed {
        return None, 0;
      }
      var result;
      result, made := AttemptLoop(MaxAttempts(retry, idempotent), deadline, world);
      breaker.OthersCall(others);
      match result {
        case Errored(kind) =>
          if kind == ReplayMiss {
            breaker.Inconclusive();
          } else {
            breaker.Fail(recordAt);
          }
        case Responded(status) =>
          if status >= 500 {
            breaker.Fail(recordAt);
          } else {
            breaker.Succeed();
          }
      }
      answer := Some(result);
    }
  }

  /**
   A send makes at most max(1, maxAttempts) attempts, one if it is not idempotent, each started before
   the deadline; every attempt but the last was worth retrying and left time to back off.
   */
  lemma {:induction false} AttemptsAreBounded(retry: RetryPolicy, maxAttempts: int, deadline: int, world: nat -> Attempt, attempt: nat)
    requires attempt >= 1
    ensures var (answer, made) := Attempts(retry, maxAttempts, deadline, world, attempt);
            && attempt - 1 <= made && (made <= attempt || made <= maxAttempts)
            && (forall k: nat :: attempt <= k <= made ==> world(k).startAt < deadline)
            && (forall k: nat :: attempt <= k < made ==> TriesAgain(retry, maxAttempts, deadline, k, world(k)))
            && (answer == Errored(SupplierTimeout) || (made >= attempt && answer == world(made).answer))
    decreases maxAttempts - attempt
  {
    var a := world(attempt);
    if deadline - a.startAt > 0 && TriesAgain(retry, maxAttempts, deadline, attempt, a) {
      AttemptsAreBounded(retry, maxAttempts, deadline, world, attempt + 1);
    }
  }

  lemma {:induction false} SendsAreBounded(retry: RetryPolicy, idempotent: bool, deadline: int, world: nat -> Attempt)
    ensures var (answer, made) := Attempts(retry, MaxAttempts(retry, idempotent), deadline, world, 1);
            && made <= (if idempotent && retry.maxAttempts > 1 then retry.maxAttempts else 1)
            && (made == 0 <==> world(1).startAt >= deadline)
            && (forall k: nat :: 1 <= k <= made ==> world(k).startAt < deadline)
  {
    AttemptsAreBounded(retry, MaxAttempts(retry, idempotent), deadline, world, 1);
    var a := world(1);
    if a.startAt < deadline && TriesAgain(retry, MaxAttempts(retry, idempotent), deadline, 1, a) {
      AttemptsAreBounded(retry, MaxAttempts(retry, idempotent), deadline, world, 2);
    }
  }

  // ---------------------------------------------------------------------------
  // Sends sharing one breaker

  /** The breaker and the admitted sends that have not recorded yet. */
  datatype Shared = Shared(breaker: Breaker, pending: set<nat>)

  datatype Outcome = Good | Bad | Unknown

  datatype SharedStep = Begin(send: nat, now: int) | Finish(send: nat, outcome: Outcome, now: int)

  function RecordFor(outcome: Outcome, now: int): BreakerCall {
    match outcome
    case Good => RecordSuccess
    case Bad => RecordFailure(now)
    case Unknown => RecordInconclusive
  }

  /** An admitted send finishes once; a refused or finished one has nothing to record. */
  function SharedNext(options: BreakerOptions, s: Shared, step: SharedStep): Shared {
    match step
    case Begin(send, now) =>
      if send in s.pending then s
      else
        var (breaker, admitted) := Admit(options, s.breaker, now);
        Shared(breaker, if admitted then s.pending + {send} else s.pending)
    case Finish(send, outcome, now) =>
      if send in s.pending then Shared(After(options, s.breaker, RecordFor(outcome, now)), s.pending - {send}) else s
  }

  function SharedRun(options: BreakerOptions, s: Shared, steps: seq<SharedStep>): Shared {
    if steps == [] then s else SharedNext(options, SharedRun(options, s, steps[..|steps| - 1]), steps[|steps| - 1])
  }

  const IDLE := Shared(FRESH, {})

  predicate Admits(options: BreakerOptions, s: Shared, step: SharedStep) {
    step.Begin? && step.send !in s.pending && Admit(options, s.breaker, step.now).1
  }

  /** The send that took the probe slot, if its record is still owed: the slot is never occupied without one. */
  ghost predicate BreakerInv(options: BreakerOptions, s: Shared, probe: Option<nat>) {
    && (s.breaker.probeInFlight <==> probe.Some?)
    && (probe.Some? ==> s.breaker.state == HalfOpen && probe.value in s.pending)
    && (options.failureThreshold >= 1 ==> 0 <= s.breaker.consecutiveFailures < options.failureThreshold)
    && s.breaker.consecutiveFailures >= 0
  }

  /** Who holds the probe slot after a step: the send it admits in half-open; any record frees it. */
  function ProbeAfter(options: BreakerOptions, s: Shared, probe: Option<nat>, step: SharedStep): Option<nat> {
    match step
    case Begin(send, now) =>
      if Admits(options, s, step) && Admit(options, s.breaker, now).0.state == HalfOpen then Some(send) else probe
    case Finish(send, _, _) => if send in s.pending then None else probe
  }

  lemma StepKeepsBreakerInv(options: BreakerOptions, s: Shared, probe: Option<nat>, step: SharedStep)
    requires BreakerInv(options, s, probe)
    ensures BreakerInv(options, SharedNext(options, s, step), ProbeAfter(options, s, probe, step))
  {
  }

  lemma {:induction false} SomeProbe(options: BreakerOptions, steps: seq<SharedStep>) returns (probe: Option<nat>)
    ensures BreakerInv(options, SharedRun(options, IDLE, steps), probe)
  {
    if steps == [] {
      probe := None;
    } else {
      var init, step := steps[..|steps| - 1], steps[|steps| - 1];
      var before := SomeProbe(options, init);
      StepKeepsBreakerInv(options, SharedRun(options, IDLE, init), before, step);
      probe := ProbeAfter(options, SharedRun(options, IDLE, init), before, step);
    }
  }

  /**
   In every interleaving: an occupied probe slot means half-open with an admitted send still to record,
   and the failure count stays below the threshold.
   */
  lemma {:induction false} ProbeIsAlwaysOwed(options: BreakerOptions, steps: seq<SharedStep>)
    ensures var s := SharedRun(options, IDLE, steps);
            && (s.breaker.probeInFlight ==> s.breaker.state == HalfOpen && s.pending != {})
            && (options.failureThreshold >= 1 ==> s.breaker.consecutiveFailures < options.failureThreshold)
  {
    var probe := SomeProbe(options, steps);
  }

  /** So the breaker cannot wedge: once every admitted send has recorded, it admits again from some instant on. */
  lemma {:induction false} BreakerNeverWedges(options: BreakerOptions, steps: seq<SharedStep>, send: nat, now: int)
    requires SharedRun(options, IDLE, steps).pending == {}
    requires now - SharedRun(options, IDLE, steps).breaker.openedAt >= options.cooldownMs
    ensures Admits(options, SharedRun(options, IDLE, steps), Begin(send, now))
  {
    var probe := SomeProbe(options, steps);
  }

  /** Steps that record nothing. */
  ghost predicate NothingRecorded(options: BreakerOptions, s: Shared, steps: seq<SharedStep>) {
    forall i :: 0 <= i < |steps| && steps[i].Finish? ==> steps[i].send !in SharedRun(options, s, steps[..i]).pending
  }

  /** Between two records half-open admits at most one call: once the probe is out, none follows it. */
  lemma {:induction false} HalfOpenAdmitsOne(options: BreakerOptions, s: Shared, probe: SharedStep, steps: seq<SharedStep>, i: nat)
    requires Admits(options, s, probe) && SharedNext(options, s, probe).breaker.state == HalfOpen
    requires NothingRecorded(options, SharedNext(options, s, probe), steps) && i < |steps|
    ensures !Admits(options, SharedRun(options, SharedNext(options, s, probe), steps[..i]), steps[i])
  {
    ProbeKeepsTheSlot(options, SharedNext(options, s, probe), steps, i);
  }

  lemma {:induction false} ProbeKeepsTheSlot(options: BreakerOptions, s: Shared, steps: seq<SharedStep>, i: nat)
    requires s.breaker.state == HalfOpen && s.breaker.probeInFlight && NothingRecorded(options, s, steps) && i <= |steps|
    ensures SharedRun(options, s, steps[..i]) == s
  {
    if i > 0 {
      ProbeKeepsTheSlot(options, s, steps, i - 1);
      assert steps[..i][..i - 1] == steps[..i - 1];
      assert steps[i - 1].Finish? ==> steps[i - 1].send !in SharedRun(options, s, steps[..i - 1]).pending;
    }
  }

  /** Steps from clock reading `from` on, in which every call begins before `until`. */
  ghost predicate Window(steps: seq<SharedStep>, from: int, until: int) {
    forall i :: 0 <= i < |steps| ==> from <= steps[i].now && (steps[i].Begin? ==> steps[i].now < until)
  }

  /** Step i is the success of a send whose record was still owed. */
  predicate RecordsSuccess(options: BreakerOptions, s: Shared, steps: seq<SharedStep>, i: nat) {
    i < |steps| && steps[i].Finish? && steps[i].outcome == Good && steps[i].send in SharedRun(options, s, steps[..i]).pending
  }

  /** While an open breaker cools down it never probes: it stays open until a stale success closes it, and may trip again. */
  lemma {:induction false} CoolingStates(options: BreakerOptions, s: Shared, steps: seq<SharedStep>, i: nat)
    requires s.breaker.state == Open && i <= |steps|
    requires Window(steps, s.breaker.openedAt, s.breaker.openedAt + options.cooldownMs)
    ensures var b := SharedRun(options, s, steps[..i]).breaker;
            && (b.state == Open || b.state == Closed) && (b.state == Open ==> b.openedAt >= s.breaker.openedAt)
            && (b.state == Closed ==> exists j: nat :: j < i && RecordsSuccess(options, s, steps, j))
  {
    if i > 0 {
      CoolingStates(options, s, steps, i - 1);
      assert steps[..i][..i - 1] == steps[..i - 1];
      var before, after := SharedRun(options, s, steps[..i - 1]).breaker, SharedRun(options, s, steps[..i]).breaker;
      if after.state == Closed && before.state == Open {
        assert RecordsSuccess(options, s, steps, i - 1);
      }
    }
  }

  lemma SuccessCloses(options: BreakerOptions, s: Shared, steps: seq<SharedStep>, i: nat)
    requires RecordsSuccess(options, s, steps, i)
    ensures SharedRun(options, s, steps[..i + 1]).breaker.state == Closed
  {
    assert steps[..i + 1][..i] == steps[..i];
  }

  /**
   Before its cooldown has passed an open breaker admits a call if and only if a send admitted before it
   opened has recorded a success by then: with none it refuses whatever else is recorded, and each one
   makes it admit.
   */
  lemma {:induction false} OpenRefusesUntilCooldown(options: BreakerOptions, s: Shared, steps: seq<SharedStep>, send: nat, now: int)
    requires s.breaker.state == Open
    requires Window(steps, s.breaker.openedAt, s.breaker.openedAt + options.cooldownMs)
    requires s.breaker.openedAt <= now < s.breaker.openedAt + options.cooldownMs
    requires forall i :: 0 <= i <= |steps| ==> send !in SharedRun(options, s, steps[..i]).pending
    ensures (exists i: nat :: i <= |steps| && Admits(options, SharedRun(options, s, steps[..i]), Begin(send, now)))
            <==> exists i: nat :: RecordsSuccess(options, s, steps, i)
    ensures forall i: nat :: i <= |steps| ==>
              (Admits(options, SharedRun(options, s, steps[..i]), Begin(send, now))
               <==> SharedRun(options, s, steps[..i]).breaker.state == Closed)
  {
    forall i: nat | i <= |steps|
      ensures Admits(options, SharedRun(options, s, steps[..i]), Begin(send, now)) <==> SharedRun(options, s, steps[..i]).breaker.state == Closed
    {
      CoolingStates(options, s, steps, i);
    }
    if exists i: nat :: i <= |steps| && Admits(options, SharedRun(options, s, steps[..i]), Begin(send, now)) {
      var i: nat :| i <= |steps| && Admits(options, SharedRun(options, s, steps[..i]), Begin(send, now));
      CoolingStates(options, s, steps, i);
    }
    if exists i: nat :: RecordsSuccess(options, s, steps, i) {
      var i: nat :| RecordsSuccess(options, s, steps, i);
      SuccessCloses(options, s, steps, i);
      assert i + 1 <= |steps| && Admits(options, SharedRun(options, s, steps[..i + 1]), Begin(send, now));
    }
  }

  lemma SharedRunOneMore(options: BreakerOptions, s: Shared, steps: seq<SharedStep>, step: SharedStep)
    ensures SharedRun(options, s, steps + [step]) == SharedNext(options, SharedRun(options, s, steps), step)
  {
    assert (steps + [step])[..|steps + [step]| - 1] == steps;
  }

  /** It happens: two sends go out, the first one's failure opens the breaker, the second one's success closes it at once. */
  lemma StaleSuccessAdmitsEarly(cooldownMs: int)
    requires cooldownMs > 2
    ensures var options := BreakerOptions(1, cooldownMs);
            var tripped := SharedRun(options, IDLE, [Begin(0, 0), Begin(1, 0), Finish(0, Bad, 1)]);
            var closed := SharedRun(options, IDLE, [Begin(0, 0), Begin(1, 0), Finish(0, Bad, 1)] + [Finish(1, Good, 2)]);
            && tripped.breaker.state == Open && tripped.breaker.openedAt == 1
            && !Admits(options, tripped, Begin(2, 3)) && Admits(options, closed, Begin(2, 3))
  {
    var options := BreakerOptions(1, cooldownMs);
    var a, b, c := Begin(0, 0), Begin(1, 0), Finish(0, Bad, 1);
    SharedRunOneMore(options, IDLE, [], a);
    assert [] + [a] == [a] && [a] + [b] == [a, b] && [a, b] + [c] == [a, b, c];
    SharedRunOneMore(options, IDLE, [a], b);
    SharedRunOneMore(options, IDLE, [a, b], c);
    SharedRunOneMore(options, IDLE, [a, b, c], Finish(1, Good, 2));
  }

  // ---------------------------------------------------------------------------
  // A send is a run

  /** The calls these steps make on the breaker. */
  function CallsOf(options: BreakerOptions, s: Shared, steps: seq<SharedStep>): seq<BreakerCall> {
    if steps == [] then []
    else
      var init, step := steps[..|steps| - 1], steps[|steps| - 1];
      var pending := SharedRun(options, s, init).pending;
      CallsOf(options, s, init)
      + match step
        case Begin(send, now) => if send in pending then [] else [AssertCanCall(now)]
        case Finish(send, outcome, now) => if send in pending then [RecordFor(outcome, now)] else []
  }

  lemma AfterAllOneMore(options: BreakerOptions, b: Breaker, calls: seq<BreakerCall>, call: BreakerCall)
    ensures AfterAll(options, b, calls + [call]) == After(options, AfterAll(options, b, calls), call)
  {
    assert (calls + [call])[..|calls|] == calls;
  }

  lemma {:induction false} RunsAreCalls(options: BreakerOptions, s: Shared, steps: seq<SharedStep>)
    ensures SharedRun(options, s, steps).breaker == AfterAll(options, s.breaker, CallsOf(options, s, steps))
  {
    if steps != [] {
      var init, step := steps[..|steps| - 1], steps[|steps| - 1];
      RunsAreCalls(options, s, init);
      var before := SharedRun(options, s, init);
      var calls := CallsOf(options, s, init);
      match step {
        case Begin(send, now) =>
          if send in before.pending {
            assert calls + [] == calls;
          } else {
            AfterAllOneMore(options, s.breaker, calls, AssertCanCall(now));
          }
        case Finish(send, outcome, now) =>
          if send in before.pending {
            AfterAllOneMore(options, s.breaker, calls, RecordFor(outcome, now));
          } else {
            assert calls + [] == calls;
          }
      }
    }
  }

  lemma {:induction false} OthersLeaveItPending(options: BreakerOptions, s: Shared, steps: seq<SharedStep>, send: nat)
    requires forall i :: 0 <= i < |steps| ==> steps[i].send != send
    ensures send in SharedRun(options, s, steps).pending <==> send in s.pending
  {
    if steps != [] {
      OthersLeaveItPending(options, s, steps[..|steps| - 1], send);
    }
  }

  function OutcomeOf(answer: Answer): Outcome {
    match answer
    case Errored(kind) => if kind == ReplayMiss then Unknown else Bad
    case Responded(status) => if status >= 500 then Bad else Good
  }

  /** An admitted send is a begin, whatever others do, and the finish that records its answer. */
  lemma SendIsARun(options: BreakerOptions, s: Shared, send: nat, answer: Answer, admitAt: int, others: seq<SharedStep>, recordAt: int)
    requires Admits(options, s, Begin(send, admitAt)) && forall i :: 0 <= i < |others| ==> others[i].send != send
    ensures var begun := SharedNext(options, s, Begin(send, admitAt));
            var s' := SharedNext(options, SharedRun(options, begun, others), Finish(send, OutcomeOf(answer), recordAt));
            && s'.breaker == After(options, AfterAll(options, Admit(options, s.breaker, admitAt).0, CallsOf(options, begun, others)),
                                   RecordOf(answer, recordAt))
            && s'.pending == SharedRun(options, begun, others).pending - {send}
  {
    var begun := SharedNext(options, s, Begin(send, admitAt));
    RunsAreCalls(options, begun, others);
    OthersLeaveItPending(options, begun, others, send);
    assert RecordFor(OutcomeOf(answer), recordAt) == RecordOf(answer, recordAt);
  }
}
