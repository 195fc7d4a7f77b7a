/**
 Polling of pending waits (packages/booking-engine/src/pending.ts): what a sweep considers due, how
 one poll settles, defers or escalates an item from the row it read, and why every wait ends.
 */
module PendingPoller {
  import opened BookingStates
  import opened CancellationPolicies
  import opened ItemRuns
  import opened Money
  import opened TransitionRunner
  import opened Wrappers

  // ---------------------------------------------------------------------------
  // Backoff

  datatype BackoffPolicy = BackoffPolicy(baseMs: int, factor: real, capMs: int, maxPendingAgeMs: int)

  const DEFAULT_PENDING_BACKOFF := BackoffPolicy(30000, 2.0, 600000, 1800000)

  function Power(x: real, k: nat): real {
    if k == 0 then 1.0 else x * Power(x, k - 1)
  }

  /** Math.round: half up. */
  function RoundHalfUp(x: real): int {
    (x + 0.5).Floor
  }

  function BackoffDelayMs(policy: BackoffPolicy, attempts: int): int {
    var delay := RoundHalfUp(policy.baseMs as real * Power(policy.factor, if attempts < 0 then 0 else attempts));
    if policy.capMs < delay then policy.capMs else delay
  }

  // ---------------------------------------------------------------------------
  // What is due

  datatype WaitKind = Confirmation | Cancellation | Reservation

  function WaitKindOf(item: ItemRow): WaitKind {
    if item.state == Quoted || item.state == ItemState.Reserved then Reservation
    else if item.state == PendingConfirmation then Confirmation
    else Cancellation
  }

  function WaitStartOf(item: ItemRow): int {
    var anchor := if WaitKindOf(item) == Confirmation then item.pendingSince else item.cancellationRequestedAt;
    if anchor.Some? then anchor.value else item.createdAt
  }

  predicate Waiting(item: ItemRow) {
    item.state == PendingConfirmation || (item.state == ItemState.Confirmed && item.cancellationRequestedAt.Some?)
  }

  /** The WHERE clause of duePendingItems. */
  predicate Due(policy: BackoffPolicy, item: ItemRow, now: int) {
    && (|| (Waiting(item) && (item.nextPollAt.None? || item.nextPollAt.value <= now))
        || (item.state in {Quoted, ItemState.Reserved} && item.updatedAt <= now - policy.maxPendingAgeMs))
    && item.escalatedAt.None?
  }

  // ---------------------------------------------------------------------------
  // One poll

  datatype SupplierStatus = SupplierConfirmed | SupplierCancelled | SupplierPending

  datatype Answer = RetrieveFailed | Reported(status: SupplierStatus, reference: string)

  datatype Outcome =
    | TransitionedConfirmed | TransitionedCancelled | StillPending | WasEscalated | RetrieveFailedOutcome
    | ConflictSkipped | ErrorOutcome

  /** The instants and ids one poll takes from outside: its clock, the runner's clock, a fresh group id. */
  datatype PollClock = PollClock(now: int, runnerNow: int, group: nat)

  /** penaltyFor: the stored policy's penalty, free read as zero; an invalid policy throws. */
  function PenaltyFor(item: ItemRow, at: int): Result<Money, PolicyError> {
    if ValidPolicy(item.policy) then Success(PenaltyOrZero(item.policy.rules, at, item.currency)) else Failure(InvalidPolicy)
  }

  function Settle(db: Db, id: nat, to: ItemState, ctx: TransitionContext, settled: Outcome): (Db, Outcome) {
    var (db', r) := Transition(db, id, to, ctx);
    match r
    case Success(_) => (db', settled)
    case Failure(e) => (db', if e.TransitionConflict? then ConflictSkipped else ErrorOutcome)
  }

  predicate Expired(policy: BackoffPolicy, row: ItemRow, now: int) {
    now - WaitStartOf(row) > policy.maxPendingAgeMs
  }

  function DeferOrEscalate(db: Db, id: nat, row: ItemRow, policy: BackoffPolicy, clock: PollClock, deferred: Outcome): (Db, Outcome) {
    if Expired(policy, row, clock.now) then (Escalate(db, id, clock.runnerNow).0, WasEscalated)
    else
      (RecordPollAttempt(db, id, row.pollAttempts + 1, clock.now + BackoffDelayMs(policy, row.pollAttempts)), deferred)
  }

  function SettleConfirmationWait(db: Db, id: nat, row: ItemRow, answer: Answer, policy: BackoffPolicy, clock: PollClock): (Db, Outcome)
    requires answer.Reported?
  {
    match answer.status
    case SupplierConfirmed =>
      var rearm := if row.cancellationRequestedAt.Some? then Some(Some(clock.now)) else None;
      Settle(db, id, ItemState.Confirmed,
             TransitionContext(PendingConfirmation, Patch(Some(answer.reference), None, rearm, None), None, clock.runnerNow, clock.group),
             TransitionedConfirmed)
    case SupplierCancelled =>
      if row.cancellationRequestedAt.None? then
        Settle(db, id, Cancelled, TransitionContext(PendingConfirmation, NO_PATCH, Some(None), clock.runnerNow, clock.group), TransitionedCancelled)
      else
        (match PenaltyFor(row, row.cancellationRequestedAt.value)
         case Failure(_) => (db, ErrorOutcome)
         case Success(penalty) =>
           Settle(db, id, Cancelled,
                  TransitionContext(PendingConfirmation, NO_PATCH, Some(Some(penalty)), clock.runnerNow, clock.group), TransitionedCancelled))
    case SupplierPending => DeferOrEscalate(db, id, row, policy, clock, StillPending)
  }

  function SettleCancellationWait(db: Db, id: nat, row: ItemRow, answer: Answer, policy: BackoffPolicy, clock: PollClock): (Db, Outcome)
    requires answer.Reported?
  {
    if answer.status == SupplierCancelled then
      var requestedAt := if row.cancellationRequestedAt.Some? then row.cancellationRequestedAt.value else clock.now;
      match PenaltyFor(row, requestedAt)
      case Failure(_) => (db, ErrorOutcome)
      case Success(penalty) =>
        Settle(db, id, Cancelled,
               TransitionContext(ItemState.Confirmed, NO_PATCH, Some(Some(penalty)), clock.runnerNow, clock.group), TransitionedCancelled)
    else DeferOrEscalate(db, id, row, policy, clock, StillPending)
  }

  /** pollItem: decides from `row`, the row the sweep read, against the database as it is now. */
  function PollItem(db: Db, id: nat, row: ItemRow, answer: Answer, policy: BackoffPolicy, clock: PollClock): (Db, Outcome) {
    if WaitKindOf(row) == Reservation || row.supplierReference.None? then (Escalate(db, id, clock.runnerNow).0, WasEscalated)
    else if answer.RetrieveFailed? then DeferOrEscalate(db, id, row, policy, clock, RetrieveFailedOutcome)
    else if WaitKindOf(row) == Confirmation then SettleConfirmationWait(db, id, row, answer, policy, clock)
    else SettleCancellationWait(db, id, row, answer, policy, clock)
  }

  class PendingConfirmationPoller {
    const runner: BookingTransitionRunner
    const policy: BackoffPolicy

    constructor (runner: BookingTransitionRunner, policy: BackoffPolicy)
      ensures this.runner == runner && this.policy == policy
    {
      this.runner, this.policy := runner, policy;
    }

    method Poll(id: nat, row: ItemRow, answer: Answer, clock: PollClock) returns (outcome: Outcome)
      modifies runner.db
      ensures (runner.db.Contents(), outcome) == PollItem(old(runner.db.Contents()), id, row, answer, policy, clock)
    {
      var kind := WaitKindOf(row);
      if kind == Reservation || row.supplierReference.None? {
        var _ := runner.EscalateItem(id, clock.runnerNow);
        return WasEscalated;
      }
      if answer.RetrieveFailed? {
        var escalated := Defer(id, row, clock);
        return if escalated then WasEscalated else RetrieveFailedOutcome;
      }
      if kind == Confirmation {
        outcome := ConfirmationAnswered(id, row, answer, clock);
      } else {
        outcome := CancellationAnswered(id, row, answer, clock);
      }
    }

    method ConfirmationAnswered(id: nat, row: ItemRow, answer: Answer, clock: PollClock) returns (outcome: Outcome)
      requires answer.Reported?
      modifies runner.db
      ensures (runner.db.Contents(), outcome) == SettleConfirmationWait(old(runner.db.Contents()), id, row, answer, policy, clock)
    {
      match answer.status
      case SupplierConfirmed =>
        var cancelPending := row.cancellationRequestedAt.Some?;
        var rearm := if cancelPending then Some(Some(clock.now)) else None;
        var r := runner.TransitionItem(id, ItemState.Confirmed,
          TransitionContext(PendingConfirmation, Patch(Some(answer.reference), None, rearm, None), None, clock.runnerNow, clock.group));
        outcome := Report(r, TransitionedConfirmed);
      case SupplierCancelled =>
        var penalty: Option<Money> := None;
        if row.cancellationRequestedAt.Some? {
          var resolved := PenaltyFor(row, row.cancellationRequestedAt.value);
          if resolved.Failure? {
            return ErrorOutcome;
          }
          penalty := Some(resolved.value);
        }
        var r := runner.TransitionItem(id, Cancelled,
          TransitionContext(PendingConfirmation, NO_PATCH, Some(penalty), clock.runnerNow, clock.group));
        outcome := Report(r, TransitionedCancelled);
      case SupplierPending =>
        var escalated := Defer(id, row, clock);
        outcome := if escalated then WasEscalated else StillPending;
    }

    method CancellationAnswered(id: nat, row: ItemRow, answer: Answer, clock: PollClock) returns (outcome: Outcome)
      requires answer.Reported?
      modifies runner.db
      ensures (runner.db.Contents(), outcome) == SettleCancellationWait(old(runner.db.Contents()), id, row, answer, policy, clock)
    {
      if answer.status == SupplierCancelled {
        var requestedAt := if row.cancellationRequestedAt.Some? then row.cancellationRequestedAt.value else clock.now;
        var resolved := PenaltyFor(row, requestedAt);
        if resolved.Failure? {
          return ErrorOutcome;
        }
        var r := runner.TransitionItem(id, Cancelled,
          TransitionContext(ItemState.Confirmed, NO_PATCH, Some(Some(resolved.value)), clock.runnerNow, clock.group));
        return Report(r, TransitionedCancelled);
      }
      var escalated := Defer(id, row, clock);
      outcome := if escalated then WasEscalated else StillPending;
    }

    /** How pollTenant reports what a transition returned or threw. */
    function Report(r: Result<TransitionOutcome, RunnerError>, settled: Outcome): Outcome {
      if r.Success? then settled else if r.error.TransitionConflict? then ConflictSkipped else ErrorOutcome
    }

    method Defer(id: nat, row: ItemRow, clock: PollClock) returns (escalated: bool)
      modifies runner.db
      ensures forall deferred :: (runner.db.Contents(), if escalated then WasEscalated else deferred)
                                 == DeferOrEscalate(old(runner.db.Contents()), id, row, policy, clock, deferred)
    {
      var ageMs := clock.now - WaitStartOf(row);
      if ageMs > policy.maxPendingAgeMs {
        var _ := runner.EscalateItem(id, clock.runnerNow);
        return true;
      }
      var attempts := row.pollAttempts + 1;
      runner.RecordPoll(id, attempts, clock.now + BackoffDelayMs(policy, row.pollAttempts));
      escalated := false;
    }
  }

  // ---------------------------------------------------------------------------
  // A poll is an operation

  lemma DeferringIsARun(db: Db, id: nat, row: ItemRow, policy: BackoffPolicy, clock: PollClock, deferred: Outcome) returns (ops: seq<Op>)
    ensures |ops| == 1 && DeferOrEscalate(db, id, row, policy, clock, deferred).0 == Run(db, ops)
  {
    var op := if Expired(policy, row, clock.now) then EscalateItem(id, clock.runnerNow)
              else RecordPoll(id, row.pollAttempts + 1, clock.now + BackoffDelayMs(policy, row.pollAttempts));
    OneStepRun(db, op);
    ops := [op];
  }

  lemma SettlingIsARun(db: Db, id: nat, to: ItemState, ctx: TransitionContext, settled: Outcome) returns (ops: seq<Op>)
    ensures |ops| == 1 && Settle(db, id, to, ctx, settled).0 == Run(db, ops)
  {
    ops := [Move(id, to, ctx)];
    OneStepRun(db, Move(id, to, ctx));
  }

  /** So what holds of every run of operations holds of databases that were polled. */
  lemma PollIsARun(db: Db, id: nat, row: ItemRow, answer: Answer, policy: BackoffPolicy, clock: PollClock) returns (ops: seq<Op>)
    ensures |ops| <= 1 && PollItem(db, id, row, answer, policy, clock).0 == Run(db, ops)
  {
    ops := [];
    if WaitKindOf(row) == Reservation || row.supplierReference.None? {
      OneStepRun(db, EscalateItem(id, clock.runnerNow));
      ops := [EscalateItem(id, clock.runnerNow)];
    } else if answer.RetrieveFailed? {
      ops := DeferringIsARun(db, id, row, policy, clock, RetrieveFailedOutcome);
    } else if WaitKindOf(row) == Confirmation {
      ops := ConfirmationIsARun(db, id, row, answer, policy, clock);
    } else {
      ops := CancellationIsARun(db, id, row, answer, policy, clock);
    }
  }

  lemma ConfirmationIsARun(db: Db, id: nat, row: ItemRow, answer: Answer, policy: BackoffPolicy, clock: PollClock) returns (ops: seq<Op>)
    requires answer.Reported?
    ensures |ops| <= 1 && SettleConfirmationWait(db, id, row, answer, policy, clock).0 == Run(db, ops)
  {
    ops := [];
    match answer.status {
      case SupplierConfirmed =>
        var rearm := if row.cancellationRequestedAt.Some? then Some(Some(clock.now)) else None;
        ops := SettlingIsARun(db, id, ItemState.Confirmed,
          TransitionContext(PendingConfirmation, Patch(Some(answer.reference), None, rearm, None), None, clock.runnerNow, clock.group),
          TransitionedConfirmed);
      case SupplierCancelled =>
        if row.cancellationRequestedAt.None? {
          ops := SettlingIsARun(db, id, Cancelled,
            TransitionContext(PendingConfirmation, NO_PATCH, Some(None), clock.runnerNow, clock.group), TransitionedCancelled);
        } else if PenaltyFor(row, row.cancellationRequestedAt.value).Success? {
          var penalty := PenaltyFor(row, row.cancellationRequestedAt.value).value;
          ops := SettlingIsARun(db, id, Cancelled,
            TransitionContext(PendingConfirmation, NO_PATCH, Some(Some(penalty)), clock.runnerNow, clock.group), TransitionedCancelled);
        }
      case SupplierPending => ops := DeferringIsARun(db, id, row, policy, clock, StillPending);
    }
  }

  lemma CancellationIsARun(db: Db, id: nat, row: ItemRow, answer: Answer, policy: BackoffPolicy, clock: PollClock) returns (ops: seq<Op>)
    requires answer.Reported?
    ensures |ops| <= 1 && SettleCancellationWait(db, id, row, answer, policy, clock).0 == Run(db, ops)
  {
    ops := [];
    if answer.status == SupplierCancelled {
      var requestedAt := if row.cancellationRequestedAt.Some? then row.cancellationRequestedAt.value else clock.now;
      if PenaltyFor(row, requestedAt).Success? {
        ops := SettlingIsARun(db, id, Cancelled,
          TransitionContext(ItemState.Confirmed, NO_PATCH, Some(Some(PenaltyFor(row, requestedAt).value)), clock.runnerNow, clock.group),
          TransitionedCancelled);
      }
    } else {
      ops := DeferringIsARun(db, id, row, policy, clock, StillPending);
    }
  }

  // ---------------------------------------------------------------------------
  // A recorded cancellation request is never lost

  /** Escalation is permanent and removes the item from every later sweep. */
  lemma {:induction false} EscalatedItemsAreNeverPolled(db: Db, ops: seq<Op>, id: nat, policy: BackoffPolicy, now: int)
    requires id in db.items && db.items[id].escalatedAt.Some?
    ensures id in Run(db, ops).items && !Due(policy, Run(db, ops).items[id], now)
  {
    ItemsOnlyClimb(db, ops, id);
  }

  /**
   Once recorded, a request survives every later operation; and as long as the item is pending or
   confirmed and not escalated, each sweep from its next poll instant on will pick it up.
   */
  lemma {:induction false} RequestIsNeverLost(db: Db, ops: seq<Op>, id: nat, policy: BackoffPolicy, now: int)
    requires id in db.items && db.items[id].cancellationRequestedAt.Some?
    ensures id in Run(db, ops).items
    ensures var item := Run(db, ops).items[id];
            && item.cancellationRequestedAt.Some?
            && (item.state in {PendingConfirmation, ItemState.Confirmed} && item.escalatedAt.None? ==>
                  (Due(policy, item, now) <==> (item.nextPollAt.Some? ==> item.nextPollAt.value <= now)))
  {
    ItemsOnlyClimb(db, ops, id);
  }

  /**
   A poll may confirm the item from a row it read before the cancel request landed. The request is
   kept, and the confirmed item is due at once: from any instant when the poll knew nothing of the
   request, from the poll's own instant when it did.
   */
  lemma ConfirmingKeepsTheRequest(db: Db, id: nat, row: ItemRow, answer: Answer, policy: BackoffPolicy, clock: PollClock, now: int)
    requires id in db.items && db.items[id].escalatedAt.None? && db.items[id].cancellationRequestedAt.Some?
    requires WaitKindOf(row) == Confirmation && answer.Reported? && answer.status == SupplierConfirmed
    requires PollItem(db, id, row, answer, policy, clock).1 == TransitionedConfirmed
    ensures var item := PollItem(db, id, row, answer, policy, clock).0.items[id];
            && item.state == ItemState.Confirmed
            && item.cancellationRequestedAt == db.items[id].cancellationRequestedAt
            && (Due(policy, item, now) <==> row.cancellationRequestedAt.None? || clock.now <= now)
            && (row.cancellationRequestedAt.Some? ==> item.pollAttempts == 0)
  {
    var rearm := if row.cancellationRequestedAt.Some? then Some(Some(clock.now)) else None;
    var op := Move(id, ItemState.Confirmed,
      TransitionContext(PendingConfirmation, Patch(Some(answer.reference), None, rearm, None), None, clock.runnerNow, clock.group));
    PostedAreTheLines(db, op);
  }

  /** Rescheduling touches nothing but the schedule, yet only escalation keeps it off an item. */
  lemma OnlyEscalationStopsRescheduling(db: Db, id: nat, attempts: int, nextPollAt: int)
    ensures var db' := RecordPollAttempt(db, id, attempts, nextPollAt);
            && (db' == db <==> id !in db.items || db.items[id].escalatedAt.Some?
                               || (db.items[id].pollAttempts == attempts && db.items[id].nextPollAt == Some(nextPollAt)))
            && (id in db.items ==> db'.items[id] == db.items[id].(pollAttempts := db'.items[id].pollAttempts, nextPollAt := db'.items[id].nextPollAt))
  {
    if id in db.items && db.items[id].escalatedAt.None? {
      var item := db.items[id].(pollAttempts := attempts, nextPollAt := Some(nextPollAt));
      assert RecordPollAttempt(db, id, attempts, nextPollAt).items == db.items[id := item];
      if item == db.items[id] {
        assert db.items[id := item] == db.items;
      } else {
        assert RecordPollAttempt(db, id, attempts, nextPollAt).items[id] != db.items[id];
      }
    }
  }

  // ---------------------------------------------------------------------------
  // The price of a cancellation

  /** Every caller sets cancellationRequestedAt only on the way into cancelled. */
  predicate CallerOp(op: Op) {
    op.Move? && op.ctx.patch.cancellationRequestedAt.Some? ==> op.to == Cancelled
  }

  ghost predicate CallerOps(ops: seq<Op>) {
    forall i :: 0 <= i < |ops| ==> CallerOp(ops[i])
  }

  /**
   Whatever callers do in between, an item that is in the same waiting state later has kept a recorded
   request instant, and can only have gained one if it had none.
   */
  lemma {:induction false} RequestInstantIsStable(db: Db, ops: seq<Op>, id: nat, s: ItemState)
    requires CallerOps(ops) && id in db.items && db.items[id].state == s && s in {PendingConfirmation, ItemState.Confirmed}
    ensures var db' := Run(db, ops);
            && id in db'.items && Rank(db'.items[id].state) >= Rank(s)
            && (db'.items[id].state == s && db.items[id].cancellationRequestedAt.Some? ==>
                  db'.items[id].cancellationRequestedAt == db.items[id].cancellationRequestedAt)
  {
    if ops != [] {
      var init, op := ops[..|ops| - 1], ops[|ops| - 1];
      RequestInstantIsStable(db, init, id, s);
      RankNeverFalls(Run(db, init), op, id);
    }
  }

  /** A committed operation leaves an item's state alone or moves it to a higher rank. */
  lemma RankNeverFalls(db: Db, op: Op, id: nat)
    requires id in db.items
    ensures var db' := Apply(db, op);
            && id in db'.items
            && (db'.items[id].state == db.items[id].state
                || (op.Move? && op.to == db'.items[id].state && Rank(db'.items[id].state) > Rank(db.items[id].state)))
  {
  }

  /**
   Settling a cancellation wait posts exactly the policy's penalty at the recorded request instant,
   whatever happened between the sweep's read and the settlement.
   */
  lemma CancellationIsPricedAtTheRequest(db: Db, ops: seq<Op>, id: nat, answer: Answer, policy: BackoffPolicy, clock: PollClock)
    requires id in db.items && CallerOps(ops) && answer.Reported?
    requires db.items[id].state == ItemState.Confirmed && db.items[id].cancellationRequestedAt.Some?
    requires PollItem(Run(db, ops), id, db.items[id], answer, policy, clock).1 == TransitionedCancelled
    ensures id in Run(db, ops).items && Run(db, ops).items[id].cancellationRequestedAt.Some?
    ensures var item := Run(db, ops).items[id];
            var db' := PollItem(Run(db, ops), id, db.items[id], answer, policy, clock).0;
            && db'.items[id].state == Cancelled
            && PostedPenalty(db'.audit, id) == Some(PenaltyOrZero(item.policy.rules, item.cancellationRequestedAt.value, item.currency))
  {
    var row, now := db.items[id], Run(db, ops);
    RequestInstantIsStable(db, ops, id, ItemState.Confirmed);
    ItemsOnlyClimb(db, ops, id);
    var penalty := PenaltyFor(row, row.cancellationRequestedAt.value).value;
    var op := Move(id, Cancelled, TransitionContext(ItemState.Confirmed, NO_PATCH, Some(Some(penalty)), clock.runnerNow, clock.group));
    PostedAreTheLines(now, op);
    MoveTrails(now, op, id);
  }

  /** The charge a pending item owes when the supplier cancels it: its policy at the recorded request, if any. */
  function Owed(item: ItemRow): int {
    if item.cancellationRequestedAt.None? then 0
    else PenaltyOrZero(item.policy.rules, item.cancellationRequestedAt.value, item.currency).amount
  }

  /**
   Settling a confirmation wait as cancelled is priced from the row the sweep read. It charges what
   the item owes exactly when the request was already in that row, or there is none, or it is free.
   */
  lemma PendingCancellationIsPricedFromTheRow(db: Db, ops: seq<Op>, id: nat, answer: Answer, policy: BackoffPolicy, clock: PollClock)
    requires id in db.items && CallerOps(ops) && answer.Reported? && db.items[id].state == PendingConfirmation
    requires PollItem(Run(db, ops), id, db.items[id], answer, policy, clock).1 == TransitionedCancelled
    ensures id in Run(db, ops).items
    ensures var item := Run(db, ops).items[id];
            var db' := PollItem(Run(db, ops), id, db.items[id], answer, policy, clock).0;
            && db'.items[id].state == Cancelled
            && Charged(PostedPenalty(db'.audit, id)) == Owed(db.items[id])
            && (Charged(PostedPenalty(db'.audit, id)) == Owed(item)
                <==> db.items[id].cancellationRequestedAt == item.cancellationRequestedAt || Owed(item) == 0)
  {
    var row, now := db.items[id], Run(db, ops);
    ItemsOnlyClimb(db, ops, id);
    var penalty := if row.cancellationRequestedAt.None? then None
                   else Some(PenaltyFor(row, row.cancellationRequestedAt.value).value);
    var op := Move(id, Cancelled, TransitionContext(PendingConfirmation, NO_PATCH, Some(penalty), clock.runnerNow, clock.group));
    PostedAreTheLines(now, op);
    MoveTrails(now, op, id);
    RequestInstantIsStable(db, ops, id, PendingConfirmation);
  }

  // ---------------------------------------------------------------------------
  // Every wait ends

  /** The delays of the first n deferrals. */
  function DelaySum(policy: BackoffPolicy, n: nat): int {
    if n == 0 then 0 else DelaySum(policy, n - 1) + BackoffDelayMs(policy, n - 1)
  }

  /** One poll of a wait: the row read, and the instants of the read and of the decision. */
  datatype PollStep = PollStep(row: ItemRow, readAt: int, decidedAt: int)

  /** `next` is the row a deferral of `step` leaves: one more attempt, backed off, nothing else of the wait touched. */
  predicate DeferredTo(policy: BackoffPolicy, step: PollStep, next: ItemRow) {
    && !Expired(policy, step.row, step.decidedAt)
    && WaitKindOf(next) == WaitKindOf(step.row) && WaitStartOf(next) == WaitStartOf(step.row)
    && next.pollAttempts == step.row.pollAttempts + 1
    && next.nextPollAt == Some(step.decidedAt + BackoffDelayMs(policy, step.row.pollAttempts))
  }

  /** A wait polled by one worker against a non-decreasing clock, from its start, without being reset. */
  ghost predicate WaitHistory(policy: BackoffPolicy, polls: seq<PollStep>) {
    && (forall i :: 0 <= i < |polls| ==>
          Waiting(polls[i].row) && Due(policy, polls[i].row, polls[i].readAt) && polls[i].readAt <= polls[i].decidedAt)
    && (polls != [] ==> polls[0].row.pollAttempts == 0 && WaitStartOf(polls[0].row) <= polls[0].readAt)
    && (forall i :: 0 <= i < |polls| - 1 ==>
          polls[i].decidedAt <= polls[i + 1].readAt && DeferredTo(policy, polls[i], polls[i + 1].row))
  }

  /** An answer that settles nothing. */
  predicate Inconclusive(row: ItemRow, answer: Answer) {
    answer.RetrieveFailed? || answer.status == SupplierPending || (WaitKindOf(row) == Cancellation && answer.status != SupplierCancelled)
  }

  /**
   An inconclusive poll escalates the item past the age limit of the row it read; before it, the poll
   writes the attempt after that row's, so the wait goes on if the item is still in it, and whatever the
   item is doing by then nothing but its schedule changes.
   */
  lemma DeferralContinuesTheWait(db: Db, id: nat, row: ItemRow, answer: Answer, policy: BackoffPolicy, clock: PollClock)
    requires id in db.items && db.items[id].escalatedAt.None?
    requires row.supplierReference.Some? && WaitKindOf(row) != Reservation && Inconclusive(row, answer)
    ensures var (db', outcome) := PollItem(db, id, row, answer, policy, clock);
            var item := db.items[id];
            && id in db'.items
            && (Expired(policy, row, clock.now) <==> outcome == WasEscalated)
            && (outcome == WasEscalated <==> db'.items[id].escalatedAt.Some?)
            && (outcome != WasEscalated ==>
                  && db'.(items := db.items) == db && db'.items[id].(pollAttempts := item.pollAttempts, nextPollAt := item.nextPollAt) == item
                  && (forall other :: other in db.items && other != id ==> other in db'.items && db'.items[other] == db.items[other])
                  && (WaitKindOf(item) == WaitKindOf(row) && WaitStartOf(item) == WaitStartOf(row) ==>
                        DeferredTo(policy, PollStep(row, clock.now, clock.now), db'.items[id])))
  {
  }

  /** The k-th poll comes no earlier than the first k delays after the wait began. */
  lemma {:induction false} PollsAreSpacedOut(policy: BackoffPolicy, polls: seq<PollStep>, k: nat)
    requires WaitHistory(policy, polls) && k < |polls|
    ensures polls[k].row.pollAttempts == k && WaitStartOf(polls[k].row) == WaitStartOf(polls[0].row)
    ensures polls[k].decidedAt - WaitStartOf(polls[0].row) >= DelaySum(policy, k)
  {
    if k > 0 {
      PollsAreSpacedOut(policy, polls, k - 1);
      assert DeferredTo(policy, polls[k - 1], polls[k].row);
    }
  }

  /** A wait that is not reset is polled at most n + 1 times when n delays exceed the age limit. */
  lemma EveryWaitEnds(policy: BackoffPolicy, polls: seq<PollStep>, n: nat)
    requires WaitHistory(policy, polls) && DelaySum(policy, n) > policy.maxPendingAgeMs
    ensures |polls| <= n + 1
    ensures |polls| == n + 1 ==> Expired(policy, polls[n].row, polls[n].decidedAt)
  {
    if |polls| > n + 1 {
      assert DeferredTo(policy, polls[n], polls[n + 1].row);
    }
    if |polls| > n {
      PollsAreSpacedOut(policy, polls, n);
    }
  }

  lemma {:induction false} PowerAtLeastOne(x: real, k: nat)
    requires x >= 1.0
    ensures Power(x, k) >= 1.0
  {
    if k > 0 {
      PowerAtLeastOne(x, k - 1);
      assert x * Power(x, k - 1) >= 1.0 * Power(x, k - 1);
    }
  }

  lemma DelayIsPositive(policy: BackoffPolicy, attempts: int)
    requires policy.baseMs > 0 && policy.capMs > 0 && policy.factor >= 1.0
    ensures BackoffDelayMs(policy, attempts) >= 1
  {
    var p := Power(policy.factor, if attempts < 0 then 0 else attempts);
    PowerAtLeastOne(policy.factor, if attempts < 0 then 0 else attempts);
    assert policy.baseMs as real * p >= 1.0 * p;
  }

  lemma {:induction false} DelaysAddUp(policy: BackoffPolicy, n: nat)
    requires policy.baseMs > 0 && policy.capMs > 0 && policy.factor >= 1.0
    ensures DelaySum(policy, n) >= n
  {
    if n > 0 {
      DelaysAddUp(policy, n - 1);
      DelayIsPositive(policy, n - 1);
    }
  }

  /** The least number of delays whose sum exceeds the age limit, searched from n on. */
  function RoundsFrom(policy: BackoffPolicy, n: nat): (r: nat)
    requires policy.baseMs > 0 && policy.capMs > 0 && policy.factor >= 1.0
    requires forall k :: 0 <= k < n ==> DelaySum(policy, k) <= policy.maxPendingAgeMs
    ensures DelaySum(policy, r) > policy.maxPendingAgeMs
    ensures forall k :: 0 <= k < r ==> DelaySum(policy, k) <= policy.maxPendingAgeMs
    decreases policy.maxPendingAgeMs - n
  {
    DelaysAddUp(policy, n);
    if DelaySum(policy, n) > policy.maxPendingAgeMs then n else RoundsFrom(policy, n + 1)
  }

  lemma DefaultDelays()
    ensures DelaySum(DEFAULT_PENDING_BACKOFF, 6) == 1530000
    ensures DelaySum(DEFAULT_PENDING_BACKOFF, 7) == 2130000
  {
    var p := DEFAULT_PENDING_BACKOFF;
    assert Power(2.0, 1) == 2.0 * Power(2.0, 0);
    assert Power(2.0, 2) == 2.0 * Power(2.0, 1);
    assert Power(2.0, 3) == 2.0 * Power(2.0, 2);
    assert Power(2.0, 4) == 2.0 * Power(2.0, 3);
    assert Power(2.0, 5) == 2.0 * Power(2.0, 4);
    assert Power(2.0, 6) == 2.0 * Power(2.0, 5);
    assert BackoffDelayMs(p, 0) == 30000 && BackoffDelayMs(p, 1) == 60000 && BackoffDelayMs(p, 2) == 120000;
    assert BackoffDelayMs(p, 3) == 240000 && BackoffDelayMs(p, 4) == 480000 && BackoffDelayMs(p, 5) == 600000 && BackoffDelayMs(p, 6) == 600000;
    assert DelaySum(p, 1) == 30000;
    assert DelaySum(p, 2) == 90000;
    assert DelaySum(p, 3) == 210000;
    assert DelaySum(p, 4) == 450000;
    assert DelaySum(p, 5) == 930000;
  }
}
