/**
 What a poll does with each answer (packages/booking-engine/src/pending.ts), told from the outside: the
 answer, the row the sweep read and the item as it is now decide the outcome and the new row.
 */
module PollOutcomes {
  import opened BookingStates
  import opened CancellationPolicies
  import opened ItemRuns
  import opened Money
  import opened PendingPoller
  import opened RunnerLaws
  import opened TransitionRunner
  import opened Wrappers

  /** The state an item must still be in for a poll of this row to settle it. */
  function ExpectedState(row: ItemRow): ItemState {
    if row.state == PendingConfirmation then PendingConfirmation else ItemState.Confirmed
  }

  /** The answer settles the wait: any cancellation does, a confirmation only where one was awaited. */
  predicate Conclusive(row: ItemRow, answer: Answer) {
    answer.Reported? && (answer.status == SupplierCancelled || (row.state == PendingConfirmation && answer.status == SupplierConfirmed))
  }

  /** Settling it calls for a penalty of the stored policy. */
  predicate CallsForPenalty(row: ItemRow, answer: Answer) {
    && answer.Reported? && answer.status == SupplierCancelled
    && (row.state != PendingConfirmation || row.cancellationRequestedAt.Some?)
  }

  /** A row a sweep polls for a wait, with the supplier's reference. */
  predicate Polled(row: ItemRow) {
    row.state !in {Quoted, ItemState.Reserved} && row.supplierReference.Some? && ValidMoney(Money(row.sell, row.currency))
  }

  lemma PricedPenalty(row: ItemRow, at: int)
    requires ValidMoney(Money(row.sell, row.currency))
    ensures PenaltyFor(row, at).Success? <==> ValidPolicy(row.policy)
    ensures PenaltyFor(row, at).Success? ==> ValidMoney(PenaltyFor(row, at).value)
  {
    if ValidPolicy(row.policy) {
      InForceIsTheLatest(row.policy.rules, at);
    }
  }

  /** One settlement: it goes through exactly if the item is still where the row had it. */
  lemma SettlementOutcome(db: Db, id: nat, to: ItemState, ctx: TransitionContext, settled: Outcome)
    requires Inv(db) && id in db.items && Executable(Edge(ctx.expectedFrom, to)) && PenaltyFits(to, ctx.penalty)
    ensures var (db', outcome) := PendingPoller.Settle(db, id, to, ctx, settled);
            if db.items[id].state == ctx.expectedFrom
            then outcome == settled && db' == Transition(db, id, to, ctx).0 && Transition(db, id, to, ctx).1.Success?
            else outcome == ConflictSkipped && db' == db
  {
    TransitionSucceedsIff(db, id, to, ctx);
  }

  /** What a poll of a wait is given: the row it read, a conclusive answer, and an item that still exists. */
  ghost predicate ConclusivePoll(db: Db, id: nat, row: ItemRow, answer: Answer) {
    Inv(db) && id in db.items && Polled(row) && Conclusive(row, answer)
  }

  /** The penalty cannot be priced: the stored policy is invalid and settling calls for it. */
  predicate Unpriceable(row: ItemRow, answer: Answer) {
    CallsForPenalty(row, answer) && !ValidPolicy(row.policy)
  }

  /** What a confirmation leaves: the supplier's reference, and a due instant exactly if a cancellation was pending. */
  predicate ConfirmedBy(item: ItemRow, row: ItemRow, reference: string, now: int) {
    && item.state == ItemState.Confirmed && item.supplierReference == Some(reference)
    && item.nextPollAt == (if row.cancellationRequestedAt.Some? then Some(now) else None)
  }

  lemma ConfirmingPolls(db: Db, id: nat, row: ItemRow, answer: Answer, policy: BackoffPolicy, clock: PollClock)
    requires ConclusivePoll(db, id, row, answer) && answer.status == SupplierConfirmed
    ensures var (db', outcome) := PollItem(db, id, row, answer, policy, clock);
            && id in db'.items
            && (outcome == TransitionedConfirmed <==> db.items[id].state == PendingConfirmation)
            && (outcome == TransitionedConfirmed ==> ConfirmedBy(db'.items[id], row, answer.reference, clock.now))
            && (outcome != TransitionedConfirmed ==> outcome == ConflictSkipped && db' == db)
  {
    var rearm := if row.cancellationRequestedAt.Some? then Some(Some(clock.now)) else None;
    var ctx := TransitionContext(PendingConfirmation, Patch(Some(answer.reference), None, rearm, None), None, clock.runnerNow, clock.group);
    ExecutableEdges(PendingConfirmation, ItemState.Confirmed);
    SettlementOutcome(db, id, ItemState.Confirmed, ctx, TransitionedConfirmed);
    if db.items[id].state == PendingConfirmation {
      TransitionWrites(db, id, ItemState.Confirmed, ctx);
    }
  }

  /** The instant a penalty is priced at: the recorded request, or the poll's own clock if none is recorded. */
  function PricedAt(row: ItemRow, now: int): int {
    if row.cancellationRequestedAt.Some? then row.cancellationRequestedAt.value else now
  }

  /** What such a poll charges: the stored policy's penalty, or nothing where none is called for. */
  function PollCharge(row: ItemRow, answer: Answer, now: int): int {
    if CallsForPenalty(row, answer) then PenaltyOrZero(row.policy.rules, PricedAt(row, now), row.currency).amount else 0
  }

  /** The transition such a poll asks for. */
  function CancellingContext(row: ItemRow, answer: Answer, clock: PollClock): TransitionContext
    requires CallsForPenalty(row, answer) ==> ValidPolicy(row.policy)
  {
    var penalty := if CallsForPenalty(row, answer) then Some(PenaltyFor(row, PricedAt(row, clock.now)).value) else None;
    TransitionContext(ExpectedState(row), NO_PATCH, Some(penalty), clock.runnerNow, clock.group)
  }

  lemma CancellingPollIs(db: Db, id: nat, row: ItemRow, answer: Answer, policy: BackoffPolicy, clock: PollClock)
    requires Polled(row) && Conclusive(row, answer) && answer.status == SupplierCancelled && !Unpriceable(row, answer)
    ensures PollItem(db, id, row, answer, policy, clock)
            == PendingPoller.Settle(db, id, Cancelled, CancellingContext(row, answer, clock), TransitionedCancelled)
  {
  }

  lemma CancellingTransition(db: Db, id: nat, row: ItemRow, answer: Answer, clock: PollClock)
    requires CallsForPenalty(row, answer) ==> ValidPolicy(row.policy)
    requires var ctx := CancellingContext(row, answer, clock); Transition(db, id, Cancelled, ctx).1.Success?
    ensures var db' := Transition(db, id, Cancelled, CancellingContext(row, answer, clock)).0;
            && id in db'.items && db'.items[id].state == Cancelled && Charged(PostedPenalty(db'.audit, id)) == PollCharge(row, answer, clock.now)
  {
    var ctx := CancellingContext(row, answer, clock);
    TransitionWrites(db, id, Cancelled, ctx);
    PostedAreTheLines(db, Move(id, Cancelled, ctx));
    MoveTrails(db, Move(id, Cancelled, ctx), id);
  }

  lemma CancellingPolls(db: Db, id: nat, row: ItemRow, answer: Answer, policy: BackoffPolicy, clock: PollClock)
    requires ConclusivePoll(db, id, row, answer) && answer.status == SupplierCancelled && !Unpriceable(row, answer)
    ensures var (db', outcome) := PollItem(db, id, row, answer, policy, clock);
            && id in db'.items
            && (outcome == TransitionedCancelled <==> db.items[id].state == ExpectedState(row))
            && (outcome == TransitionedCancelled ==>
                  db'.items[id].state == Cancelled && Charged(PostedPenalty(db'.audit, id)) == PollCharge(row, answer, clock.now))
            && (outcome != TransitionedCancelled ==> outcome == ConflictSkipped && db' == db)
  {
    var ctx := CancellingContext(row, answer, clock);
    PricedPenalty(row, PricedAt(row, clock.now));
    ExecutableEdges(ExpectedState(row), Cancelled);
    CancellingPollIs(db, id, row, answer, policy, clock);
    SettlementOutcome(db, id, Cancelled, ctx, TransitionedCancelled);
    if db.items[id].state == ExpectedState(row) {
      CancellingTransition(db, id, row, answer, clock);
    }
  }

  /**
   A conclusive answer settles the item if it is still where the row had it: confirmed with the
   supplier's reference, and due again at once if a cancellation is pending, or cancelled at the stored
   policy's penalty. If the item has moved on the poll skips it; if the penalty cannot be priced it
   throws; both change nothing. No other answer is skipped.
   */
  lemma ConclusivePolls(db: Db, id: nat, row: ItemRow, answer: Answer, policy: BackoffPolicy, clock: PollClock)
    requires Inv(db) && id in db.items && Polled(row)
    ensures var (db', outcome) := PollItem(db, id, row, answer, policy, clock);
            && id in db'.items
            && (outcome == ConflictSkipped
                <==> Conclusive(row, answer) && !Unpriceable(row, answer) && db.items[id].state != ExpectedState(row))
            && (outcome == ErrorOutcome <==> Conclusive(row, answer) && Unpriceable(row, answer))
            && (outcome in {ConflictSkipped, ErrorOutcome} ==> db' == db)
            && (outcome == TransitionedConfirmed
                <==> Conclusive(row, answer) && answer.status == SupplierConfirmed && db.items[id].state == PendingConfirmation)
            && (outcome == TransitionedConfirmed ==> ConfirmedBy(db'.items[id], row, answer.reference, clock.now))
            && (outcome == TransitionedCancelled
                <==> Conclusive(row, answer) && answer.status == SupplierCancelled && !Unpriceable(row, answer)
                     && db.items[id].state == ExpectedState(row))
            && (outcome == TransitionedCancelled ==>
                  db'.items[id].state == Cancelled && Charged(PostedPenalty(db'.audit, id)) == PollCharge(row, answer, clock.now))
  {
    if Conclusive(row, answer) {
      if answer.status == SupplierConfirmed {
        ConfirmingPolls(db, id, row, answer, policy, clock);
      } else if !Unpriceable(row, answer) {
        CancellingPolls(db, id, row, answer, policy, clock);
      } else {
        PricedPenalty(row, PricedAt(row, clock.now));
      }
    }
  }

  /** When a wait began: pending since, or the cancellation was requested, or the row was created if neither is recorded. */
  function Anchor(row: ItemRow): int {
    match if row.state == PendingConfirmation then row.pendingSince else row.cancellationRequestedAt
    case Some(at) => at
    case None => row.createdAt
  }

  /** A delay is the nearest number of milliseconds, halves up, to the base grown by the factor once for each attempt, and never past the cap. */
  predicate BackedOff(policy: BackoffPolicy, attempts: nat, delay: int) {
    var grown := policy.baseMs as real * Power(policy.factor, attempts);
    && delay <= policy.capMs
    && (delay as real - 0.5 <= grown)
    && (delay < policy.capMs ==> grown < delay as real + 0.5)
  }

  /** The attempts a row counts, a negative count as none. */
  function AttemptsBehind(row: ItemRow): nat {
    if row.pollAttempts < 0 then 0 else row.pollAttempts
  }

  lemma DelaysBackOff(policy: BackoffPolicy, attempts: nat)
    ensures BackedOff(policy, attempts, BackoffDelayMs(policy, attempts))
  {
  }

  /**
   Any other poll of a wait escalates the item once its wait is older than the age limit, and otherwise
   writes one more attempt and the next instant, backed off, and says whether the supplier was reached.
   */
  lemma InconclusivePolls(db: Db, id: nat, row: ItemRow, answer: Answer, policy: BackoffPolicy, clock: PollClock)
    requires id in db.items && db.items[id].escalatedAt.None? && Polled(row) && !Conclusive(row, answer)
    ensures var (db', outcome) := PollItem(db, id, row, answer, policy, clock);
            && id in db'.items && db'.journal == db.journal
            && (outcome == WasEscalated <==> clock.now - Anchor(row) > policy.maxPendingAgeMs)
            && (outcome == WasEscalated ==> db'.items[id] == db.items[id].(escalatedAt := Some(clock.runnerNow), updatedAt := db'.items[id].updatedAt))
            && (outcome != WasEscalated ==>
                  && outcome == (if answer.RetrieveFailed? then RetrieveFailedOutcome else StillPending)
                  && db'.items[id].nextPollAt.Some? && BackedOff(policy, AttemptsBehind(row), db'.items[id].nextPollAt.value - clock.now)
                  && db'.items[id] == db.items[id].(pollAttempts := row.pollAttempts + 1, nextPollAt := db'.items[id].nextPollAt))
  {
    DelaysBackOff(policy, AttemptsBehind(row));
    EscalationWrites(db, id, clock.runnerNow);
  }

  /** A sweep picks up a waiting item exactly from its next instant on, at once if it has none, unless it is with an operator. */
  lemma WaitsAreDueOnTime(row: ItemRow, policy: BackoffPolicy, now: int)
    requires row.state == PendingConfirmation || (row.state == ItemState.Confirmed && row.cancellationRequestedAt.Some?)
    ensures Due(policy, row, now) <==> row.escalatedAt.None? && (row.nextPollAt.None? || row.nextPollAt.value <= now)
  {
  }

  /**
   An item stranded before its reservation settled is due exactly once it has not changed for the age
   limit, and the poll hands it to an operator, whatever the answer; so does any poll of an item
   without a supplier reference. An item escalated already stays as it is.
   */
  lemma StrandedItemsAreEscalated(db: Db, id: nat, row: ItemRow, answer: Answer, policy: BackoffPolicy, clock: PollClock, now: int)
    requires id in db.items && (row.state in {Quoted, ItemState.Reserved} || row.supplierReference.None?)
    ensures row.state in {Quoted, ItemState.Reserved} && row.escalatedAt.None? ==>
              (Due(policy, row, now) <==> now - row.updatedAt >= policy.maxPendingAgeMs)
    ensures var (db', outcome) := PollItem(db, id, row, answer, policy, clock);
            && outcome == WasEscalated && id in db'.items
            && db'.items[id].escalatedAt == (if db.items[id].escalatedAt.Some? then db.items[id].escalatedAt else Some(clock.runnerNow))
            && db'.items[id].state == db.items[id].state && db'.journal == db.journal
  {
    EscalationWrites(db, id, clock.runnerNow);
  }
}
