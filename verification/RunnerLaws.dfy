/**
 What each transaction of the runner (packages/booking-engine/src/runner.ts) writes, column by column, and
 exactly when it refuses, on databases that satisfy the invariant of every run.
 */
module RunnerLaws {
  import opened BookingStates
  import opened ItemRuns
  import opened Ledger
  import opened Money
  import opened TransitionRunner
  import opened Wrappers

  // ---------------------------------------------------------------------------
  // transition

  /** The edges that are both legal and given a financial meaning. */
  lemma ExecutableEdges(from: ItemState, to: ItemState)
    ensures Executable(Edge(from, to))
            <==> || (from == Quoted && to == ItemState.Reserved)
                 || (from == ItemState.Reserved && to in {PendingConfirmation, ItemState.Confirmed, Failed})
                 || (from == PendingConfirmation && to in {ItemState.Confirmed, Failed, Cancelled})
                 || (from == ItemState.Confirmed && to == Cancelled)
  {
  }

  /** What the postings of an edge ask of the caller: a resolved penalty to cancel, and a valid one wherever something is posted. */
  predicate PenaltyFits(to: ItemState, penalty: Option<Option<Money>>) {
    && (to == Cancelled ==> penalty.Some?)
    && (to in {ItemState.Confirmed, Cancelled} && penalty.Some? && penalty.value.Some? ==> ValidMoney(penalty.value.value))
  }

  lemma PenaltyLinesUsePenalty()
    ensures UsesPenalty(PENALTY_LINES) && UsesPenalty(Reversed(CONFIRM_LINES) + PENALTY_LINES) && !UsesPenalty(CONFIRM_LINES)
    ensures PENALTY_LINES != [] && CONFIRM_LINES != [] && Reversed(CONFIRM_LINES) + PENALTY_LINES != []
  {
    assert PENALTY_LINES[0].source == PenaltyAmount;
    var r := Reversed(CONFIRM_LINES);
    assert (r + PENALTY_LINES)[|r|].source == PenaltyAmount;
  }

  /** The postings of an executable edge can be made for a sound item exactly if the penalty fits. */
  lemma PostingsSucceedIff(from: ItemState, to: ItemState, sell: Money, net: Money, penalty: Option<Option<Money>>, group: nat, id: nat)
    requires Executable(Edge(from, to)) && ValidMoney(sell) && ValidMoney(net)
    ensures PostTransitionEntries(PostingTemplate(from, to).value, sell, net, penalty, group, id).Success? <==> PenaltyFits(to, penalty)
  {
    PenaltyLinesUsePenalty();
  }

  /**
   A transition succeeds exactly when the item is in the state expected of it, the edge is executable and
   the penalty fits; otherwise it changes nothing, and a moved item is the only conflict.
   */
  lemma TransitionSucceedsIff(db: Db, id: nat, to: ItemState, ctx: TransitionContext)
    requires Inv(db)
    ensures var (db', r) := Transition(db, id, to, ctx);
            && (r.Success? <==> && id in db.items && db.items[id].state == ctx.expectedFrom
                                && Executable(Edge(ctx.expectedFrom, to)) && PenaltyFits(to, ctx.penalty))
            && (r.Failure? ==> db' == db)
            && (r == Failure(TransitionConflict)
                <==> id in db.items && db.items[id].state != ctx.expectedFrom && Executable(Edge(ctx.expectedFrom, to)))
  {
    if id in db.items {
      assert ItemInv(db, id);
      var item := db.items[id];
      if Executable(Edge(ctx.expectedFrom, to)) {
        PostingsSucceedIff(ctx.expectedFrom, to, Money(item.sell, item.currency), Money(item.net, item.currency), ctx.penalty, ctx.group, id);
      }
    }
  }

  /** A column a patch leaves out keeps its value. */
  predicate Stored<T(==)>(patch: Option<T>, before: Option<T>, after: Option<T>) {
    after == if patch.Some? then patch else before
  }

  /**
   A successful transition moves the item, stores what the patch carries, arms the next poll as told or,
   outside a confirmation wait, disarms it, restarts the attempt count for a new wait, and leaves every
   other column, item and booking alone; it records itself once.
   */
  lemma TransitionWrites(db: Db, id: nat, to: ItemState, ctx: TransitionContext)
    requires Transition(db, id, to, ctx).1.Success?
    ensures id in db.items && id in Transition(db, id, to, ctx).0.items
    ensures var db' := Transition(db, id, to, ctx).0;
            var item, item', patch := db.items[id], db'.items[id], ctx.patch;
            && item'.state == to && item'.updatedAt == ctx.now
            && Stored(patch.supplierReference, item.supplierReference, item'.supplierReference)
            && Stored(patch.pendingSince, item.pendingSince, item'.pendingSince)
            && Stored(patch.cancellationRequestedAt, item.cancellationRequestedAt, item'.cancellationRequestedAt)
            && (patch.nextPollAt.Some? ==> item'.nextPollAt == patch.nextPollAt.value)
            && (patch.nextPollAt.None? ==> item'.nextPollAt == if to == PendingConfirmation then item.nextPollAt else None)
            && (to == PendingConfirmation || (patch.nextPollAt.Some? && item'.nextPollAt.Some?) ==> item'.pollAttempts == 0)
            && (to != PendingConfirmation && item'.nextPollAt.None? ==> item'.pollAttempts == item.pollAttempts)
            && item'.offerId == item.offerId && item'.net == item.net && item'.sell == item.sell && item'.currency == item.currency
            && item'.policy == item.policy && item'.createdAt == item.createdAt && item'.escalatedAt == item.escalatedAt
    ensures var db' := Transition(db, id, to, ctx).0;
            && db'.items.Keys == db.items.Keys && (forall other :: other in db.items && other != id ==> db'.items[other] == db.items[other])
            && db'.bookings == db.bookings && db.journal <= db'.journal
            && |db'.audit| == |db.audit| + 1 && db.audit <= db'.audit && db'.audit[|db.audit|].itemId == id
            && db'.outbox == db.outbox + [OutboxEvent(id, Moved(ctx.expectedFrom, to), ctx.now, None)]
  {
  }

  /** Only confirming and cancelling post anything. */
  lemma OthersPostNothing(db: Db, id: nat, to: ItemState, ctx: TransitionContext)
    requires to !in {ItemState.Confirmed, Cancelled}
    ensures Transition(db, id, to, ctx).0.journal == db.journal
  {
    ExecutableEdges(ctx.expectedFrom, to);
  }

  // ---------------------------------------------------------------------------
  // The other transactions

  /** A cancellation request is recorded exactly on a waiting or confirmed item that has none, and arms its poll at once. */
  lemma RequestWrites(db: Db, id: nat, at: int)
    ensures var (db', r) := MarkCancellationRequested(db, id, at);
            && (r.Success? <==> && id in db.items && db.items[id].state in {ItemState.Confirmed, PendingConfirmation}
                                && db.items[id].cancellationRequestedAt.None?)
            && (r.Failure? ==> db' == db)
            && (r.Success? ==>
                  && id in db'.items && db'.items[id].cancellationRequestedAt == Some(at) && db'.items[id].nextPollAt == Some(at)
                  && db'.items[id].pollAttempts == 0 && db'.items[id].state == db.items[id].state
                  && db'.items[id].pendingSince == db.items[id].pendingSince && db'.items[id].escalatedAt == db.items[id].escalatedAt
                  && db'.items[id].supplierReference == db.items[id].supplierReference
                  && db'.items.Keys == db.items.Keys && (forall other :: other in db.items && other != id ==> db'.items[other] == db.items[other])
                  && db'.journal == db.journal && db'.bookings == db.bookings
                  && db'.outbox == db.outbox + [OutboxEvent(id, CancellationRequested, at, None)])
  {
  }

  /** An item is escalated exactly once, and nothing else about it changes. */
  lemma EscalationWrites(db: Db, id: nat, at: int)
    ensures var (db', escalated) := Escalate(db, id, at);
            && (escalated <==> id in db.items && db.items[id].escalatedAt.None?)
            && (!escalated ==> db' == db)
            && (escalated ==>
                  && id in db'.items && db'.items[id].escalatedAt == Some(at)
                  && db'.items[id].(escalatedAt := None, updatedAt := 0) == db.items[id].(updatedAt := 0)
                  && db'.items.Keys == db.items.Keys && (forall other :: other in db.items && other != id ==> db'.items[other] == db.items[other])
                  && db'.journal == db.journal && db'.bookings == db.bookings
                  && db'.outbox == db.outbox + [OutboxEvent(id, Escalated, at, None)])
  {
  }

  /** A booking is created exactly for valid, non-negative prices in one currency under a fresh reference and a fresh item. */
  lemma CreationWrites(db: Db, input: CreateInput, id: nat, now: int)
    ensures var (db', r) := CreateHotelBooking(db, input, id, now);
            && (db' != db ==> r.Success? && r.value.created)
            && (r.Success? && r.value.created <==>
                  && ValidMoney(input.net) && ValidMoney(input.sell) && input.net.currency == input.sell.currency
                  && input.net.amount >= 0 && input.sell.amount >= 0
                  && input.clientReference != "" && input.clientReference !in db.bookings && id !in db.items)
            && (r.Success? && !r.value.created ==>
                  input.clientReference in db.bookings && r.value.booking == db.bookings[input.clientReference])
            && (r.Success? && r.value.created ==>
                  && r.value.booking == BookingRow(input.agency, id)
                  && db'.bookings == db.bookings[input.clientReference := BookingRow(input.agency, id)]
                  && db'.items.Keys == db.items.Keys + {id} && (forall other :: other in db.items ==> db'.items[other] == db.items[other])
                  && NewItem(db'.items[id], input, now)
                  && db'.journal == db.journal && db'.outbox == db.outbox + [OutboxEvent(id, BookingCreated, now, None)])
  {
    if CreateHotelBooking(db, input, id, now).1.Success? && CreateHotelBooking(db, input, id, now).1.value.created {
      assert id in CreateHotelBooking(db, input, id, now).0.items;
    }
  }

  /** A quoted item on the terms asked for, with nothing pending. */
  predicate NewItem(item: ItemRow, input: CreateInput, now: int) {
    && item.state == Quoted && item.offerId == input.offerId && item.policy == input.policy
    && Money(item.net, item.currency) == input.net && Money(item.sell, item.currency) == input.sell
    && item.createdAt == now && item.updatedAt == now
    && item.supplierReference.None? && item.pendingSince.None? && item.cancellationRequestedAt.None?
    && item.nextPollAt.None? && item.escalatedAt.None? && item.pollAttempts == 0
  }
}
