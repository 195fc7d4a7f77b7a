/**
 What a cancel call does and charges (apps/api/src/hotel-booking/booking.service.ts), told from the
 outside: the row it read, the supplier's answer and what others committed meanwhile decide the reply,
 the posted penalty and the balances.
 */
module CancellationOutcomes {
  import opened BookingCancellation
  import opened BookingStates
  import opened CancellationPolicies
  import opened ItemRuns
  import opened Ledger
  import opened Money
  import opened RunnerLaws
  import opened TransitionRunner
  import opened Wrappers

  // ---------------------------------------------------------------------------
  // The preview

  /** The penalty a policy asks for at an instant: that of the latest rule begun by then, nothing before the first. */
  predicate PolicyAsks(rules: seq<Rule>, at: int, penalty: Money, currency: string) {
    if exists i :: 0 <= i < |rules| && rules[i].fromUtc.ms <= at
    then exists i :: 0 <= i < |rules| && LatestStarted(rules, at, i) && penalty == rules[i].penalty
    else penalty == Money(0, currency)
  }

  lemma PolicyAsksForThePenalty(rules: seq<Rule>, at: int, currency: string)
    ensures PolicyAsks(rules, at, PenaltyOrZero(rules, at, currency), currency)
  {
    InForceIsTheLatest(rules, at);
  }

  /** The preview of cancelling an item at an instant: its policy's penalty, and what is left of the price in the same currency. */
  predicate PreviewOf(p: Preview, item: ItemRow, at: int) {
    && PolicyAsks(item.policy.rules, at, p.penalty, item.currency)
    && p.refund == (if p.penalty.currency == item.currency then Some(Money(item.sell - p.penalty.amount, item.currency)) else None)
    && p.refundable == item.policy.refundable && p.asOf == at
  }

  /** A preview exists for a valid policy whose refund is representable. */
  predicate Previewable(item: ItemRow, at: int) {
    && ValidPolicy(item.policy) && SafeInteger(item.sell)
    && var penalty := PenaltyOrZero(item.policy.rules, at, item.currency);
       penalty.currency == item.currency ==> ValidCurrency(item.currency) && SafeInteger(item.sell - penalty.amount)
  }

  lemma PenaltyIsMoney(policy: Policy, at: int, currency: string)
    requires ValidPolicy(policy)
    ensures var penalty := PenaltyOrZero(policy.rules, at, currency);
            SafeInteger(penalty.amount) && (ValidCurrency(currency) || penalty.currency != currency ==> ValidMoney(penalty))
  {
    InForceIsTheLatest(policy.rules, at);
  }

  lemma PreviewsShowThePolicy(item: ItemRow, at: int)
    ensures BuildPreview(item, at).Success? <==> Previewable(item, at)
    ensures BuildPreview(item, at).Failure? ==> BuildPreview(item, at).error == PreviewFailed
    ensures BuildPreview(item, at).Success? ==> PreviewOf(BuildPreview(item, at).value, item, at)
  {
    PolicyAsksForThePenalty(item.policy.rules, at, item.currency);
    if ValidPolicy(item.policy) {
      PenaltyIsMoney(item.policy, at, item.currency);
    }
  }

  // ---------------------------------------------------------------------------
  // Before the supplier is asked

  /** The caller's own booking, and its item. */
  predicate Owns(db: Db, reference: string, agency: Option<string>) {
    reference in db.bookings && db.bookings[reference].agency == agency && db.bookings[reference].itemId in db.items
  }

  /** The item can be cancelled with the supplier. */
  predicate Cancellable(item: ItemRow) {
    item.state in {ItemState.Confirmed, PendingConfirmation} && item.supplierReference.Some?
  }

  /** A reply about a preview of the item at an instant, or its failure. */
  predicate Answers(r: Result<CancelReply, CancelError>, status: CancelStatus, item: ItemRow, at: int) {
    if Previewable(item, at) then r.Success? && r.value.status == status && r.value.state == item.state && PreviewOf(r.value.preview, item, at)
    else r == Failure(PreviewFailed)
  }

  /**
   The supplier is asked once, and exactly about the caller's own booking, waiting or confirmed there,
   that can be priced now and for which no cancellation was requested. Every other call is answered from
   the row and changes nothing: a cancelled booking and a requested one with the preview of that instant.
   */
  lemma CallsThatAsk(db: Db, reference: string, agency: Option<string>, world: CancelWorld)
    ensures var (db', r, calls) := CancelBooking(db, reference, agency, world);
            && calls <= 1
            && (calls == 1 <==> && Owns(db, reference, agency)
                                && var item := db.items[db.bookings[reference].itemId];
                                   Cancellable(item) && item.cancellationRequestedAt.None? && Previewable(item, world.now))
            && (calls == 0 ==> db' == db)
            && (!Owns(db, reference, agency) ==> r == Failure(BookingNotFound))
    ensures var (_, r, calls) := CancelBooking(db, reference, agency, world);
            calls == 0 && Owns(db, reference, agency) ==>
              var item := db.items[db.bookings[reference].itemId];
              if item.state == Cancelled then
                Answers(r, NowCancelled, item, if item.cancellationRequestedAt.Some? then item.cancellationRequestedAt.value else world.now)
              else if !Cancellable(item) then r == Failure(NotCancellable)
              else if !Previewable(item, world.now) then r == Failure(PreviewFailed)
              else item.cancellationRequestedAt.Some? && Answers(r, CancellationPending, item, item.cancellationRequestedAt.value)
  {
    if Owns(db, reference, agency) {
      var item := db.items[db.bookings[reference].itemId];
      PreviewsShowThePolicy(item, world.now);
      if item.cancellationRequestedAt.Some? {
        PreviewsShowThePolicy(item, item.cancellationRequestedAt.value);
      }
    }
  }

  // ---------------------------------------------------------------------------
  // The settlement charges the preview

  /** The item was cancelled at that penalty, and its balances are the penalty's. */
  ghost predicate CancelledAt(db: Db, id: nat, penalty: Money, requestedAt: int) {
    && id in db.items && db.items[id].state == Cancelled && db.items[id].cancellationRequestedAt == Some(requestedAt)
    && Charged(PostedPenalty(db.audit, id)) == penalty.amount
    && forall account, currency :: Balance(db.journal, id, account, currency) == AccountSign(account) * In(penalty, currency)
  }

  /** The settling transition charges the penalty, and leaves its balances. */
  lemma SettlementCharges(now: Db, id: nat, from: ItemState, requestedAt: int, penalty: Money, turn: Turn)
    requires Inv(now) && Transition(now, id, Cancelled, SettleContext(from, requestedAt, penalty, turn)).1.Success?
    ensures CancelledAt(Transition(now, id, Cancelled, SettleContext(from, requestedAt, penalty, turn)).0, id, penalty, requestedAt)
  {
    var op := Move(id, Cancelled, SettleContext(from, requestedAt, penalty, turn));
    TransitionWrites(now, id, Cancelled, op.ctx);
    PostedAreTheLines(now, op);
    MoveTrails(now, op, id);
    StepKeepsInv(now, op);
    BalancesAreThePenalty(Apply(now, op), id, penalty);
  }

  lemma BalancesAreThePenalty(db: Db, id: nat, penalty: Money)
    requires Inv(db) && id in db.items && db.items[id].state == Cancelled && PostedPenalty(db.audit, id) == FreeAsNone(penalty)
    ensures Charged(PostedPenalty(db.audit, id)) == penalty.amount
    ensures forall account, currency :: Balance(db.journal, id, account, currency) == AccountSign(account) * In(penalty, currency)
  {
    assert ItemInv(db, id);
    forall account, currency ensures Balance(db.journal, id, account, currency) == AccountSign(account) * In(penalty, currency) {
      assert ItemRuns.Settled(db, id, account, currency);
    }
  }

  lemma AttemptCharges(db: Db, id: nat, requestedAt: int, penalty: Money, turn: Turn)
    requires Inv(db) && id in db.items && Attempt(db, id, requestedAt, penalty, turn).1 == Done(true)
    ensures CancelledAt(Attempt(db, id, requestedAt, penalty, turn).0, id, penalty, requestedAt)
  {
    var read := Run(db, turn.beforeRead);
    RunFromKeepsInv(db, turn.beforeRead);
    RunFromKeepsInv(read, turn.beforeWrite);
    SettlementCharges(Run(read, turn.beforeWrite), id, read.items[id].state, requestedAt, penalty, turn);
  }

  /** The attempts that settle the item themselves charge their penalty, once. */
  lemma {:induction false} AttemptsCharge(db: Db, id: nat, requestedAt: int, penalty: Money, turns: seq<Turn>)
    requires Inv(db) && id in db.items && ValidMoney(penalty) && Rank(db.items[id].state) >= 2
    requires Attempts(db, id, requestedAt, penalty, turns).1 == Done(true)
    ensures CancelledAt(Attempts(db, id, requestedAt, penalty, turns).0, id, penalty, requestedAt)
  {
    var init := turns[..|turns| - 1];
    if Attempts(db, id, requestedAt, penalty, init).1 == Retry {
      AttemptsClimb(db, id, requestedAt, penalty, init);
      AttemptCharges(Attempts(db, id, requestedAt, penalty, init).0, id, requestedAt, penalty, turns[|turns| - 1]);
    } else {
      AttemptsCharge(db, id, requestedAt, penalty, init);
    }
  }

  /** None of these operations cancels the item. */
  predicate LeavesUncancelled(ops: seq<Op>, id: nat) {
    forall i :: 0 <= i < |ops| ==> !(ops[i].Move? && ops[i].itemId == id && ops[i].to == Cancelled)
  }

  lemma {:induction false} StaysUncancelled(db: Db, ops: seq<Op>, id: nat)
    requires id in db.items && db.items[id].state != Cancelled && LeavesUncancelled(ops, id)
    ensures id in Run(db, ops).items && Run(db, ops).items[id].state != Cancelled
  {
    if ops != [] {
      StaysUncancelled(db, ops[..|ops| - 1], id);
      OneOpClimbs(Run(db, ops[..|ops| - 1]), ops[|ops| - 1], id);
    }
  }

  predicate TurnsLeaveUncancelled(turns: seq<Turn>, id: nat) {
    forall i :: 0 <= i < |turns| ==> LeavesUncancelled(turns[i].beforeRead, id) && LeavesUncancelled(turns[i].beforeWrite, id)
  }

  lemma OwnAttempt(db: Db, id: nat, requestedAt: int, penalty: Money, turn: Turn)
    requires id in db.items && db.items[id].state != Cancelled
    requires LeavesUncancelled(turn.beforeRead, id) && LeavesUncancelled(turn.beforeWrite, id)
    ensures var (db', verdict) := Attempt(db, id, requestedAt, penalty, turn);
            verdict != Done(false) && (verdict == Retry ==> id in db'.items && db'.items[id].state != Cancelled)
  {
    StaysUncancelled(db, turn.beforeRead, id);
    StaysUncancelled(Run(db, turn.beforeRead), turn.beforeWrite, id);
  }

  /** If nobody else cancels the item meanwhile, a call that finds it cancelled has cancelled it. */
  lemma {:induction false} OwnCancellation(db: Db, id: nat, requestedAt: int, penalty: Money, turns: seq<Turn>)
    requires id in db.items && db.items[id].state != Cancelled && TurnsLeaveUncancelled(turns, id)
    ensures var (db', verdict) := Attempts(db, id, requestedAt, penalty, turns);
            verdict != Done(false) && (verdict == Retry ==> id in db'.items && db'.items[id].state != Cancelled)
  {
    if turns != [] {
      var init, turn := turns[..|turns| - 1], turns[|turns| - 1];
      OwnCancellation(db, id, requestedAt, penalty, init);
      var (mid, verdict) := Attempts(db, id, requestedAt, penalty, init);
      if verdict == Retry {
        OwnAttempt(mid, id, requestedAt, penalty, turn);
      }
    }
  }

  /** The loop of this call, run for the penalty of its reply, ends with the call's own transition. */
  predicate SettlesItself(db: Db, reference: string, agency: Option<string>, world: CancelWorld) {
    var r := CancelBooking(db, reference, agency, world).1;
    && reference in db.bookings && r.Success?
    && Attempts(Run(db, world.duringCall), db.bookings[reference].itemId, world.now, r.value.preview.penalty, world.turns).1 == Done(true)
  }

  /**
   The call charges what it previewed. When its own transition settles the cancellation, then whatever
   others committed in between the item is cancelled as requested now, at the penalty its policy asked for
   when the call was priced; that is the penalty previewed to the caller, the one posted, and what the four
   balances come to.
   */
  lemma SettlingCallsCharge(db: Db, reference: string, agency: Option<string>, world: CancelWorld)
    requires Inv(db) && world.answer == SaysCancelled
    requires CancelBooking(db, reference, agency, world).2 == 1 && SettlesItself(db, reference, agency, world)
    ensures var (db', r, _) := CancelBooking(db, reference, agency, world);
            var id := db.bookings[reference].itemId;
            && r.value.status == NowCancelled && r.value.state == Cancelled && PreviewOf(r.value.preview, db.items[id], world.now)
            && CancelledAt(db', id, r.value.preview.penalty, world.now)
  {
    var id := db.bookings[reference].itemId;
    assert ItemInv(db, id);
    PreviewsShowThePolicy(db.items[id], world.now);
    PreviewPenaltyIsValid(db.items[id], world.now);
    RunFromKeepsInv(db, world.duringCall);
    ItemsOnlyClimb(db, world.duringCall, id);
    AttemptsCharge(Run(db, world.duringCall), id, world.now, BuildPreview(db.items[id], world.now).value.penalty, world.turns);
  }

  /** And it does settle itself whenever it succeeds and nobody else cancels the item meanwhile. */
  lemma CancellationChargesItsPreview(db: Db, reference: string, agency: Option<string>, world: CancelWorld)
    requires Inv(db) && |world.turns| == MAX_ATTEMPTS && world.answer == SaysCancelled
    requires CancelBooking(db, reference, agency, world).2 == 1 && CancelBooking(db, reference, agency, world).1.Success?
    requires LeavesUncancelled(world.duringCall, db.bookings[reference].itemId) && TurnsLeaveUncancelled(world.turns, db.bookings[reference].itemId)
    ensures SettlesItself(db, reference, agency, world)
    ensures var (db', r, _) := CancelBooking(db, reference, agency, world);
            CancelledAt(db', db.bookings[reference].itemId, r.value.preview.penalty, world.now)
  {
    var id := db.bookings[reference].itemId;
    var after := Run(db, world.duringCall);
    ItemsOnlyClimb(db, world.duringCall, id);
    StaysUncancelled(db, world.duringCall, id);
    OwnCancellation(after, id, world.now, BuildPreview(db.items[id], world.now).value.penalty, world.turns);
    SettlingCallsCharge(db, reference, agency, world);
  }

  /** Others commit nothing while the call runs. */
  predicate Undisturbed(world: CancelWorld) {
    && world.duringCall == [] && world.beforeMark == [] && world.beforeEscalate == []
    && forall i :: 0 <= i < |world.turns| ==> world.turns[i].beforeRead == [] && world.turns[i].beforeWrite == []
  }

  lemma FirstAttemptSettles(db: Db, id: nat, requestedAt: int, penalty: Money, turns: seq<Turn>)
    requires Inv(db) && id in db.items && db.items[id].state in {ItemState.Confirmed, PendingConfirmation} && ValidMoney(penalty)
    requires turns != [] && turns[0].beforeRead == [] && turns[0].beforeWrite == []
    ensures Attempts(db, id, requestedAt, penalty, turns).1 == Done(true)
  {
    var first := turns[..1];
    assert first[..0] == [];
    assert Attempts(db, id, requestedAt, penalty, []) == (db, Retry);
    SettlingRefusesOnlyOnConflict(db, id, SettleContext(db.items[id].state, requestedAt, penalty, turns[0]));
    assert Attempts(db, id, requestedAt, penalty, first) == Attempt(db, id, requestedAt, penalty, first[0]);
    VerdictStands(db, id, requestedAt, penalty, turns, 1);
  }

  /**
   An undisturbed call does what the supplier answered: it succeeds, and leaves the item cancelled and
   charged, or waiting with the request recorded now and a poll due at once. A failed supplier call
   leaves everything as it was.
   */
  lemma UndisturbedCallSettles(db: Db, reference: string, agency: Option<string>, world: CancelWorld)
    requires Inv(db) && |world.turns| == MAX_ATTEMPTS && Undisturbed(world)
    requires CancelBooking(db, reference, agency, world).2 == 1
    ensures var (db', r, _) := CancelBooking(db, reference, agency, world);
            var id := db.bookings[reference].itemId;
            var item := db.items[id];
            && id in db'.items
            && (r.Success? ==> PreviewOf(r.value.preview, item, world.now) && r.value.state == db'.items[id].state)
            && match world.answer
               case CancelCallFails => r == Failure(SupplierCallFailed) && db' == db
               case SaysCancelled => r.Success? && r.value.status == NowCancelled && CancelledAt(db', id, r.value.preview.penalty, world.now)
               case SaysInProgress =>
                 && r.Success? && r.value.status == CancellationPending && db'.journal == db.journal
                 && db'.items[id].state == item.state && db'.items[id].cancellationRequestedAt == Some(world.now)
                 && db'.items[id].nextPollAt == Some(world.now) && db'.items[id].pollAttempts == 0
  {
    var id := db.bookings[reference].itemId;
    var preview := BuildPreview(db.items[id], world.now).value;
    assert ItemInv(db, id);
    PreviewsShowThePolicy(db.items[id], world.now);
    PreviewPenaltyIsValid(db.items[id], world.now);
    match world.answer {
      case CancelCallFails =>
      case SaysCancelled =>
        FirstAttemptSettles(db, id, world.now, preview.penalty, world.turns);
        AttemptsCharge(db, id, world.now, preview.penalty, world.turns);
      case SaysInProgress =>
        RequestWrites(db, id, world.now);
    }
  }

  /**
   While the supplier works on it, whatever others commit meanwhile, the call succeeds and says the
   cancellation is pending, or done if the item is cancelled by then; an item found waiting without a
   request, and still so when the request is written, has it recorded at the call's own instant.
   */
  lemma RequestIsRecordedAtTheCall(db: Db, reference: string, agency: Option<string>, world: CancelWorld)
    requires world.answer == SaysInProgress && CancelBooking(db, reference, agency, world).2 == 1
    ensures var (db', r, _) := CancelBooking(db, reference, agency, world);
            var id, after := db.bookings[reference].itemId, Run(db, world.duringCall);
            && id in after.items && id in Run(after, world.beforeMark).items && id in db'.items
            && r.Success? && r.value.state == after.items[id].state && PreviewOf(r.value.preview, db.items[id], world.now)
            && r.value.status == (if after.items[id].state == Cancelled then NowCancelled else CancellationPending)
            && (AwaitsARequest(after.items[id]) && AwaitsARequest(Run(after, world.beforeMark).items[id]) ==>
                  && db'.items[id].cancellationRequestedAt == Some(world.now) && db'.items[id].nextPollAt == Some(world.now)
                  && db'.items[id].state == Run(after, world.beforeMark).items[id].state)
            && (!AwaitsARequest(after.items[id]) ==> db' == after)
  {
    var id, after := db.bookings[reference].itemId, Run(db, world.duringCall);
    PreviewsShowThePolicy(db.items[id], world.now);
    ItemsOnlyClimb(db, world.duringCall, id);
    BookingsStay(db, world.duringCall, reference);
    ItemsOnlyClimb(after, world.beforeMark, id);
    RequestWrites(Run(after, world.beforeMark), id, world.now);
  }

  predicate AwaitsARequest(item: ItemRow) {
    item.state in {ItemState.Confirmed, PendingConfirmation} && item.cancellationRequestedAt.None?
  }
}
