/**
 What a bookHotel call is told (apps/api/src/hotel-booking/booking.service.ts): a call for a bookable offer
 that nobody disturbs books it and reports what the supplier answered; a call whose client reference is
 taken is a replay of the same request or is refused.
 */
module BookingReplies {
  import opened BookingOutcomes
  import opened BookingProtocol
  import opened BookingStates
  import opened ItemRuns
  import opened Money
  import opened OfferStore
  import opened PendingPoller
  import opened RunnerLaws
  import opened TransitionRunner
  import opened Wrappers

  // ---------------------------------------------------------------------------
  // The gate

  /** The offer can be booked by this call now: presented and signed as stored, for the call's agency and guests, live, checked recently enough, and on known cancellation terms. */
  predicate Bookable(setup: Setup, s: State, input: BookInput) {
    && input.token.Some? && input.token.value.offerId in s.offers
    && var token, row := input.token.value, s.offers[input.token.value.offerId];
       && row.details.Some? && row.priceHash == token.signature && setup.verifies(token.offerId, row, token.signature)
       && row.details.value.subTenant == input.agency && row.details.value.guestsPerRoom == input.guestsPerRoom
       && row.invalidatedAt.None? && s.now < row.expiresAt
       && row.checkedAt.Some? && s.now <= row.checkedAt.value + setup.bookableWindowMs
       && row.policySnapshot.Some?
  }

  /** The ticket of an offer read and decided on now. */
  function TicketNow(s: State, input: BookInput): Ticket
    requires input.token.Some? && input.token.value.offerId in s.offers
  {
    Ticket(input.token.value.offerId, s.offers[input.token.value.offerId], s.now)
  }

  /** The call is at `pc`, and nothing else has changed. */
  predicate Begun(s0: State, s: State, pid: nat, input: BookInput, pc: Pc) {
    s == s0.(procs := s0.procs[pid := Proc(Booking(input), pc)])
  }

  /** A call that reads and decides now goes on to claim its offer exactly if the offer is bookable; otherwise it is refused. */
  lemma GateAdmitsIff(setup: Setup, s: State, pid: nat, input: BookInput)
    requires pid in s.procs && s.procs[pid] == Proc(Booking(input), Reading)
    ensures var s' := DoDecide(setup, DoRead(s, pid), pid);
            && pid in s'.procs && s' == To(s, pid, s'.procs[pid].pc)
            && (if Bookable(setup, s, input) then s'.procs[pid].pc == Claiming(TicketNow(s, input))
                else s'.procs[pid].pc.Finished? && s'.procs[pid].pc.reply.Refused?)
  {
    var read := DoRead(s, pid);
    assert read.procs[pid].task == Booking(input) && read.now == s.now;
    var s' := DoDecide(setup, read, pid);
    assert s'.procs == s.procs[pid := s'.procs[pid]];
  }

  ghost predicate ReferencesOk(s: State) {
    && (forall pid :: pid in s.procs && !s.procs[pid].pc.Finished? ==> ValidReference(s.procs[pid].task))
    && (forall k :: 0 <= k < |s.calls| ==> 1 <= |s.calls[k].clientReference| <= 64)
  }

  lemma StepKeepsReferences(s: State, s': State, step: Step)
    requires ReferencesOk(s) && ProcsEffect(s, s', step) && CallsEffect(s, s', step)
    ensures ReferencesOk(s')
  {
  }

  /** No call goes out under a reference that is empty or longer than 64 characters. */
  lemma {:induction false} CallsHaveValidReferences(setup: Setup, steps: seq<Step>)
    ensures ReferencesOk(Execute(setup, steps))
  {
    if steps != [] {
      var s, step := Execute(setup, steps[..|steps| - 1]), steps[|steps| - 1];
      CallsHaveValidReferences(setup, steps[..|steps| - 1]);
      DoShape(setup, s, step);
      DoCalls(setup, s, step);
      StepKeepsReferences(s, Do(setup, s, step), step);
    }
  }

  // ---------------------------------------------------------------------------
  // An undisturbed call

  function ExecuteFrom(setup: Setup, s: State, steps: seq<Step>): State {
    if steps == [] then s else Do(setup, ExecuteFrom(setup, s, steps[..|steps| - 1]), steps[|steps| - 1])
  }

  lemma OneMoreStep(setup: Setup, s: State, steps: seq<Step>, step: Step)
    ensures ExecuteFrom(setup, s, steps + [step]) == Do(setup, ExecuteFrom(setup, s, steps), step)
  {
    assert (steps + [step])[..|steps|] == steps;
  }

  /** What the call took: its offer is withdrawn now, and nothing else is. */
  predicate Taken(s0: State, s: State, ticket: Ticket) {
    ticket.offerId in s0.offers && s.offers == s0.offers[ticket.offerId := s0.offers[ticket.offerId].(invalidatedAt := Some(s0.now))]
  }

  /** What it booked: one new item on the ticket's terms, for its reference and agency. */
  predicate Made(s0: State, s: State, input: BookInput, ticket: Ticket, itemId: nat) {
    && s.db.bookings == s0.db.bookings[input.clientReference := BookingRow(input.agency, itemId)]
    && s.db.items.Keys == s0.db.items.Keys + {itemId} && (forall id :: id in s0.db.items ==> id in s.db.items && s.db.items[id] == s0.db.items[id])
    && itemId in s.db.items
    && var item := s.db.items[itemId];
       && item.offerId == Some(ticket.offerId) && ticket.row.policySnapshot == Some(item.policy)
       && Money(item.net, item.currency) == ticket.row.net && Money(item.sell, item.currency) == ticket.row.sell
  }

  /** The price is one the money type and the table hold. */
  predicate Priced(row: StoredOffer) {
    ValidMoney(row.net) && ValidMoney(row.sell) && row.net.currency == row.sell.currency && row.net.amount >= 0 && row.sell.amount >= 0
  }

  predicate NowAt(s: State, pid: nat, input: BookInput, pc: Pc) {
    pid in s.procs && s.procs[pid] == Proc(Booking(input), pc)
  }

  lemma StartsReading(setup: Setup, s: State, pid: nat, input: BookInput)
    requires pid !in s.procs && 0 < |input.clientReference| <= 64 && input.clientReference !in s.db.bookings
    ensures Begun(s, Do(setup, Do(setup, s, Start(pid, Booking(input))), By(pid, Look)), pid, input, Reading)
  {
    var s1 := Do(setup, s, Start(pid, Booking(input)));
    assert s1.procs[pid] == Proc(Booking(input), Looking);
  }

  lemma ReadsAndDecides(setup: Setup, s0: State, s: State, pid: nat, input: BookInput)
    requires Begun(s0, s, pid, input, Reading) && Bookable(setup, s0, input)
    ensures Begun(s0, Do(setup, Do(setup, s, By(pid, ReadOffer)), By(pid, Decide)), pid, input, Claiming(TicketNow(s0, input)))
  {
    GateAdmitsIff(setup, s, pid, input);
    var s' := DoDecide(setup, DoRead(s, pid), pid);
    assert Do(setup, s, By(pid, ReadOffer)) == DoRead(s, pid);
    assert Do(setup, DoRead(s, pid), By(pid, Decide)) == s';
    assert s'.procs == s0.procs[pid := Proc(Booking(input), Claiming(TicketNow(s0, input)))];
  }

  lemma ClaimsTheOffer(setup: Setup, s0: State, s: State, pid: nat, input: BookInput)
    requires ProtocolInv(setup, s0) && Bookable(setup, s0, input) && Begun(s0, s, pid, input, Claiming(TicketNow(s0, input)))
    ensures var s' := Do(setup, s, By(pid, ClaimOffer));
            NowAt(s', pid, input, Creating(TicketNow(s0, input))) && Taken(s0, s', TicketNow(s0, input)) && s'.db == s0.db && s'.calls == s0.calls
  {
  }

  lemma CreatesTheBooking(setup: Setup, s0: State, s: State, pid: nat, input: BookInput, ticket: Ticket, itemId: nat, at: int)
    requires NowAt(s, pid, input, Creating(ticket)) && Taken(s0, s, ticket) && s.db == s0.db && s.calls == s0.calls
    requires Priced(ticket.row) && ticket.row.policySnapshot.Some?
    requires 0 < |input.clientReference| && input.clientReference !in s0.db.bookings && itemId !in s0.db.items
    ensures var s' := Do(setup, s, By(pid, CreateBooking(itemId, at)));
            && NowAt(s', pid, input, Reserving(ticket, itemId)) && Taken(s0, s', ticket) && s'.calls == s0.calls
            && Made(s0, s', input, ticket, itemId) && s'.db.items[itemId].state == Quoted
  {
    CreationWrites(s.db, RequestOf(input, ticket), itemId, at);
  }

  lemma ReservesTheItem(setup: Setup, s0: State, s: State, pid: nat, input: BookInput, ticket: Ticket, itemId: nat, at: int, group: nat)
    requires Inv(s.db) && NowAt(s, pid, input, Reserving(ticket, itemId)) && Taken(s0, s, ticket) && s.calls == s0.calls
    requires Made(s0, s, input, ticket, itemId) && s.db.items[itemId].state == Quoted && itemId !in s0.db.items
    ensures var s' := Do(setup, s, By(pid, Reserve(at, group)));
            && NowAt(s', pid, input, Calling(ticket, itemId)) && Taken(s0, s', ticket) && s'.calls == s0.calls
            && Made(s0, s', input, ticket, itemId) && s'.db.items[itemId].state == ItemState.Reserved
  {
    var ctx := TransitionContext(Quoted, NO_PATCH, None, at, group);
    TransitionSucceedsIff(s.db, itemId, ItemState.Reserved, ctx);
    TransitionWrites(s.db, itemId, ItemState.Reserved, ctx);
  }

  lemma SendsTheCall(setup: Setup, s0: State, s: State, pid: nat, input: BookInput, ticket: Ticket, itemId: nat)
    requires NowAt(s, pid, input, Calling(ticket, itemId)) && Taken(s0, s, ticket) && s.calls == s0.calls
    ensures var s' := Do(setup, s, By(pid, SendBook(Sent)));
            && NowAt(s', pid, input, Answering(itemId, |s0.calls|)) && Taken(s0, s', ticket)
            && s'.calls == s0.calls + [BookCall(pid, input.clientReference, ticket, itemId)] && s'.db == s.db
  {
  }

  lemma ReceivesTheAnswer(setup: Setup, s0: State, s: State, pid: nat, input: BookInput, ticket: Ticket, itemId: nat, call: nat, answer: BookAnswer, clock: PollClock)
    requires Inv(s.db) && NowAt(s, pid, input, Answering(itemId, call)) && Taken(s0, s, ticket)
    requires Made(s0, s, input, ticket, itemId) && s.db.items[itemId].state == ItemState.Reserved && itemId !in s0.db.items
    ensures var s' := Do(setup, s, By(pid, ReceiveBook(answer, clock)));
            && AnswerSettled(s, s', pid, itemId, answer, clock) && Taken(s0, s', ticket) && s'.calls == s.calls
            && Made(s0, s', input, ticket, itemId)
  {
    AnswerSettles(s, pid, answer, clock);
    AnswersKeepTheTerms(s, pid, answer, clock);
  }

  /** Settling an answer keeps the terms of every item, and adds none. */
  lemma AnswersKeepTheTerms(s: State, pid: nat, answer: BookAnswer, clock: PollClock)
    requires pid in s.procs && s.procs[pid].pc.Answering?
    ensures var s' := DoReceive(s, pid, answer, clock);
            && s'.db.items.Keys == s.db.items.Keys && RowsKept(s.db, s'.db) && s'.offers == s.offers && s'.calls == s.calls
  {
    OpKeepsRows(s.db, SettleOp(s.procs[pid].pc.itemId, answer, clock));
  }

  lemma StepKeepsBooks(setup: Setup, s: State, step: Step)
    requires Inv(s.db)
    ensures Inv(Do(setup, s, step).db)
  {
    var ops := StepCommits(setup, s, step);
    RunFromKeepsInv(s.db, ops);
  }

  /** Everything a call may count on: a fresh process and reference, a free item number, and a bookable, priced offer. */
  ghost predicate CanBook(setup: Setup, s: State, pid: nat, input: BookInput, itemId: nat) {
    && ProtocolInv(setup, s) && Inv(s.db)
    && pid !in s.procs && 0 < |input.clientReference| <= 64 && input.clientReference !in s.db.bookings && itemId !in s.db.items
    && Bookable(setup, s, input) && Priced(s.offers[input.token.value.offerId])
  }

  /** The process holds its reserved item, and waits for the supplier; the offer is withdrawn. */
  ghost predicate Awaiting(s0: State, s: State, pid: nat, input: BookInput, itemId: nat)
    requires input.token.Some? && input.token.value.offerId in s0.offers
  {
    var ticket := TicketNow(s0, input);
    && Inv(s.db) && NowAt(s, pid, input, Answering(itemId, |s0.calls|)) && Taken(s0, s, ticket)
    && s.calls == s0.calls + [BookCall(pid, input.clientReference, ticket, itemId)]
    && Made(s0, s, input, ticket, itemId) && s.db.items[itemId].state == ItemState.Reserved && itemId !in s0.db.items
  }

  lemma PassesTheGate(setup: Setup, s0: State, pid: nat, input: BookInput, itemId: nat) returns (s: State, steps: seq<Step>)
    requires CanBook(setup, s0, pid, input, itemId)
    ensures s == ExecuteFrom(setup, s0, steps) && Begun(s0, s, pid, input, Claiming(TicketNow(s0, input)))
  {
    StartsReading(setup, s0, pid, input);
    OneMoreStep(setup, s0, [], Start(pid, Booking(input)));
    steps := [] + [Start(pid, Booking(input))];
    OneMoreStep(setup, s0, steps, By(pid, Look));
    steps := steps + [By(pid, Look)];
    ReadsAndDecides(setup, s0, ExecuteFrom(setup, s0, steps), pid, input);
    OneMoreStep(setup, s0, steps, By(pid, ReadOffer));
    OneMoreStep(setup, s0, steps + [By(pid, ReadOffer)], By(pid, Decide));
    steps := steps + [By(pid, ReadOffer)] + [By(pid, Decide)];
    s := ExecuteFrom(setup, s0, steps);
  }

  lemma HoldsAnItem(setup: Setup, s0: State, pid: nat, input: BookInput, itemId: nat, at: int) returns (s: State, steps: seq<Step>)
    requires CanBook(setup, s0, pid, input, itemId)
    ensures s == ExecuteFrom(setup, s0, steps) && Inv(s.db)
    ensures var ticket := TicketNow(s0, input);
            && NowAt(s, pid, input, Reserving(ticket, itemId)) && Taken(s0, s, ticket) && s.calls == s0.calls
            && Made(s0, s, input, ticket, itemId) && s.db.items[itemId].state == Quoted
  {
    s, steps := PassesTheGate(setup, s0, pid, input, itemId);
    ClaimsTheOffer(setup, s0, s, pid, input);
    OneMoreStep(setup, s0, steps, By(pid, ClaimOffer));
    steps := steps + [By(pid, ClaimOffer)];
    s := ExecuteFrom(setup, s0, steps);
    CreatesTheBooking(setup, s0, s, pid, input, TicketNow(s0, input), itemId, at);
    StepKeepsBooks(setup, s, By(pid, CreateBooking(itemId, at)));
    OneMoreStep(setup, s0, steps, By(pid, CreateBooking(itemId, at)));
    steps := steps + [By(pid, CreateBooking(itemId, at))];
    s := ExecuteFrom(setup, s0, steps);
  }

  lemma ReachesTheSupplier(setup: Setup, s0: State, pid: nat, input: BookInput, itemId: nat, at: int, group: nat) returns (s: State, steps: seq<Step>)
    requires CanBook(setup, s0, pid, input, itemId)
    ensures s == ExecuteFrom(setup, s0, steps) && Awaiting(s0, s, pid, input, itemId)
  {
    s, steps := HoldsAnItem(setup, s0, pid, input, itemId, at);
    ReservesTheItem(setup, s0, s, pid, input, TicketNow(s0, input), itemId, at, group);
    StepKeepsBooks(setup, s, By(pid, Reserve(at, group)));
    OneMoreStep(setup, s0, steps, By(pid, Reserve(at, group)));
    steps := steps + [By(pid, Reserve(at, group))];
    s := ExecuteFrom(setup, s0, steps);
    SendsTheCall(setup, s0, s, pid, input, TicketNow(s0, input), itemId);
    OneMoreStep(setup, s0, steps, By(pid, SendBook(Sent)));
    steps := steps + [By(pid, SendBook(Sent))];
    s := ExecuteFrom(setup, s0, steps);
  }

  /**
   A call that nobody disturbs, for a bookable offer and a fresh reference, always gets through, from any
   reachable state: it withdraws the offer, makes one booking on the offer's terms, calls the supplier
   once, and leaves the item, the books and the reply as the supplier's answer has it.
   */
  lemma UndisturbedBookingSucceeds(setup: Setup, s0: State, pid: nat, input: BookInput, itemId: nat, at: int, group: nat,
                                   answer: BookAnswer, clock: PollClock)
    returns (before: State, s: State, steps: seq<Step>)
    requires CanBook(setup, s0, pid, input, itemId)
    ensures s == ExecuteFrom(setup, s0, steps)
    ensures var ticket := TicketNow(s0, input);
            && Awaiting(s0, before, pid, input, itemId) && AnswerSettled(before, s, pid, itemId, answer, clock)
            && Taken(s0, s, ticket) && Made(s0, s, input, ticket, itemId)
            && s.calls == s0.calls + [BookCall(pid, input.clientReference, ticket, itemId)]
  {
    before, steps := ReachesTheSupplier(setup, s0, pid, input, itemId, at, group);
    ReceivesTheAnswer(setup, s0, before, pid, input, TicketNow(s0, input), itemId, |s0.calls|, answer, clock);
    OneMoreStep(setup, s0, steps, By(pid, ReceiveBook(answer, clock)));
    steps := steps + [By(pid, ReceiveBook(answer, clock))];
    s := ExecuteFrom(setup, s0, steps);
  }

  // ---------------------------------------------------------------------------
  // Replays

  /** The same request again: the same agency, for the same offer. */
  predicate SameRequest(db: Db, input: BookInput)
    requires input.clientReference in db.bookings
  {
    var booking := db.bookings[input.clientReference];
    && booking.agency == input.agency && booking.itemId in db.items
    && input.token.Some? && db.items[booking.itemId].offerId == Some(input.token.value.offerId)
  }

  /**
   A call that finds its reference taken changes nothing and calls nobody. It is told the existing booking
   exactly if it is the same request; another agency learns only that the reference is in use, and another
   offer is a conflict.
   */
  lemma TakenReferencesReplay(setup: Setup, steps: seq<Step>, pid: nat, input: BookInput)
    requires var s := Execute(setup, steps);
             pid in s.procs && s.procs[pid] == Proc(Booking(input), Looking) && input.clientReference in s.db.bookings
    ensures var s := Execute(setup, steps);
            var s', booking := Do(setup, s, By(pid, Look)), s.db.bookings[input.clientReference];
            && pid in s'.procs && s'.procs[pid].pc.Finished? && s' == To(s, pid, s'.procs[pid].pc)
            && var reply := s'.procs[pid].pc.reply;
               && (SameRequest(s.db, input) <==> reply == Replayed(booking.itemId))
               && (booking.agency != input.agency <==> reply == Refused(ReferenceInUse))
               && (!SameRequest(s.db, input) && booking.agency == input.agency <==> reply == Refused(ReferenceConflict))
  {
    ExecutionKeepsInv(setup, steps);
    var s := Execute(setup, steps);
    BookingHasItem(setup, s, input.clientReference);
    RepliesToATaken(setup, s, pid, input);
  }

  lemma BookingHasItem(setup: Setup, s: State, reference: string)
    requires ProtocolInv(setup, s) && reference in s.db.bookings
    ensures s.db.bookings[reference].itemId in s.db.items
  {
    assert BookingOk(s, reference);
  }

  lemma RepliesToATaken(setup: Setup, s: State, pid: nat, input: BookInput)
    requires pid in s.procs && s.procs[pid] == Proc(Booking(input), Looking) && input.clientReference in s.db.bookings
    requires s.db.bookings[input.clientReference].itemId in s.db.items
    ensures var s', booking := Do(setup, s, By(pid, Look)), s.db.bookings[input.clientReference];
            && pid in s'.procs && s'.procs[pid].pc.Finished? && s' == To(s, pid, s'.procs[pid].pc)
            && var reply := s'.procs[pid].pc.reply;
               && (SameRequest(s.db, input) <==> reply == Replayed(booking.itemId))
               && (booking.agency != input.agency <==> reply == Refused(ReferenceInUse))
               && (!SameRequest(s.db, input) && booking.agency == input.agency <==> reply == Refused(ReferenceConflict))
  {
    var s' := Do(setup, s, By(pid, Look));
    assert s' == To(s, pid, s'.procs[pid].pc);
  }
}
