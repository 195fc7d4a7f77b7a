/**
 The booking transition runner (packages/booking-engine/src/runner.ts): the only writer of booking
 item state. Each of its operations is one database transaction; the functions below say what each
 transaction commits, and the class carries the same steps out statement by statement, rolling back
 when one of them refuses.
 */
module TransitionRunner {
  import opened BookingStates
  import opened CancellationPolicies
  import opened Ledger
  import opened Money
  import opened Wrappers

  datatype ItemRow = ItemRow(
    state: ItemState,
    supplierReference: Option<string>,
    offerId: Option<nat>,
    net: int,
    sell: int,
    currency: string,
    policy: Policy,
    createdAt: int,
    updatedAt: int,
    pendingSince: Option<int>,
    cancellationRequestedAt: Option<int>,
    pollAttempts: int,
    nextPollAt: Option<int>,
    escalatedAt: Option<int>
  )

  /** A booking row; M1 books exactly one item per booking, so the row names it. */
  datatype BookingRow = BookingRow(agency: Option<string>, itemId: nat)

  datatype Change =
    | BookingCreated
    | Moved(from: ItemState, to: ItemState)
    | CancellationRequested
    | Escalated

  /** Append-only audit: what changed on which item, and for a transition what it posted. */
  datatype AuditEvent = AuditEvent(itemId: nat, change: Change, group: Option<nat>, penalty: Option<Money>)

  /** An outbox row; its id is its position. */
  datatype OutboxEvent = OutboxEvent(itemId: nat, change: Change, occurredAt: int, publishedAt: Option<int>)

  /** The tenant database, as far as the booking engine writes it. */
  datatype Db = Db(
    bookings: map<string, BookingRow>,
    items: map<nat, ItemRow>,
    journal: seq<JournalEntry>,
    audit: seq<AuditEvent>,
    outbox: seq<OutboxEvent>
  )

  const EMPTY_DB := Db(map[], map[], [], [], [])

  datatype RunnerError =
    | InvalidInput
    | IllegalTransition
    | MissingPostingTemplate
    | ItemNotFound
    | TransitionConflict
    | UnsafeAmount
    | PostingRefused(error: PostingError)
    | ConstraintViolation

  // ---------------------------------------------------------------------------
  // createHotelBooking

  datatype CreateInput = CreateInput(
    clientReference: string,
    agency: Option<string>,
    offerId: Option<nat>,
    net: Money,
    sell: Money,
    policy: Policy
  )

  /** created is false when the client reference already had a booking; the row is then the original. */
  datatype Created = Created(created: bool, booking: BookingRow)

  function QuotedItem(input: CreateInput, now: int): ItemRow {
    ItemRow(Quoted, None, input.offerId, input.net.amount, input.sell.amount, input.sell.currency, input.policy,
            now, now, None, None, 0, None, None)
  }

  function CreateHotelBooking(db: Db, input: CreateInput, itemId: nat, now: int): (Db, Result<Created, RunnerError>) {
    if !ValidMoney(input.net) || !ValidMoney(input.sell) || input.net.currency != input.sell.currency || input.clientReference == "" then
      (db, Failure(InvalidInput))
    else if input.clientReference in db.bookings then
      (db, Success(Created(false, db.bookings[input.clientReference])))
    else if itemId in db.items || input.net.amount < 0 || input.sell.amount < 0 then
      (db, Failure(ConstraintViolation))
    else
      var booking := BookingRow(input.agency, itemId);
      (Db(db.bookings[input.clientReference := booking],
          db.items[itemId := QuotedItem(input, now)],
          db.journal,
          db.audit + [AuditEvent(itemId, BookingCreated, None, None)],
          db.outbox + [OutboxEvent(itemId, BookingCreated, now, None)]),
       Success(Created(true, booking)))
  }

  // ---------------------------------------------------------------------------
  // transition

  /** nextPollAt: None leaves it out, Some(None) sets null, Some(Some(t)) sets an instant. */
  datatype Patch = Patch(
    supplierReference: Option<string>,
    pendingSince: Option<int>,
    nextPollAt: Option<Option<int>>,
    cancellationRequestedAt: Option<int>
  )

  const NO_PATCH := Patch(None, None, None, None)

  /** penalty: None was not resolved, Some(None) resolved as free. group is the fresh group id. */
  datatype TransitionContext = TransitionContext(
    expectedFrom: ItemState,
    patch: Patch,
    penalty: Option<Option<Money>>,
    now: int,
    group: nat
  )

  function OrElse<T>(value: Option<T>, fallback: Option<T>): Option<T> {
    if value.Some? then value else fallback
  }

  function Patched(item: ItemRow, to: ItemState, ctx: TransitionContext): ItemRow {
    var patch := ctx.patch;
    var armed := patch.nextPollAt.Some? && patch.nextPollAt.value.Some?;
    item.(
      state := to,
      updatedAt := ctx.now,
      supplierReference := OrElse(patch.supplierReference, item.supplierReference),
      pendingSince := OrElse(patch.pendingSince, item.pendingSince),
      cancellationRequestedAt := OrElse(patch.cancellationRequestedAt, item.cancellationRequestedAt),
      nextPollAt :=
        if patch.nextPollAt.Some? then patch.nextPollAt.value
        else if to == PendingConfirmation then item.nextPollAt
        else None,
      pollAttempts := if to == PendingConfirmation || armed then 0 else item.pollAttempts
    )
  }

  datatype TransitionOutcome = TransitionOutcome(from: ItemState, to: ItemState, group: Option<nat>, journalEntryCount: nat)

  function Transition(db: Db, itemId: nat, to: ItemState, ctx: TransitionContext): (Db, Result<TransitionOutcome, RunnerError>) {
    var from := ctx.expectedFrom;
    if !CanTransition(from, to) then (db, Failure(IllegalTransition))
    else if PostingTemplate(from, to).None? then (db, Failure(MissingPostingTemplate))
    else if itemId !in db.items then (db, Failure(ItemNotFound))
    else
      var item := db.items[itemId];
      if item.state != from then (db, Failure(TransitionConflict))
      else if !SafeInteger(item.sell) || !SafeInteger(item.net) then (db, Failure(UnsafeAmount))
      else
        match PostTransitionEntries(PostingTemplate(from, to).value, Money(item.sell, item.currency), Money(item.net, item.currency),
                                    ctx.penalty, ctx.group, itemId)
        case Failure(e) => (db, Failure(PostingRefused(e)))
        case Success(posting) =>
          var penalty := if ctx.penalty.Some? then ctx.penalty.value else None;
          (Db(db.bookings,
              db.items[itemId := Patched(item, to, ctx)],
              db.journal + posting.entries,
              db.audit + [AuditEvent(itemId, Moved(from, to), posting.group, penalty)],
              db.outbox + [OutboxEvent(itemId, Moved(from, to), ctx.now, None)]),
           Success(TransitionOutcome(from, to, posting.group, |posting.entries|)))
  }

  // ---------------------------------------------------------------------------
  // markCancellationRequested, escalate, recordPollAttempt

  function MarkCancellationRequested(db: Db, itemId: nat, requestedAt: int): (Db, Result<(), RunnerError>) {
    if itemId in db.items
       && db.items[itemId].state in {Confirmed, PendingConfirmation}
       && db.items[itemId].cancellationRequestedAt.None?
    then
      var item := db.items[itemId].(cancellationRequestedAt := Some(requestedAt), nextPollAt := Some(requestedAt),
                                    pollAttempts := 0, updatedAt := requestedAt);
      (db.(items := db.items[itemId := item],
           audit := db.audit + [AuditEvent(itemId, CancellationRequested, None, None)],
           outbox := db.outbox + [OutboxEvent(itemId, CancellationRequested, requestedAt, None)]),
       Success(()))
    else (db, Failure(TransitionConflict))
  }

  function Escalate(db: Db, itemId: nat, now: int): (Db, bool) {
    if itemId in db.items && db.items[itemId].escalatedAt.None? then
      (db.(items := db.items[itemId := db.items[itemId].(escalatedAt := Some(now), updatedAt := now)],
           audit := db.audit + [AuditEvent(itemId, Escalated, None, None)],
           outbox := db.outbox + [OutboxEvent(itemId, Escalated, now, None)]),
       true)
    else (db, false)
  }

  /** Guarded on escalation only: an item that moved on concurrently is rescheduled all the same. */
  function RecordPollAttempt(db: Db, itemId: nat, attempts: int, nextPollAt: int): Db {
    if itemId in db.items && db.items[itemId].escalatedAt.None? then
      db.(items := db.items[itemId := db.items[itemId].(pollAttempts := attempts, nextPollAt := Some(nextPollAt))])
    else db
  }

  /** The dispatcher's stamp on an accepted event; a stamped row is left alone. */
  function StampPublished(db: Db, id: nat, at: int): Db {
    if id < |db.outbox| && db.outbox[id].publishedAt.None? then
      db.(outbox := db.outbox[id := db.outbox[id].(publishedAt := Some(at))])
    else db
  }

  // ---------------------------------------------------------------------------
  // The runner over a mutable database

  class TenantDatabase {
    var bookings: map<string, BookingRow>
    var items: map<nat, ItemRow>
    var journal: seq<JournalEntry>
    var audit: seq<AuditEvent>
    var outbox: seq<OutboxEvent>

    constructor ()
      ensures Contents() == EMPTY_DB
    {
      bookings, items, journal, audit, outbox := map[], map[], [], [], [];
    }

    function Contents(): Db
      reads this
    {
      Db(bookings, items, journal, audit, outbox)
    }

    /** The database as some transaction leaves it: rolled back, or as another connection committed it. */
    method Become(db: Db)
      modifies this
      ensures Contents() == db
    {
      bookings, items, journal, audit, outbox := db.bookings, db.items, db.journal, db.audit, db.outbox;
    }
  }

  class BookingTransitionRunner {
    const db: TenantDatabase

    constructor (db: TenantDatabase)
      ensures this.db == db
    {
      this.db := db;
    }

    method CreateBooking(input: CreateInput, itemId: nat, now: int) returns (r: Result<Created, RunnerError>)
      modifies db
      ensures (db.Contents(), r) == CreateHotelBooking(old(db.Contents()), input, itemId, now)
    {
      if !ValidMoney(input.net) || !ValidMoney(input.sell) || input.net.currency != input.sell.currency || input.clientReference == "" {
        return Failure(InvalidInput);
      }
      var before := db.Contents();
      // on conflict do nothing: the unique client reference arbitrates
      if input.clientReference in db.bookings {
        return Success(Created(false, db.bookings[input.clientReference]));
      }
      var booking := BookingRow(input.agency, itemId);
      db.bookings := db.bookings[input.clientReference := booking];
      if itemId in db.items || input.net.amount < 0 || input.sell.amount < 0 {
        db.Become(before);
        return Failure(ConstraintViolation);
      }
      db.items := db.items[itemId := QuotedItem(input, now)];
      db.audit := db.audit + [AuditEvent(itemId, BookingCreated, None, None)];
      db.outbox := db.outbox + [OutboxEvent(itemId, BookingCreated, now, None)];
      r := Success(Created(true, booking));
    }

    method TransitionItem(itemId: nat, to: ItemState, ctx: TransitionContext) returns (r: Result<TransitionOutcome, RunnerError>)
      modifies db
      ensures (db.Contents(), r) == Transition(old(db.Contents()), itemId, to, ctx)
    {
      var from := ctx.expectedFrom;
      if !CanTransition(from, to) {
        return Failure(IllegalTransition);
      }
      var template := PostingTemplate(from, to);
      if template.None? {
        return Failure(MissingPostingTemplate);
      }
      var before := db.Contents();
      if itemId !in db.items {
        return Failure(ItemNotFound);
      }
      var item := db.items[itemId];
      if item.state != from {
        return Failure(TransitionConflict);
      }
      db.items := db.items[itemId := Patched(item, to, ctx)];
      if !SafeInteger(item.sell) || !SafeInteger(item.net) {
        db.Become(before);
        return Failure(UnsafeAmount);
      }
      var posted := PostTransitionEntries(template.value, Money(item.sell, item.currency), Money(item.net, item.currency),
                                          ctx.penalty, ctx.group, itemId);
      if posted.Failure? {
        db.Become(before);
        return Failure(PostingRefused(posted.error));
      }
      db.journal := db.journal + posted.value.entries;
      var penalty := if ctx.penalty.Some? then ctx.penalty.value else None;
      db.audit := db.audit + [AuditEvent(itemId, Moved(from, to), posted.value.group, penalty)];
      db.outbox := db.outbox + [OutboxEvent(itemId, Moved(from, to), ctx.now, None)];
      r := Success(TransitionOutcome(from, to, posted.value.group, |posted.value.entries|));
    }

    method RequestCancellation(itemId: nat, requestedAt: int) returns (r: Result<(), RunnerError>)
      modifies db
      ensures (db.Contents(), r) == MarkCancellationRequested(old(db.Contents()), itemId, requestedAt)
    {
      if itemId !in db.items || db.items[itemId].state !in {Confirmed, PendingConfirmation}
         || db.items[itemId].cancellationRequestedAt.Some? {
        return Failure(TransitionConflict);
      }
      db.items := db.items[itemId := db.items[itemId].(cancellationRequestedAt := Some(requestedAt), nextPollAt := Some(requestedAt),
                                                       pollAttempts := 0, updatedAt := requestedAt)];
      db.audit := db.audit + [AuditEvent(itemId, CancellationRequested, None, None)];
      db.outbox := db.outbox + [OutboxEvent(itemId, CancellationRequested, requestedAt, None)];
      r := Success(());
    }

    method EscalateItem(itemId: nat, now: int) returns (escalated: bool)
      modifies db
      ensures (db.Contents(), escalated) == Escalate(old(db.Contents()), itemId, now)
    {
      if itemId !in db.items || db.items[itemId].escalatedAt.Some? {
        return false;
      }
      db.items := db.items[itemId := db.items[itemId].(escalatedAt := Some(now), updatedAt := now)];
      db.audit := db.audit + [AuditEvent(itemId, Escalated, None, None)];
      db.outbox := db.outbox + [OutboxEvent(itemId, Escalated, now, None)];
      escalated := true;
    }

    method RecordPoll(itemId: nat, attempts: int, nextPollAt: int)
      modifies db
      ensures db.Contents() == RecordPollAttempt(old(db.Contents()), itemId, attempts, nextPollAt)
    {
      if itemId in db.items && db.items[itemId].escalatedAt.None? {
        db.items := db.items[itemId := db.items[itemId].(pollAttempts := attempts, nextPollAt := Some(nextPollAt))];
      }
    }
  }
}
