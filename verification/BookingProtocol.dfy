/**
 Booking and checking offers concurrently: bookHotel (apps/api/src/hotel-booking/booking.service.ts),
 checkOffer (apps/api/src/offers/check.service.ts) and the booking gate (apps/api/src/offers/offers.service.ts)
 as processes over one tenant's offers and bookings. A step is one database statement or transaction, one
 supplier call sent or answered, or a crash; the environment picks the order, the answers and the clock.
 */
module BookingProtocol {
  import opened BookingStates
  import opened CancellationPolicies
  import opened ItemRuns
  import opened Money
  import opened OfferStore
  import opened PendingPoller
  import opened TransitionRunner
  import opened Wrappers

  const MAX_OFFER_TTL_MS := 1800000

  /** The signature check, taken as given, and the bookable window. */
  datatype Setup = Setup(verifies: (nat, StoredOffer, string) -> bool, bookableWindowMs: int)

  datatype Token = Token(offerId: nat, signature: string)

  /** A bookHotel call; an unparsable offer token is None. */
  datatype BookInput = BookInput(clientReference: string, agency: Option<string>, token: Option<Token>, guestsPerRoom: seq<nat>)

  datatype Refusal =
    | RequestInvalid | ReferenceInUse | ReferenceConflict | BookingMissing
    | OfferNotFound | OfferInvalidated | OfferExpired | OfferNotChecked
    | StoreFailed | RunnerThrew | SupplierUnavailable | SupplierFailed

  datatype Reply =
    | Booked(itemId: nat, state: ItemState)
    | Replayed(itemId: nat)
    | CheckedAs(offerId: nat)
    | Refused(why: Refusal)
    | Crashed

  /** An offer that passed the gate, as the row read there, and when. */
  datatype Ticket = Ticket(offerId: nat, row: StoredOffer, gateAt: int)

  datatype Pc =
    | Looking
    | Reading
    | Deciding(row: Option<StoredOffer>)
    | Claiming(ticket: Ticket)
    | Creating(ticket: Ticket)
    | Reserving(ticket: Ticket, itemId: nat)
    | Calling(ticket: Ticket, itemId: nat)
    | Answering(itemId: nat, call: nat)
    | Asking(ticket: Ticket)
    | Marking(offerId: nat)
    | Withdrawing(offerId: nat)
    | Replacing(offerId: nat, record: NewOfferRecord)
    | Finished(reply: Reply)

  datatype Task = Booking(input: BookInput) | Checking(token: Option<Token>, scope: Option<Option<string>>)

  datatype Proc = Proc(task: Task, pc: Pc)

  /** A book call sent to the supplier, and the process that sent it. */
  datatype BookCall = BookCall(pid: nat, clientReference: string, ticket: Ticket, itemId: nat)

  /** lineages, takenBy and createdBy only record history: no step reads them. */
  datatype State = State(
    offers: Offers,
    db: Db,
    procs: map<nat, Proc>,
    calls: seq<BookCall>,
    now: int,
    lineages: Lineages,
    takenBy: map<nat, nat>,
    createdBy: map<string, nat>
  )

  const START := State(map[], EMPTY_DB, map[], [], 0, Lineages(map[], 0), map[], map[])

  // ---------------------------------------------------------------------------
  // The decisions of one call

  /** assertReplayEquivalence: the presented token addresses the offer the booking consumed. */
  predicate SameOffer(item: ItemRow, token: Option<Token>) {
    token.Some? && item.offerId == Some(token.value.offerId)
  }

  /** The answer for a client reference that already has a booking. */
  function ReplayReply(db: Db, booking: BookingRow, input: BookInput): Reply {
    if booking.agency != input.agency then Refused(ReferenceInUse)
    else if booking.itemId !in db.items then Refused(BookingMissing)
    else if !SameOffer(db.items[booking.itemId], input.token) then Refused(ReferenceConflict)
    else Replayed(booking.itemId)
  }

  function TokenOf(task: Task): Option<Token> {
    match task
    case Booking(input) => input.token
    case Checking(token, _) => token
  }

  /** bookHotel always scopes to its agency, checkOffer only when the caller has a scope. */
  function ScopeOf(task: Task): Option<Option<string>> {
    match task
    case Booking(input) => Some(input.agency)
    case Checking(_, scope) => scope
  }

  function VerifyOfferToken(setup: Setup, task: Task, row: Option<StoredOffer>, now: int): Result<Ticket, Refusal> {
    if TokenOf(task).None? || row.None? then Failure(OfferNotFound)
    else
      var token, offer := TokenOf(task).value, row.value;
      if offer.details.None? || !setup.verifies(token.offerId, offer, token.signature) || offer.priceHash != token.signature
      then Failure(OfferNotFound)
      else if ScopeOf(task).Some? && offer.details.value.subTenant != ScopeOf(task).value then Failure(OfferNotFound)
      else if offer.invalidatedAt.Some? then Failure(OfferInvalidated)
      else if now >= offer.expiresAt then Failure(OfferExpired)
      else Success(Ticket(token.offerId, offer, now))
  }

  /** requireBookableOffer. */
  predicate InsideWindow(setup: Setup, ticket: Ticket) {
    ticket.row.checkedAt.Some? && ticket.gateAt - ticket.row.checkedAt.value <= setup.bookableWindowMs
  }

  /** The gate, then the policy and guest-list checks. */
  function DecideBooking(setup: Setup, input: BookInput, row: Option<StoredOffer>, now: int): Pc {
    match VerifyOfferToken(setup, Booking(input), row, now)
    case Failure(why) => Finished(Refused(why))
    case Success(ticket) =>
      if !InsideWindow(setup, ticket) then Finished(Refused(OfferNotChecked))
      else if ticket.row.policySnapshot.None? || ticket.row.details.value.guestsPerRoom != input.guestsPerRoom then Finished(Refused(RequestInvalid))
      else Claiming(ticket)
  }

  function RequestOf(input: BookInput, ticket: Ticket): CreateInput
    requires ticket.row.policySnapshot.Some?
  {
    CreateInput(input.clientReference, input.agency, Some(ticket.offerId), ticket.row.net, ticket.row.sell, ticket.row.policySnapshot.value)
  }

  datatype BookAnswer = BookFailed | BookAnswered(status: SupplierStatus, reference: string)

  /** Where the supplier's answer to book takes the item. */
  function SettleEdge(answer: BookAnswer, clock: PollClock): (ItemState, Patch) {
    match answer
    case BookFailed => (Failed, NO_PATCH)
    case BookAnswered(SupplierConfirmed, reference) => (ItemState.Confirmed, Patch(Some(reference), None, None, None))
    case BookAnswered(SupplierPending, reference) =>
      (PendingConfirmation, Patch(Some(reference), Some(clock.now), Some(Some(clock.now + DEFAULT_PENDING_BACKOFF.baseMs)), None))
    case BookAnswered(SupplierCancelled, reference) => (Failed, Patch(Some(reference), None, None, None))
  }

  function SettleBook(db: Db, itemId: nat, answer: BookAnswer, clock: PollClock): (Db, Reply) {
    var (to, patch) := SettleEdge(answer, clock);
    var (db', r) := Transition(db, itemId, to, TransitionContext(ItemState.Reserved, patch, None, clock.runnerNow, clock.group));
    if r.Failure? then (db', Refused(RunnerThrew))
    else if answer.BookFailed? then (db', Refused(SupplierFailed))
    else (db', Booked(itemId, to))
  }

  /** The supplier's answer to check, with the terms a re-pricing of it comes to. */
  datatype CheckAnswer =
    | NoLongerSold
    | CheckFailed
    | CheckAnswered(net: Money, policy: Option<Policy>, supplierOfferToken: string, repriced: NewOfferRecord)

  /** buildSuccessor: the re-priced offer, born checked, for the same property, guests and scope. */
  function Successor(row: StoredOffer, answer: CheckAnswer, now: int): NewOfferRecord
    requires row.details.Some? && answer.CheckAnswered?
  {
    answer.repriced.(
      details := row.details.value.(supplierOfferToken := answer.supplierOfferToken, supplierNet := answer.net),
      policySnapshot := answer.policy,
      checkedAt := Some(now))
  }

  function DecideCheck(ticket: Ticket, answer: CheckAnswer, now: int): Pc
    requires ticket.row.details.Some?
  {
    match answer
    case NoLongerSold => Withdrawing(ticket.offerId)
    case CheckFailed => Finished(Refused(SupplierFailed))
    case CheckAnswered(net, policy, supplierOfferToken, repriced) =>
      var details := ticket.row.details.value;
      if net == details.supplierNet && policy == ticket.row.policySnapshot && supplierOfferToken == details.supplierOfferToken
      then Marking(ticket.offerId)
      else if now < repriced.expiresAt <= now + MAX_OFFER_TTL_MS
      then Replacing(ticket.offerId, Successor(ticket.row, answer, now))
      else Finished(Refused(StoreFailed))
  }

  // ---------------------------------------------------------------------------
  // Steps

  datatype Dispatch = NoAdapter | NoContext | Sent

  /** What a running process does next, with what it learns from outside. */
  datatype Action =
    | Crash
    | Look
    | ReadOffer
    | Decide
    | ClaimOffer
    | CreateBooking(itemId: nat, at: int)
    | Reserve(at: int, group: nat)
    | SendBook(dispatch: Dispatch)
    | ReceiveBook(answer: BookAnswer, clock: PollClock)
    | ReceiveCheck(checked: CheckAnswer)
    | FinishCheck

  datatype Step =
    | Tick(to: int)
    | Issue(record: NewOfferRecord)
    | Start(pid: nat, task: Task)
    | By(pid: nat, action: Action)
    | Other(op: Op)

  /** What the worker and cancelling callers commit: they create no bookings and move only pending or confirmed items. */
  predicate OtherOp(op: Op) {
    !op.Create? && (op.Move? ==> op.ctx.expectedFrom in {PendingConfirmation, ItemState.Confirmed})
  }

  function To(s: State, pid: nat, pc: Pc): State
    requires pid in s.procs
  {
    s.(procs := s.procs[pid := s.procs[pid].(pc := pc)])
  }

  function DoIssue(s: State, record: NewOfferRecord): State {
    var (offers, r) := Insert(s.offers, record.(checkedAt := None), s.now);
    if r.Failure? || record.expiresAt > s.now + MAX_OFFER_TTL_MS then s
    else s.(offers := offers, lineages := WithNewLineage(s.lineages, record.id))
  }

  function DoStart(s: State, pid: nat, task: Task): State {
    if pid in s.procs then s
    else
      var pc :=
        match task
        case Checking(_, _) => Reading
        case Booking(input) => if 0 < |input.clientReference| <= 64 then Looking else Finished(Refused(RequestInvalid));
      s.(procs := s.procs[pid := Proc(task, pc)])
  }

  function DoLook(s: State, pid: nat): State
    requires pid in s.procs
  {
    var task := s.procs[pid].task;
    if !s.procs[pid].pc.Looking? || !task.Booking? then s
    else if task.input.clientReference in s.db.bookings
    then To(s, pid, Finished(ReplayReply(s.db, s.db.bookings[task.input.clientReference], task.input)))
    else To(s, pid, Reading)
  }

  function DoRead(s: State, pid: nat): State
    requires pid in s.procs
  {
    var token := TokenOf(s.procs[pid].task);
    if !s.procs[pid].pc.Reading? then s
    else To(s, pid, Deciding(if token.Some? && token.value.offerId in s.offers then Some(s.offers[token.value.offerId]) else None))
  }

  function DoDecide(setup: Setup, s: State, pid: nat): State
    requires pid in s.procs
  {
    var proc := s.procs[pid];
    if !proc.pc.Deciding? then s
    else
      match proc.task
      case Booking(input) => To(s, pid, DecideBooking(setup, input, proc.pc.row, s.now))
      case Checking(_, _) =>
        To(s, pid, match VerifyOfferToken(setup, proc.task, proc.pc.row, s.now)
                   case Failure(why) => Finished(Refused(why))
                   case Success(ticket) => Asking(ticket))
  }

  function DoClaim(s: State, pid: nat): State
    requires pid in s.procs
  {
    var pc := s.procs[pid].pc;
    if !pc.Claiming? || pc.ticket.offerId !in s.lineages.of then s
    else
      var (offers, won) := Claim(s.offers, pc.ticket.offerId, s.now);
      if !won then To(s, pid, Finished(Refused(OfferInvalidated)))
      else To(s, pid, Creating(pc.ticket)).(offers := offers, takenBy := s.takenBy[s.lineages.of[pc.ticket.offerId] := pid])
  }

  function DoCreate(s: State, pid: nat, itemId: nat, at: int): State
    requires pid in s.procs
  {
    var proc := s.procs[pid];
    if !proc.pc.Creating? || !proc.task.Booking? || proc.pc.ticket.row.policySnapshot.None? then s
    else
      var input := proc.task.input;
      var (db, r) := CreateHotelBooking(s.db, RequestOf(input, proc.pc.ticket), itemId, at);
      match r
      case Failure(_) => To(s, pid, Finished(Refused(RunnerThrew)))
      case Success(made) =>
        if made.created
        then To(s, pid, Reserving(proc.pc.ticket, made.booking.itemId)).(db := db, createdBy := s.createdBy[input.clientReference := pid])
        else To(s, pid, Finished(ReplayReply(s.db, made.booking, input)))
  }

  function DoReserve(s: State, pid: nat, at: int, group: nat): State
    requires pid in s.procs
  {
    var pc := s.procs[pid].pc;
    if !pc.Reserving? then s
    else
      var (db, r) := Transition(s.db, pc.itemId, ItemState.Reserved, TransitionContext(Quoted, NO_PATCH, None, at, group));
      To(s, pid, if r.Success? then Calling(pc.ticket, pc.itemId) else Finished(Refused(RunnerThrew))).(db := db)
  }

  function DoSend(s: State, pid: nat, dispatch: Dispatch): State
    requires pid in s.procs
  {
    var proc := s.procs[pid];
    if !proc.pc.Calling? || !proc.task.Booking? then s
    else
      match dispatch
      case NoAdapter => To(s, pid, Finished(Refused(SupplierUnavailable)))
      case NoContext =>
        var (db, _) := SettleBook(s.db, proc.pc.itemId, BookFailed, PollClock(s.now, s.now, 0));
        To(s, pid, Finished(Refused(SupplierFailed))).(db := db)
      case Sent =>
        var call := BookCall(pid, proc.task.input.clientReference, proc.pc.ticket, proc.pc.itemId);
        To(s, pid, Answering(proc.pc.itemId, |s.calls|)).(calls := s.calls + [call])
  }

  function DoReceive(s: State, pid: nat, answer: BookAnswer, clock: PollClock): State
    requires pid in s.procs
  {
    var pc := s.procs[pid].pc;
    if !pc.Answering? then s
    else
      var (db, reply) := SettleBook(s.db, pc.itemId, answer, clock);
      To(s, pid, Finished(reply)).(db := db)
  }

  function DoReceiveCheck(s: State, pid: nat, answer: CheckAnswer): State
    requires pid in s.procs
  {
    var pc := s.procs[pid].pc;
    if !pc.Asking? || pc.ticket.row.details.None? then s else To(s, pid, DecideCheck(pc.ticket, answer, s.now))
  }

  function DoFinishCheck(s: State, pid: nat): State
    requires pid in s.procs
  {
    var pc := s.procs[pid].pc;
    match pc
    case Marking(offerId) => To(s, pid, Finished(CheckedAs(offerId))).(offers := MarkChecked(s.offers, offerId, s.now))
    case Withdrawing(offerId) => To(s, pid, Finished(Refused(SupplierFailed))).(offers := Claim(s.offers, offerId, s.now).0)
    case Replacing(offerId, record) =>
      var (offers, r) := Supersede(s.offers, offerId, record, s.now);
      if r.Failure? then To(s, pid, Finished(Refused(StoreFailed)))
      else if !r.value || offerId !in s.lineages.of then To(s, pid, Finished(Refused(OfferInvalidated)))
      else To(s, pid, Finished(CheckedAs(record.id))).(offers := offers, lineages := WithSuccessor(s.lineages, offerId, record.id))
    case _ => s
  }

  function Act(setup: Setup, s: State, pid: nat, action: Action): State
    requires pid in s.procs
  {
    match action
    case Crash => To(s, pid, Finished(Crashed))
    case Look => DoLook(s, pid)
    case ReadOffer => DoRead(s, pid)
    case Decide => DoDecide(setup, s, pid)
    case ClaimOffer => DoClaim(s, pid)
    case CreateBooking(itemId, at) => DoCreate(s, pid, itemId, at)
    case Reserve(at, group) => DoReserve(s, pid, at, group)
    case SendBook(dispatch) => DoSend(s, pid, dispatch)
    case ReceiveBook(answer, clock) => DoReceive(s, pid, answer, clock)
    case ReceiveCheck(checked) => DoReceiveCheck(s, pid, checked)
    case FinishCheck => DoFinishCheck(s, pid)
  }

  /** One step; a step that is not enabled changes nothing. */
  function Do(setup: Setup, s: State, step: Step): State {
    match step
    case Tick(to) => if s.now <= to then s.(now := to) else s
    case Issue(record) => DoIssue(s, record)
    case Start(pid, task) => DoStart(s, pid, task)
    case By(pid, action) => if pid in s.procs && !s.procs[pid].pc.Finished? then Act(setup, s, pid, action) else s
    case Other(op) => if OtherOp(op) then s.(db := Apply(s.db, op)) else s
  }

  function Execute(setup: Setup, steps: seq<Step>): State {
    if steps == [] then START else Do(setup, Execute(setup, steps[..|steps| - 1]), steps[|steps| - 1])
  }

  // ---------------------------------------------------------------------------
  // The invariant

  predicate TakenBy(s: State, offerId: nat, pid: nat) {
    offerId in s.lineages.of && s.lineages.of[offerId] in s.takenBy && s.takenBy[s.lineages.of[offerId]] == pid
  }

  ghost predicate HasTakenNothing(s: State, pid: nat) {
    forall lineage :: lineage in s.takenBy ==> s.takenBy[lineage] != pid
  }

  ghost predicate HasCreatedNothing(s: State, pid: nat) {
    forall reference :: reference in s.createdBy ==> s.createdBy[reference] != pid
  }

  ghost predicate HasCalledNothing(s: State, pid: nat) {
    forall k :: 0 <= k < |s.calls| ==> s.calls[k].pid != pid
  }

  predicate ReadOk(s: State, task: Task, row: Option<StoredOffer>) {
    row.Some? ==> TokenOf(task).Some? && TokenOf(task).value.offerId in s.offers && SameTerms(row.value, s.offers[TokenOf(task).value.offerId])
  }

  /** A ticket is a checked, unexpired, unwithdrawn row of the store, as it was at the gate. */
  predicate TicketOk(setup: Setup, s: State, ticket: Ticket) {
    && ticket.offerId in s.offers && SameTerms(ticket.row, s.offers[ticket.offerId])
    && InsideWindow(setup, ticket) && ticket.row.policySnapshot.Some?
    && setup.verifies(ticket.offerId, ticket.row, ticket.row.priceHash)
    && ticket.row.invalidatedAt.None? && ticket.gateAt < ticket.row.expiresAt && ticket.gateAt <= s.now
  }

  /** The booking task presented this offer's token, signed with the price hash stored for it, for the agency it was sold to. */
  predicate ForOffer(task: Task, ticket: Ticket) {
    && task.Booking? && task.input.token.Some? && task.input.token.value.offerId == ticket.offerId
    && task.input.token.value.signature == ticket.row.priceHash
    && ticket.row.details.Some? && ticket.row.details.value.subTenant == task.input.agency
  }

  /** `pid` created the booking of this reference, for this item and from this offer. */
  predicate CreatedFrom(s: State, reference: string, itemId: nat, offerId: nat, pid: nat) {
    && reference in s.createdBy && s.createdBy[reference] == pid
    && reference in s.db.bookings && s.db.bookings[reference].itemId == itemId
    && itemId in s.db.items && s.db.items[itemId].offerId == Some(offerId)
  }

  /** `pid` took the ticket's offer and created its booking from it. */
  predicate HasBooked(s: State, task: Task, ticket: Ticket, itemId: nat, pid: nat) {
    TakenBy(s, ticket.offerId, pid) && ForOffer(task, ticket) && CreatedFrom(s, task.input.clientReference, itemId, ticket.offerId, pid)
  }

  ghost predicate ProcOk(setup: Setup, s: State, pid: nat)
    requires LineagesInv(s.offers, s.lineages) && pid in s.procs
  {
    var task, pc := s.procs[pid].task, s.procs[pid].pc;
    match pc
    case Looking => HasTakenNothing(s, pid)
    case Reading => HasTakenNothing(s, pid)
    case Deciding(row) => HasTakenNothing(s, pid) && ReadOk(s, task, row)
    case Claiming(ticket) => HasTakenNothing(s, pid) && TicketOk(setup, s, ticket) && ForOffer(task, ticket)
    case Creating(ticket) => TicketOk(setup, s, ticket) && ForOffer(task, ticket) && TakenBy(s, ticket.offerId, pid) && HasCreatedNothing(s, pid)
    case Reserving(ticket, itemId) =>
      TicketOk(setup, s, ticket) && HasBooked(s, task, ticket, itemId, pid) && HasCalledNothing(s, pid)
    case Calling(ticket, itemId) =>
      TicketOk(setup, s, ticket) && HasBooked(s, task, ticket, itemId, pid) && HasCalledNothing(s, pid)
    case Answering(itemId, call) => call < |s.calls| && s.calls[call].itemId == itemId && s.calls[call].pid == pid
    case Replacing(offerId, record) => record.expiresAt <= s.now + MAX_OFFER_TTL_MS
    case _ => true
  }

  ghost predicate CallOk(setup: Setup, s: State, call: BookCall)
    requires LineagesInv(s.offers, s.lineages)
  {
    && TicketOk(setup, s, call.ticket) && TakenBy(s, call.ticket.offerId, call.pid)
    && call.pid in s.procs && ForOffer(s.procs[call.pid].task, call.ticket)
    && CreatedFrom(s, call.clientReference, call.itemId, call.ticket.offerId, call.pid)
  }

  /** The booking's item carries its offer's prices and policy, and the lineage of that offer was taken by the booking's creator. */
  predicate BookingOk(s: State, reference: string)
    requires reference in s.db.bookings
  {
    var itemId := s.db.bookings[reference].itemId;
    && reference in s.createdBy
    && itemId in s.db.items && s.db.items[itemId].offerId.Some?
    && var item := s.db.items[itemId];
       var offerId := item.offerId.value;
       && offerId in s.offers && TakenBy(s, offerId, s.createdBy[reference])
       && item.net == s.offers[offerId].net.amount && item.sell == s.offers[offerId].sell.amount
       && item.currency == s.offers[offerId].sell.currency && item.currency == s.offers[offerId].net.currency
       && s.offers[offerId].policySnapshot == Some(item.policy)
       && s.offers[offerId].details.Some? && s.db.bookings[reference].agency == s.offers[offerId].details.value.subTenant
  }

  predicate Untouched(state: ItemState) {
    state in {Quoted, ItemState.Reserved, Failed}
  }

  ghost predicate ItemOk(s: State, id: nat)
    requires id in s.db.items
  {
    Untouched(s.db.items[id].state) || exists k :: 0 <= k < |s.calls| && s.calls[k].itemId == id
  }

  predicate OfferOk(s: State, id: nat)
    requires id in s.offers
  {
    s.offers[id].createdAt <= s.now && s.offers[id].expiresAt <= s.offers[id].createdAt + MAX_OFFER_TTL_MS
  }

  ghost predicate HistoryOk(s: State) {
    && LineagesInv(s.offers, s.lineages)
    && (forall lineage :: lineage in s.takenBy ==> Dead(s.offers, s.lineages, lineage))
    && (forall lineage :: lineage in s.takenBy ==> s.takenBy[lineage] in s.procs)
    && (forall reference :: reference in s.createdBy ==> reference in s.db.bookings && s.createdBy[reference] in s.procs)
    && (forall k :: 0 <= k < |s.calls| ==> s.calls[k].pid in s.procs)
  }

  ghost predicate RowsOk(s: State) {
    && (forall id :: id in s.db.items ==> ItemOk(s, id))
    && (forall id :: id in s.offers ==> OfferOk(s, id))
  }

  ghost predicate ProcsOk(setup: Setup, s: State)
    requires LineagesInv(s.offers, s.lineages)
  {
    forall pid :: pid in s.procs ==> ProcOk(setup, s, pid)
  }

  ghost predicate CallsOk(setup: Setup, s: State)
    requires LineagesInv(s.offers, s.lineages)
  {
    && (forall k :: 0 <= k < |s.calls| ==> CallOk(setup, s, s.calls[k]))
    && (forall j, k :: 0 <= j < k < |s.calls| ==> s.calls[j].pid != s.calls[k].pid)
  }

  ghost predicate BookingsOk(s: State) {
    && (forall reference :: reference in s.db.bookings ==> BookingOk(s, reference))
    && (forall a, b :: a in s.db.bookings && b in s.db.bookings && s.db.bookings[a].itemId == s.db.bookings[b].itemId ==> a == b)
  }

  ghost predicate ProtocolInv(setup: Setup, s: State) {
    HistoryOk(s) && ProcsOk(setup, s) && CallsOk(setup, s) && BookingsOk(s) && RowsOk(s)
  }

  // ---------------------------------------------------------------------------
  // What a step of `pid` leaves alone

  /** Rows keep what the protocol relies on. */
  predicate RowsKept(db: Db, db': Db) {
    && (forall reference :: reference in db.bookings ==> reference in db'.bookings && db'.bookings[reference] == db.bookings[reference])
    && (forall id :: id in db.items ==>
          && id in db'.items && db'.items[id].offerId == db.items[id].offerId
          && db'.items[id].net == db.items[id].net && db'.items[id].sell == db.items[id].sell && db'.items[id].currency == db.items[id].currency
          && db'.items[id].policy == db.items[id].policy)
  }

  /** History only grows, and what it gains is due to `pid`. */
  ghost predicate Later(s: State, s': State, pid: nat)
    requires HistoryOk(s)
  {
    && LineagesInv(s'.offers, s'.lineages) && Evolves(s.offers, s.lineages, s'.offers, s'.lineages)
    && s.now <= s'.now && RowsKept(s.db, s'.db)
    && (forall p :: p in s.procs ==> p in s'.procs && s'.procs[p].task == s.procs[p].task)
    && (forall l :: l in s.takenBy ==> l in s'.takenBy && s'.takenBy[l] == s.takenBy[l])
    && (forall l :: l in s'.takenBy && l !in s.takenBy ==> s'.takenBy[l] == pid)
    && (forall r :: r in s.createdBy ==> r in s'.createdBy && s'.createdBy[r] == s.createdBy[r])
    && (forall r :: r in s'.createdBy && r !in s.createdBy ==> s'.createdBy[r] == pid)
    && s.calls <= s'.calls
    && (forall k :: |s.calls| <= k < |s'.calls| ==> s'.calls[k].pid == pid)
  }

  lemma TicketsKeep(setup: Setup, s: State, s': State, pid: nat, ticket: Ticket)
    requires HistoryOk(s) && Later(s, s', pid) && TicketOk(setup, s, ticket)
    ensures TicketOk(setup, s', ticket)
  {
    assert SameTerms(s.offers[ticket.offerId], s'.offers[ticket.offerId]);
  }

  lemma OthersKeep(setup: Setup, s: State, s': State, pid: nat, other: nat)
    requires HistoryOk(s) && Later(s, s', pid) && other != pid
    requires other in s.procs && other in s'.procs && s'.procs[other] == s.procs[other] && ProcOk(setup, s, other)
    ensures ProcOk(setup, s', other)
  {
    var pc := s.procs[other].pc;
    if pc.Claiming? || pc.Creating? || pc.Reserving? || pc.Calling? {
      TicketsKeep(setup, s, s', pid, pc.ticket);
    }
  }

  /** A step of the worker or the clock leaves every process in order. */
  lemma OwnKeeps(setup: Setup, s: State, s': State, pid: nat)
    requires HistoryOk(s) && HistoryOk(s') && Later(s, s', pid) && pid in s.procs && s'.procs == s.procs && ProcOk(setup, s, pid)
    requires s'.takenBy == s.takenBy && s'.createdBy == s.createdBy && s'.calls == s.calls
    ensures ProcOk(setup, s', pid)
  {
    var pc := s.procs[pid].pc;
    if pc.Claiming? || pc.Creating? || pc.Reserving? || pc.Calling? {
      TicketsKeep(setup, s, s', pid, pc.ticket);
    }
  }

  lemma CallKeeps(setup: Setup, s: State, s': State, pid: nat, k: nat)
    requires HistoryOk(s) && Later(s, s', pid) && k < |s.calls| && CallOk(setup, s, s.calls[k])
    ensures s'.calls[k] == s.calls[k] && CallOk(setup, s', s.calls[k])
  {
    TicketsKeep(setup, s, s', pid, s.calls[k].ticket);
  }

  lemma BookingKeeps(s: State, s': State, pid: nat, reference: string)
    requires HistoryOk(s) && Later(s, s', pid) && reference in s.db.bookings && BookingOk(s, reference)
    ensures BookingOk(s', reference)
  {
    var offerId := s.db.items[s.db.bookings[reference].itemId].offerId.value;
    assert SameTerms(s.offers[offerId], s'.offers[offerId]);
  }

  /** What a step of `pid` must show for itself; the rest of the invariant is inherited. */
  ghost predicate NewOk(setup: Setup, s: State, s': State, pid: nat)
    requires HistoryOk(s')
  {
    NewProcOk(setup, s, s', pid) && NewCallsOk(setup, s, s', pid) && NewBookingsOk(s, s') && RowsOk(s')
  }

  ghost predicate NewProcOk(setup: Setup, s: State, s': State, pid: nat)
    requires LineagesInv(s'.offers, s'.lineages)
  {
    && (forall p :: p in s.procs ==> p in s'.procs)
    && (forall p :: p in s'.procs && p != pid ==> p in s.procs && s'.procs[p] == s.procs[p])
    && (pid in s'.procs ==> ProcOk(setup, s', pid))
  }

  /** At most one call is new, the first of its process. */
  ghost predicate NewCallsOk(setup: Setup, s: State, s': State, pid: nat)
    requires LineagesInv(s'.offers, s'.lineages)
  {
    s'.calls == s.calls || exists call :: s'.calls == s.calls + [call] && HasCalledNothing(s, pid) && CallOk(setup, s', call)
  }

  /** At most one booking is new, and it is for a new item. */
  ghost predicate NewBookingsOk(s: State, s': State) {
    && (forall r :: r in s'.db.bookings && r !in s.db.bookings ==> BookingOk(s', r) && s'.db.bookings[r].itemId !in s.db.items)
    && (forall a, b :: a in s'.db.bookings && a !in s.db.bookings && b in s'.db.bookings && b !in s.db.bookings ==> a == b)
  }

  lemma CallsStayOk(setup: Setup, s: State, s': State, pid: nat)
    requires HistoryOk(s) && CallsOk(setup, s) && Later(s, s', pid) && NewCallsOk(setup, s, s', pid)
    ensures CallsOk(setup, s')
  {
    forall k | 0 <= k < |s'.calls| ensures CallOk(setup, s', s'.calls[k]) {
      if k < |s.calls| {
        CallKeeps(setup, s, s', pid, k);
      }
    }
  }

  lemma BookingsStayOk(s: State, s': State, pid: nat)
    requires HistoryOk(s) && BookingsOk(s) && Later(s, s', pid) && NewBookingsOk(s, s')
    ensures BookingsOk(s')
  {
    forall r | r in s'.db.bookings ensures BookingOk(s', r) {
      if r in s.db.bookings {
        BookingKeeps(s, s', pid, r);
      }
    }
    forall a, b | a in s'.db.bookings && b in s'.db.bookings && s'.db.bookings[a].itemId == s'.db.bookings[b].itemId ensures a == b {
      if a in s.db.bookings {
        assert BookingOk(s, a);
      }
      if b in s.db.bookings {
        assert BookingOk(s, b);
      }
    }
  }

  lemma ProcsStayOk(setup: Setup, s: State, s': State, pid: nat)
    requires HistoryOk(s) && ProcsOk(setup, s) && Later(s, s', pid) && NewProcOk(setup, s, s', pid)
    ensures ProcsOk(setup, s')
  {
    forall other | other in s'.procs ensures ProcOk(setup, s', other) {
      if other != pid {
        OthersKeep(setup, s, s', pid, other);
      }
    }
  }

  lemma StepAssembles(setup: Setup, s: State, s': State, pid: nat)
    requires ProtocolInv(setup, s) && Later(s, s', pid) && HistoryOk(s') && NewOk(setup, s, s', pid)
    ensures ProtocolInv(setup, s')
  {
    CallsStayOk(setup, s, s', pid);
    BookingsStayOk(s, s', pid);
    ProcsStayOk(setup, s, s', pid);
  }

  /** Rows a step does not touch stay in order. */
  lemma SameRowsOk(s: State, s': State)
    requires RowsOk(s) && s.calls <= s'.calls && s.now <= s'.now
    ensures forall id :: id in s.db.items && id in s'.db.items && s'.db.items[id] == s.db.items[id] ==> ItemOk(s', id)
    ensures forall id :: id in s.offers && id in s'.offers && SameTerms(s.offers[id], s'.offers[id]) ==> OfferOk(s', id)
  {
    forall id | id in s.db.items && id in s'.db.items && s'.db.items[id] == s.db.items[id] ensures ItemOk(s', id) {
      ItemStaysOk(s, s', id);
    }
  }

  lemma ItemStaysOk(s: State, s': State, id: nat)
    requires id in s.db.items && id in s'.db.items && ItemOk(s, id) && s.calls <= s'.calls
    requires s'.db.items[id].state == s.db.items[id].state || Untouched(s'.db.items[id].state) || !Untouched(s.db.items[id].state)
    ensures ItemOk(s', id)
  {
    if !Untouched(s.db.items[id].state) {
      var k :| 0 <= k < |s.calls| && s.calls[k].itemId == id;
      assert s'.calls[k] == s.calls[k];
    }
  }

  /** A step that touches neither bookings nor calls, and issues no offer, owes only its process. */
  lemma ProcStepNewOk(setup: Setup, s: State, s': State, pid: nat)
    requires HistoryOk(s) && RowsOk(s) && HistoryOk(s') && Later(s, s', pid) && NewProcOk(setup, s, s', pid)
    requires s'.db == s.db && s'.calls == s.calls && s'.now == s.now && forall id :: id in s'.offers ==> id in s.offers
    ensures NewOk(setup, s, s', pid)
  {
    SameRowsOk(s, s');
  }

  lemma MoveIsLater(s: State, pid: nat, pc: Pc)
    requires HistoryOk(s) && pid in s.procs
    ensures HistoryOk(To(s, pid, pc)) && Later(s, To(s, pid, pc), pid)
  {
  }

  lemma MovesOn(setup: Setup, s: State, pid: nat, pc: Pc)
    requires ProtocolInv(setup, s) && pid in s.procs && HistoryOk(To(s, pid, pc)) ==> ProcOk(setup, To(s, pid, pc), pid)
    requires ProtocolInv(setup, s) && pid in s.procs
    ensures ProtocolInv(setup, To(s, pid, pc))
  {
    MoveIsLater(s, pid, pc);
    OneProcMoved(setup, s, To(s, pid, pc), pid, s.procs[pid].(pc := pc));
    ProcStepNewOk(setup, s, To(s, pid, pc), pid);
    StepAssembles(setup, s, To(s, pid, pc), pid);
  }

  // ---------------------------------------------------------------------------
  // The steps

  lemma TickKeeps(setup: Setup, s: State, to: int)
    requires ProtocolInv(setup, s) && s.now <= to
    ensures ProtocolInv(setup, s.(now := to))
  {
    var s' := s.(now := to);
    assert HistoryOk(s');
    assert Later(s, s', 0);
    if 0 in s.procs {
      OwnKeeps(setup, s, s', 0);
    }
    SameRowsOk(s, s');
    StepAssembles(setup, s, s', 0);
  }

  lemma StartNewOk(setup: Setup, s: State, pid: nat, task: Task)
    requires HistoryOk(s) && RowsOk(s) && pid !in s.procs
    ensures var s' := DoStart(s, pid, task);
            HistoryOk(s') && Later(s, s', pid) && NewOk(setup, s, s', pid)
  {
    SameRowsOk(s, DoStart(s, pid, task));
  }

  lemma StartKeeps(setup: Setup, s: State, pid: nat, task: Task)
    requires ProtocolInv(setup, s)
    ensures ProtocolInv(setup, DoStart(s, pid, task))
  {
    if pid !in s.procs {
      StartNewOk(setup, s, pid, task);
      StepAssembles(setup, s, DoStart(s, pid, task), pid);
    }
  }

  /** Steps that decide from the process's own snapshot, and change nothing but its program counter. */
  predicate LocalAction(action: Action) {
    action.Crash? || action.Look? || action.ReadOffer? || action.Decide? || action.ReceiveCheck?
  }

  /** Program counters that promise only what a process holds before claiming keep promising it. */
  lemma LookIsOk(setup: Setup, s: State, pid: nat) returns (pc: Pc)
    requires HistoryOk(s) && pid in s.procs && ProcOk(setup, s, pid)
    ensures DoLook(s, pid) == To(s, pid, pc) && (HistoryOk(To(s, pid, pc)) ==> ProcOk(setup, To(s, pid, pc), pid))
  {
    pc := DoLook(s, pid).procs[pid].pc;
    assert s.procs[pid := s.procs[pid]] == s.procs;
  }

  lemma ReadIsOk(setup: Setup, s: State, pid: nat) returns (pc: Pc)
    requires HistoryOk(s) && pid in s.procs && ProcOk(setup, s, pid)
    ensures DoRead(s, pid) == To(s, pid, pc) && (HistoryOk(To(s, pid, pc)) ==> ProcOk(setup, To(s, pid, pc), pid))
  {
    pc := DoRead(s, pid).procs[pid].pc;
    assert s.procs[pid := s.procs[pid]] == s.procs;
  }

  /** What a deciding booking goes on with is a ticket in order, for its own offer, or a refusal. */
  lemma DecisionIsOk(setup: Setup, s: State, input: BookInput, row: Option<StoredOffer>)
    requires LineagesInv(s.offers, s.lineages) && ReadOk(s, Booking(input), row)
    ensures var pc := DecideBooking(setup, input, row, s.now);
            pc.Finished? || (pc.Claiming? && TicketOk(setup, s, pc.ticket) && ForOffer(Booking(input), pc.ticket))
  {
  }

  lemma DecideIsOk(setup: Setup, s: State, pid: nat) returns (pc: Pc)
    requires HistoryOk(s) && pid in s.procs && ProcOk(setup, s, pid)
    ensures DoDecide(setup, s, pid) == To(s, pid, pc) && (HistoryOk(To(s, pid, pc)) ==> ProcOk(setup, To(s, pid, pc), pid))
  {
    pc := DoDecide(setup, s, pid).procs[pid].pc;
    assert s.procs[pid := s.procs[pid]] == s.procs;
    if s.procs[pid].pc.Deciding? && s.procs[pid].task.Booking? {
      DecisionIsOk(setup, s, s.procs[pid].task.input, s.procs[pid].pc.row);
    }
  }

  lemma AnswerIsOk(setup: Setup, s: State, pid: nat, checked: CheckAnswer) returns (pc: Pc)
    requires HistoryOk(s) && pid in s.procs && ProcOk(setup, s, pid)
    ensures DoReceiveCheck(s, pid, checked) == To(s, pid, pc) && (HistoryOk(To(s, pid, pc)) ==> ProcOk(setup, To(s, pid, pc), pid))
  {
    pc := DoReceiveCheck(s, pid, checked).procs[pid].pc;
    assert s.procs[pid := s.procs[pid]] == s.procs;
  }

  lemma LocalKeeps(setup: Setup, s: State, pid: nat, action: Action)
    requires ProtocolInv(setup, s) && pid in s.procs && LocalAction(action)
    ensures ProtocolInv(setup, Act(setup, s, pid, action))
  {
    var pc := Finished(Crashed);
    match action {
      case Look => pc := LookIsOk(setup, s, pid);
      case ReadOffer => pc := ReadIsOk(setup, s, pid);
      case Decide => pc := DecideIsOk(setup, s, pid);
      case ReceiveCheck(checked) => pc := AnswerIsOk(setup, s, pid, checked);
      case _ =>
    }
    MovesOn(setup, s, pid, pc);
  }

  predicate AboutToClaim(s: State, pid: nat) {
    && pid in s.procs && s.procs[pid].pc.Claiming? && s.procs[pid].pc.ticket.offerId in s.lineages.of
    && Claim(s.offers, s.procs[pid].pc.ticket.offerId, s.now).1
  }

  /** A won claim marks the offer's lineage as taken, which nobody had, and changes nothing else but the row. */
  ghost predicate Claimed(s: State, s': State, pid: nat, ticket: Ticket)
    requires HistoryOk(s)
  {
    && pid in s.procs && s.procs[pid].pc == Claiming(ticket) && ticket.offerId in s.lineages.of
    && s.lineages.of[ticket.offerId] !in s.takenBy
    && s' == s.(offers := s'.offers, takenBy := s.takenBy[s.lineages.of[ticket.offerId] := pid],
                procs := s.procs[pid := s.procs[pid].(pc := Creating(ticket))])
    && s'.offers.Keys == s.offers.Keys
    && LineagesInv(s'.offers, s'.lineages) && Evolves(s.offers, s.lineages, s'.offers, s'.lineages)
    && Dead(s'.offers, s'.lineages, s.lineages.of[ticket.offerId])
  }

  lemma ClaimTakes(s: State, pid: nat)
    requires HistoryOk(s) && AboutToClaim(s, pid)
    ensures Claimed(s, DoClaim(s, pid), pid, s.procs[pid].pc.ticket)
  {
    ClaimKillsTheLineage(s.offers, s.lineages, s.procs[pid].pc.ticket.offerId, s.now);
  }

  lemma ClaimIsHistory(s: State, s': State, pid: nat, ticket: Ticket)
    requires HistoryOk(s) && Claimed(s, s', pid, ticket)
    ensures HistoryOk(s')
  {
  }

  lemma ClaimIsLater(s: State, s': State, pid: nat, ticket: Ticket)
    requires HistoryOk(s) && Claimed(s, s', pid, ticket)
    ensures Later(s, s', pid) && TakenBy(s', ticket.offerId, pid)
  {
  }

  lemma ClaimantIsOk(setup: Setup, s: State, s': State, pid: nat, ticket: Ticket)
    requires HistoryOk(s) && Claimed(s, s', pid, ticket) && ProcOk(setup, s, pid) && HasCreatedNothing(s, pid)
    requires HistoryOk(s') && TicketOk(setup, s', ticket) && TakenBy(s', ticket.offerId, pid)
    ensures ProcOk(setup, s', pid)
  {
  }

  lemma OneProcMoved(setup: Setup, s: State, s': State, pid: nat, proc: Proc)
    requires LineagesInv(s'.offers, s'.lineages) && pid in s.procs && s'.procs == s.procs[pid := proc] && ProcOk(setup, s', pid)
    ensures NewProcOk(setup, s, s', pid)
  {
  }

  lemma ProcOf(setup: Setup, s: State, pid: nat)
    requires ProtocolInv(setup, s) && pid in s.procs
    ensures ProcOk(setup, s, pid)
  {
  }

  lemma ClaimNewOk(setup: Setup, s: State, s': State, pid: nat, ticket: Ticket)
    requires HistoryOk(s) && RowsOk(s) && Claimed(s, s', pid, ticket) && ProcOk(setup, s, pid) && HasCreatedNothing(s, pid)
    ensures HistoryOk(s') && Later(s, s', pid) && NewOk(setup, s, s', pid)
  {
    ClaimIsHistory(s, s', pid, ticket);
    ClaimIsLater(s, s', pid, ticket);
    TicketsKeep(setup, s, s', pid, ticket);
    ClaimantIsOk(setup, s, s', pid, ticket);
    OneProcMoved(setup, s, s', pid, s'.procs[pid]);
    ProcStepNewOk(setup, s, s', pid);
  }

  lemma ClaimKeeps(setup: Setup, s: State, pid: nat)
    requires ProtocolInv(setup, s) && pid in s.procs
    ensures ProtocolInv(setup, DoClaim(s, pid))
  {
    var pc := s.procs[pid].pc;
    if pc.Claiming? && pc.ticket.offerId in s.lineages.of {
      if Claim(s.offers, pc.ticket.offerId, s.now).1 {
        ProcOf(setup, s, pid);
        ClaimerHasCreatedNothing(setup, s, pid);
        ClaimTakes(s, pid);
        ClaimNewOk(setup, s, DoClaim(s, pid), pid, pc.ticket);
        StepAssembles(setup, s, DoClaim(s, pid), pid);
      } else {
        MovesOn(setup, s, pid, Finished(Refused(OfferInvalidated)));
      }
    }
  }

  /** Every booking was created by a process that had taken a lineage. */
  lemma ClaimerHasCreatedNothing(setup: Setup, s: State, pid: nat)
    requires ProtocolInv(setup, s) && HasTakenNothing(s, pid)
    ensures HasCreatedNothing(s, pid)
  {
    forall reference | reference in s.createdBy ensures s.createdBy[reference] != pid {
      assert BookingOk(s, reference);
    }
  }

  lemma CreatorHasCalledNothing(setup: Setup, s: State, pid: nat)
    requires ProtocolInv(setup, s) && HasCreatedNothing(s, pid)
    ensures HasCalledNothing(s, pid)
  {
    forall k | 0 <= k < |s.calls| ensures s.calls[k].pid != pid {
      assert CallOk(setup, s, s.calls[k]);
    }
  }

  predicate AboutToCreate(s: State, pid: nat, itemId: nat, at: int) {
    && pid in s.procs && s.procs[pid].pc.Creating? && s.procs[pid].task.Booking? && s.procs[pid].pc.ticket.row.policySnapshot.Some?
    && var r := CreateHotelBooking(s.db, RequestOf(s.procs[pid].task.input, s.procs[pid].pc.ticket), itemId, at).1;
       r.Success? && r.value.created
  }

  lemma CreateIsLater(setup: Setup, s: State, pid: nat, itemId: nat, at: int)
    requires HistoryOk(s) && AboutToCreate(s, pid, itemId, at)
    requires s.procs[pid].task.input.clientReference in s.createdBy ==> s.procs[pid].task.input.clientReference in s.db.bookings
    ensures var s' := DoCreate(s, pid, itemId, at);
            HistoryOk(s') && Later(s, s', pid) && s'.offers == s.offers && s'.lineages == s.lineages && s'.takenBy == s.takenBy && s'.calls == s.calls
  {
  }

  lemma CreatedBookingIsOk(setup: Setup, s: State, pid: nat, itemId: nat, at: int)
    requires HistoryOk(s) && AboutToCreate(s, pid, itemId, at) && ProcOk(setup, s, pid)
    ensures var s', reference := DoCreate(s, pid, itemId, at), s.procs[pid].task.input.clientReference;
            && reference !in s.db.bookings && itemId !in s.db.items
            && s'.db.bookings.Keys == s.db.bookings.Keys + {reference} && s'.db.items.Keys == s.db.items.Keys + {itemId}
            && s'.db.bookings[reference].itemId == itemId && BookingOk(s', reference) && ItemOk(s', itemId)
            && (forall id :: id in s.db.items ==> s'.db.items[id] == s.db.items[id])
  {
    var ticket := s.procs[pid].pc.ticket;
    assert SameTerms(ticket.row, s.offers[ticket.offerId]);
  }

  lemma CreatorIsOk(setup: Setup, s: State, pid: nat, itemId: nat, at: int)
    requires HistoryOk(s) && AboutToCreate(s, pid, itemId, at) && ProcOk(setup, s, pid) && HasCalledNothing(s, pid)
    requires HistoryOk(DoCreate(s, pid, itemId, at)) && Later(s, DoCreate(s, pid, itemId, at), pid)
    ensures ProcOk(setup, DoCreate(s, pid, itemId, at), pid)
  {
    TicketsKeep(setup, s, DoCreate(s, pid, itemId, at), pid, s.procs[pid].pc.ticket);
  }

  /** A create that makes no booking changes nothing but the process, which is done unless it was not creating at all. */
  lemma RefusedCreate(s: State, pid: nat, itemId: nat, at: int)
    requires pid in s.procs && !AboutToCreate(s, pid, itemId, at)
    ensures pid in DoCreate(s, pid, itemId, at).procs
    ensures var pc := DoCreate(s, pid, itemId, at).procs[pid].pc;
            DoCreate(s, pid, itemId, at) == To(s, pid, pc) && (pc.Finished? || pc == s.procs[pid].pc)
  {
    assert s.procs[pid := s.procs[pid]] == s.procs;
  }

  lemma CreatedIsTheOnlyBooking(setup: Setup, s: State, pid: nat, itemId: nat, at: int)
    requires HistoryOk(s) && AboutToCreate(s, pid, itemId, at) && ProcOk(setup, s, pid)
    ensures NewBookingsOk(s, DoCreate(s, pid, itemId, at))
  {
    CreatedBookingIsOk(setup, s, pid, itemId, at);
  }

  /** One new item in order, and offers and other items as they were. */
  lemma OneNewItem(s: State, s': State, itemId: nat)
    requires RowsOk(s) && s.calls == s'.calls && s.now == s'.now && s'.offers == s.offers
    requires s'.db.items.Keys == s.db.items.Keys + {itemId} && ItemOk(s', itemId)
    requires forall id :: id in s.db.items ==> id in s'.db.items && s'.db.items[id] == s.db.items[id]
    ensures RowsOk(s')
  {
    SameRowsOk(s, s');
  }

  lemma CreatedRowsAreOk(setup: Setup, s: State, pid: nat, itemId: nat, at: int)
    requires HistoryOk(s) && RowsOk(s) && AboutToCreate(s, pid, itemId, at) && ProcOk(setup, s, pid)
    ensures NewBookingsOk(s, DoCreate(s, pid, itemId, at)) && RowsOk(DoCreate(s, pid, itemId, at))
  {
    CreatedIsTheOnlyBooking(setup, s, pid, itemId, at);
    CreatedBookingIsOk(setup, s, pid, itemId, at);
    OneNewItem(s, DoCreate(s, pid, itemId, at), itemId);
  }

  lemma CreateNewOk(setup: Setup, s: State, pid: nat, itemId: nat, at: int)
    requires HistoryOk(s) && RowsOk(s) && AboutToCreate(s, pid, itemId, at) && ProcOk(setup, s, pid) && HasCalledNothing(s, pid)
    ensures var s' := DoCreate(s, pid, itemId, at);
            HistoryOk(s') && Later(s, s', pid) && NewOk(setup, s, s', pid)
  {
    CreateIsLater(setup, s, pid, itemId, at);
    CreatedRowsAreOk(setup, s, pid, itemId, at);
    CreatorIsOk(setup, s, pid, itemId, at);
  }

  lemma CreateKeeps(setup: Setup, s: State, pid: nat, itemId: nat, at: int)
    requires ProtocolInv(setup, s) && pid in s.procs
    ensures ProtocolInv(setup, DoCreate(s, pid, itemId, at))
  {
    ProcOf(setup, s, pid);
    if AboutToCreate(s, pid, itemId, at) {
      CreatorHasCalledNothing(setup, s, pid);
      CreateNewOk(setup, s, pid, itemId, at);
      StepAssembles(setup, s, DoCreate(s, pid, itemId, at), pid);
    } else {
      RefusedCreate(s, pid, itemId, at);
      MovesOn(setup, s, pid, DoCreate(s, pid, itemId, at).procs[pid].pc);
    }
  }

  /** An operation that creates nothing keeps the rows. */
  lemma OpKeepsRows(db: Db, op: Op)
    requires !op.Create?
    ensures RowsKept(db, Apply(db, op)) && Apply(db, op).bookings == db.bookings && Apply(db, op).items.Keys == db.items.Keys
  {
  }

  /** And it moves at most its own item along its own edge. */
  lemma OpMovesItsItem(db: Db, op: Op, id: nat)
    requires !op.Create? && id in db.items && id in Apply(db, op).items && Apply(db, op).items[id].state != db.items[id].state
    ensures op.Move? && id == op.itemId && op.to == Apply(db, op).items[id].state && op.ctx.expectedFrom == db.items[id].state
  {
  }

  /** It leaves untouched items untouched, or the supplier has been called for the item it moves. */
  ghost predicate Accounted(s: State, op: Op) {
    OtherOp(op) || (op.Move? && (Untouched(op.to) || exists k :: 0 <= k < |s.calls| && s.calls[k].itemId == op.itemId))
  }

  lemma OpKeepsItems(setup: Setup, s: State, s': State, op: Op)
    requires !op.Create? && Accounted(s, op) && s'.db == Apply(s.db, op) && s'.calls == s.calls
    requires forall id :: id in s.db.items ==> ItemOk(s, id)
    ensures forall id :: id in s'.db.items ==> ItemOk(s', id)
  {
    OpKeepsRows(s.db, op);
    forall id | id in s'.db.items ensures ItemOk(s', id) {
      assert ItemOk(s, id);
      if s'.db.items[id].state != s.db.items[id].state {
        OpMovesItsItem(s.db, op, id);
      }
      if op.Move? && id == op.itemId && s'.db.items[id].state != s.db.items[id].state && !Untouched(op.to) && !OtherOp(op) {
        var k :| 0 <= k < |s.calls| && s.calls[k].itemId == op.itemId;
        assert s'.calls[k].itemId == id;
      } else {
        ItemStaysOk(s, s', id);
      }
    }
  }

  /** A process, or the worker, commits an operation on an existing item. */
  predicate DbStep(s: State, s': State, pid: nat, op: Op) {
    && s' == s.(db := Apply(s.db, op), procs := s'.procs)
    && (s'.procs == s.procs
        || (pid in s.procs && pid in s'.procs && s'.procs[pid].task == s.procs[pid].task && s'.procs == s.procs[pid := s'.procs[pid]]))
  }

  lemma OpIsLater(s: State, s': State, pid: nat, op: Op)
    requires HistoryOk(s) && !op.Create? && DbStep(s, s', pid, op)
    ensures HistoryOk(s') && Later(s, s', pid)
  {
    OpKeepsRows(s.db, op);
  }

  lemma OpNewOk(setup: Setup, s: State, s': State, pid: nat, op: Op)
    requires HistoryOk(s) && RowsOk(s) && !op.Create? && Accounted(s, op) && DbStep(s, s', pid, op)
    requires pid in s.procs ==> ProcOk(setup, s, pid)
    requires s'.procs != s.procs ==> HistoryOk(s') && Later(s, s', pid) ==> ProcOk(setup, s', pid)
    ensures HistoryOk(s') && Later(s, s', pid) && NewOk(setup, s, s', pid)
  {
    OpIsLater(s, s', pid, op);
    OpKeepsRows(s.db, op);
    OpKeepsItems(setup, s, s', op);
    SameRowsOk(s, s');
    if s'.procs == s.procs && pid in s.procs {
      OwnKeeps(setup, s, s', pid);
    }
  }

  lemma OpKeeps(setup: Setup, s: State, s': State, pid: nat, op: Op)
    requires ProtocolInv(setup, s) && !op.Create? && Accounted(s, op) && DbStep(s, s', pid, op)
    requires s'.procs != s.procs ==> HistoryOk(s') && Later(s, s', pid) ==> ProcOk(setup, s', pid)
    ensures ProtocolInv(setup, s')
  {
    OpNewOk(setup, s, s', pid, op);
    StepAssembles(setup, s, s', pid);
  }

  lemma OtherKeeps(setup: Setup, s: State, op: Op)
    requires ProtocolInv(setup, s) && OtherOp(op)
    ensures ProtocolInv(setup, s.(db := Apply(s.db, op)))
  {
    OpKeeps(setup, s, s.(db := Apply(s.db, op)), 0, op);
  }

  lemma ReservedIsOk(setup: Setup, s: State, s': State, pid: nat)
    requires HistoryOk(s) && pid in s.procs && ProcOk(setup, s, pid) && s.procs[pid].pc.Reserving?
    requires s' == To(s, pid, Calling(s.procs[pid].pc.ticket, s.procs[pid].pc.itemId)).(db := s'.db)
    requires HistoryOk(s') && Later(s, s', pid)
    ensures ProcOk(setup, s', pid)
  {
    TicketsKeep(setup, s, s', pid, s.procs[pid].pc.ticket);
  }

  lemma ReserveKeeps(setup: Setup, s: State, pid: nat, at: int, group: nat)
    requires ProtocolInv(setup, s) && pid in s.procs
    ensures ProtocolInv(setup, DoReserve(s, pid, at, group))
  {
    var pc := s.procs[pid].pc;
    if pc.Reserving? {
      var s' := DoReserve(s, pid, at, group);
      var op := Move(pc.itemId, ItemState.Reserved, TransitionContext(Quoted, NO_PATCH, None, at, group));
      ProcOf(setup, s, pid);
      if s'.procs[pid].pc.Calling? && HistoryOk(s') && Later(s, s', pid) {
        ReservedIsOk(setup, s, s', pid);
      }
      OpKeeps(setup, s, s', pid, op);
    }
  }

  function SettleOp(itemId: nat, answer: BookAnswer, clock: PollClock): Op {
    var (to, patch) := SettleEdge(answer, clock);
    Move(itemId, to, TransitionContext(ItemState.Reserved, patch, None, clock.runnerNow, clock.group))
  }

  lemma ReceiveIsDbStep(s: State, pid: nat, answer: BookAnswer, clock: PollClock)
    requires pid in s.procs && s.procs[pid].pc.Answering?
    ensures var s' := DoReceive(s, pid, answer, clock);
            DbStep(s, s', pid, SettleOp(s.procs[pid].pc.itemId, answer, clock)) && pid in s'.procs && s'.procs[pid].pc.Finished?
  {
  }

  /** Only an answer moves an item past the untouched states, and only a sent call is answered. */
  lemma ReceiveKeeps(setup: Setup, s: State, pid: nat, answer: BookAnswer, clock: PollClock)
    requires ProtocolInv(setup, s) && pid in s.procs
    ensures ProtocolInv(setup, DoReceive(s, pid, answer, clock))
  {
    var pc := s.procs[pid].pc;
    if pc.Answering? {
      ProcOf(setup, s, pid);
      assert s.calls[pc.call].itemId == pc.itemId;
      ReceiveIsDbStep(s, pid, answer, clock);
      AnsweredKeeps(setup, s, DoReceive(s, pid, answer, clock), pid, SettleOp(pc.itemId, answer, clock), pc.call);
    }
  }

  lemma AnsweredKeeps(setup: Setup, s: State, s': State, pid: nat, op: Op, call: nat)
    requires ProtocolInv(setup, s) && DbStep(s, s', pid, op) && op.Move? && pid in s'.procs && s'.procs[pid].pc.Finished?
    requires call < |s.calls| && s.calls[call].itemId == op.itemId
    ensures ProtocolInv(setup, s')
  {
    OpKeeps(setup, s, s', pid, op);
  }

  lemma SendIsLater(s: State, pid: nat)
    requires HistoryOk(s) && pid in s.procs && s.procs[pid].pc.Calling? && s.procs[pid].task.Booking?
    ensures HistoryOk(DoSend(s, pid, Sent)) && Later(s, DoSend(s, pid, Sent), pid)
  {
  }

  /** The call that `pid` sends. */
  function CallOf(s: State, pid: nat): BookCall
    requires pid in s.procs && s.procs[pid].pc.Calling? && s.procs[pid].task.Booking?
  {
    BookCall(pid, s.procs[pid].task.input.clientReference, s.procs[pid].pc.ticket, s.procs[pid].pc.itemId)
  }

  lemma SentCallIsOk(setup: Setup, s: State, pid: nat)
    requires HistoryOk(s) && pid in s.procs && ProcOk(setup, s, pid)
    requires s.procs[pid].pc.Calling? && s.procs[pid].task.Booking?
    requires HistoryOk(DoSend(s, pid, Sent)) && Later(s, DoSend(s, pid, Sent), pid)
    ensures CallOk(setup, DoSend(s, pid, Sent), CallOf(s, pid))
  {
    TicketsKeep(setup, s, DoSend(s, pid, Sent), pid, s.procs[pid].pc.ticket);
  }

  lemma SenderAnswers(setup: Setup, s: State, pid: nat)
    requires HistoryOk(s) && pid in s.procs && s.procs[pid].pc.Calling? && s.procs[pid].task.Booking?
    requires HistoryOk(DoSend(s, pid, Sent))
    ensures NewProcOk(setup, s, DoSend(s, pid, Sent), pid)
  {
  }

  lemma OneNewCall(setup: Setup, s: State, s': State, pid: nat, call: BookCall)
    requires HistoryOk(s') && s'.calls == s.calls + [call] && HasCalledNothing(s, pid) && CallOk(setup, s', call)
    ensures NewCallsOk(setup, s, s', pid)
  {
  }

  lemma SentRowsAreOk(s: State, pid: nat)
    requires RowsOk(s) && pid in s.procs && s.procs[pid].pc.Calling? && s.procs[pid].task.Booking?
    ensures NewBookingsOk(s, DoSend(s, pid, Sent)) && RowsOk(DoSend(s, pid, Sent))
  {
    SameRowsOk(s, DoSend(s, pid, Sent));
  }

  lemma SendNewOk(setup: Setup, s: State, pid: nat)
    requires HistoryOk(s) && RowsOk(s) && pid in s.procs && ProcOk(setup, s, pid)
    requires s.procs[pid].pc.Calling? && s.procs[pid].task.Booking?
    ensures var s' := DoSend(s, pid, Sent);
            HistoryOk(s') && Later(s, s', pid) && NewOk(setup, s, s', pid)
  {
    SendIsLater(s, pid);
    SentCallIsOk(setup, s, pid);
    SenderAnswers(setup, s, pid);
    OneNewCall(setup, s, DoSend(s, pid, Sent), pid, CallOf(s, pid));
    SentRowsAreOk(s, pid);
  }

  lemma SendKeeps(setup: Setup, s: State, pid: nat, dispatch: Dispatch)
    requires ProtocolInv(setup, s) && pid in s.procs
    ensures ProtocolInv(setup, DoSend(s, pid, dispatch))
  {
    var proc := s.procs[pid];
    if proc.pc.Calling? && proc.task.Booking? {
      match dispatch {
        case NoAdapter => MovesOn(setup, s, pid, Finished(Refused(SupplierUnavailable)));
        case NoContext =>
          OpKeeps(setup, s, DoSend(s, pid, dispatch), pid, SettleOp(proc.pc.itemId, BookFailed, PollClock(s.now, s.now, 0)));
        case Sent =>
          ProcOf(setup, s, pid);
          SendNewOk(setup, s, pid);
          StepAssembles(setup, s, DoSend(s, pid, dispatch), pid);
      }
    }
  }

  /** A step that only changes the offer store, and possibly finishes `pid`. */
  ghost predicate StoreStep(s: State, s': State, pid: nat)
    requires HistoryOk(s)
  {
    && s' == s.(offers := s'.offers, lineages := s'.lineages, procs := s'.procs)
    && (s'.procs == s.procs || (pid in s.procs && exists reply :: s'.procs == s.procs[pid := s.procs[pid].(pc := Finished(reply))]))
    && LineagesInv(s'.offers, s'.lineages) && Evolves(s.offers, s.lineages, s'.offers, s'.lineages)
    && (forall id :: id in s'.offers && id !in s.offers ==> OfferOk(s', id))
  }

  lemma StoreStepNewOk(setup: Setup, s: State, s': State, pid: nat)
    requires HistoryOk(s) && RowsOk(s) && StoreStep(s, s', pid) && (pid in s.procs ==> ProcOk(setup, s, pid))
    ensures HistoryOk(s') && Later(s, s', pid) && NewOk(setup, s, s', pid)
  {
    SameRowsOk(s, s');
    assert HistoryOk(s') && Later(s, s', pid);
    if s'.procs == s.procs && pid in s.procs {
      OwnKeeps(setup, s, s', pid);
    }
  }

  lemma StoreStepKeeps(setup: Setup, s: State, s': State, pid: nat)
    requires ProtocolInv(setup, s) && StoreStep(s, s', pid)
    ensures ProtocolInv(setup, s')
  {
    StoreStepNewOk(setup, s, s', pid);
    StepAssembles(setup, s, s', pid);
  }

  lemma IssueKeeps(setup: Setup, s: State, record: NewOfferRecord)
    requires ProtocolInv(setup, s)
    ensures ProtocolInv(setup, DoIssue(s, record))
  {
    var s' := DoIssue(s, record);
    if s' != s {
      InsertStartsALineage(s.offers, s.lineages, record.(checkedAt := None), s.now);
      StoreStepKeeps(setup, s, s', 0);
    }
  }

  lemma FinishingKeeps(setup: Setup, s: State, pid: nat, offers: Offers, lineages: Lineages, reply: Reply)
    requires ProtocolInv(setup, s) && pid in s.procs
    requires LineagesInv(offers, lineages) && Evolves(s.offers, s.lineages, offers, lineages)
    requires forall id :: id in offers && id !in s.offers ==>
               offers[id].createdAt <= s.now && offers[id].expiresAt <= offers[id].createdAt + MAX_OFFER_TTL_MS
    ensures ProtocolInv(setup, To(s, pid, Finished(reply)).(offers := offers, lineages := lineages))
  {
    StoreStepKeeps(setup, s, To(s, pid, Finished(reply)).(offers := offers, lineages := lineages), pid);
  }

  lemma ReplaceKeeps(setup: Setup, s: State, pid: nat, offerId: nat, record: NewOfferRecord)
    requires ProtocolInv(setup, s) && pid in s.procs && s.procs[pid].pc == Replacing(offerId, record)
    ensures ProtocolInv(setup, DoFinishCheck(s, pid))
  {
    var (offers, r) := Supersede(s.offers, offerId, record, s.now);
    if r.Failure? {
      MovesOn(setup, s, pid, Finished(Refused(StoreFailed)));
    } else if !r.value {
      MovesOn(setup, s, pid, Finished(Refused(OfferInvalidated)));
    } else {
      ProcOf(setup, s, pid);
      SupersedeKeepsOneLive(s.offers, s.lineages, offerId, record, s.now);
      SupersedeOutcome(s.offers, offerId, record, s.now);
      FinishingKeeps(setup, s, pid, offers, WithSuccessor(s.lineages, offerId, record.id), CheckedAs(record.id));
    }
  }

  lemma FinishCheckKeeps(setup: Setup, s: State, pid: nat)
    requires ProtocolInv(setup, s) && pid in s.procs
    ensures ProtocolInv(setup, DoFinishCheck(s, pid))
  {
    match s.procs[pid].pc {
      case Marking(offerId) =>
        MarkEvolves(s.offers, s.lineages, offerId, s.now);
        FinishingKeeps(setup, s, pid, MarkChecked(s.offers, offerId, s.now), s.lineages, CheckedAs(offerId));
      case Withdrawing(offerId) =>
        ClaimKillsTheLineage(s.offers, s.lineages, offerId, s.now);
        FinishingKeeps(setup, s, pid, Claim(s.offers, offerId, s.now).0, s.lineages, Refused(SupplierFailed));
      case Replacing(offerId, record) => ReplaceKeeps(setup, s, pid, offerId, record);
      case _ =>
    }
  }

  lemma ActKeeps(setup: Setup, s: State, pid: nat, action: Action)
    requires ProtocolInv(setup, s) && pid in s.procs
    ensures ProtocolInv(setup, Act(setup, s, pid, action))
  {
    match action {
      case ClaimOffer => ClaimKeeps(setup, s, pid);
      case CreateBooking(itemId, at) => CreateKeeps(setup, s, pid, itemId, at);
      case Reserve(at, group) => ReserveKeeps(setup, s, pid, at, group);
      case SendBook(dispatch) => SendKeeps(setup, s, pid, dispatch);
      case ReceiveBook(answer, clock) => ReceiveKeeps(setup, s, pid, answer, clock);
      case FinishCheck => FinishCheckKeeps(setup, s, pid);
      case _ => LocalKeeps(setup, s, pid, action);
    }
  }

  lemma ProtocolStepKeepsInv(setup: Setup, s: State, step: Step)
    requires ProtocolInv(setup, s)
    ensures ProtocolInv(setup, Do(setup, s, step))
  {
    match step {
      case Tick(to) => if s.now <= to { TickKeeps(setup, s, to); }
      case Issue(record) => IssueKeeps(setup, s, record);
      case Start(pid, task) => StartKeeps(setup, s, pid, task);
      case Other(op) => if OtherOp(op) { OtherKeeps(setup, s, op); }
      case By(pid, action) => if pid in s.procs { ActKeeps(setup, s, pid, action); }
    }
  }

  lemma {:induction false} ExecutionKeepsInv(setup: Setup, steps: seq<Step>)
    ensures ProtocolInv(setup, Execute(setup, steps))
  {
    if steps != [] {
      ExecutionKeepsInv(setup, steps[..|steps| - 1]);
      ProtocolStepKeepsInv(setup, Execute(setup, steps[..|steps| - 1]), steps[|steps| - 1]);
    }
  }

  // ---------------------------------------------------------------------------
  // The promises

  /**
   However bookings and checks interleave and crash, no two book calls to the supplier share a client
   reference, an offer, a lineage of superseding offers, or a booking item.
   */
  lemma SupplierIsBookedOnce(setup: Setup, steps: seq<Step>, j: nat, k: nat)
    requires j < k < |Execute(setup, steps).calls|
    ensures var s := Execute(setup, steps);
            var a, b := s.calls[j], s.calls[k];
            && a.ticket.offerId in s.lineages.of && b.ticket.offerId in s.lineages.of
            && a.clientReference != b.clientReference
            && a.ticket.offerId != b.ticket.offerId
            && s.lineages.of[a.ticket.offerId] != s.lineages.of[b.ticket.offerId]
            && a.itemId != b.itemId
  {
    ExecutionKeepsInv(setup, steps);
    var s := Execute(setup, steps);
    assert CallOk(setup, s, s.calls[j]) && CallOk(setup, s, s.calls[k]);
    assert s.calls[j].pid != s.calls[k].pid;
  }

  /** A lineage never has two offers that could be booked. */
  lemma {:induction false} OneBookableOfferPerLineage(setup: Setup, steps: seq<Step>, a: nat, b: nat)
    requires var s := Execute(setup, steps);
             Live(s.offers, a) && Live(s.offers, b) && a in s.lineages.of && b in s.lineages.of && s.lineages.of[a] == s.lineages.of[b]
    ensures a == b
  {
    ExecutionKeepsInv(setup, steps);
  }

  lemma TakenLineagesDiffer(setup: Setup, s: State, pid: nat, reference: string)
    requires ProtocolInv(setup, s) && pid in s.procs && s.procs[pid].pc.Creating? && reference in s.db.bookings
    ensures s.db.bookings[reference].itemId in s.db.items
    ensures s.db.items[s.db.bookings[reference].itemId].offerId != Some(s.procs[pid].pc.ticket.offerId)
    ensures ForOffer(s.procs[pid].task, s.procs[pid].pc.ticket) && s.procs[pid].pc.ticket.row.policySnapshot.Some?
  {
    ProcOf(setup, s, pid);
    assert BookingOk(s, reference);
    assert s.createdBy[reference] != pid;
  }

  /** A call that won its claim but finds its client reference taken always refuses: it can never be a replay. */
  lemma ClaimWinnerNeverReplays(setup: Setup, steps: seq<Step>, pid: nat, itemId: nat, at: int)
    requires var s := Execute(setup, steps);
             && pid in s.procs && s.procs[pid].pc.Creating? && s.procs[pid].task.Booking?
             && s.procs[pid].task.input.clientReference in s.db.bookings
    ensures var s := Execute(setup, steps);
            exists why :: DoCreate(s, pid, itemId, at) == To(s, pid, Finished(Refused(why)))
  {
    ExecutionKeepsInv(setup, steps);
    var s := Execute(setup, steps);
    TakenLineagesDiffer(setup, s, pid, s.procs[pid].task.input.clientReference);
    RefusedByReference(s, pid, itemId, at);
  }

  lemma RefusedByReference(s: State, pid: nat, itemId: nat, at: int)
    requires pid in s.procs && s.procs[pid].pc.Creating? && ForOffer(s.procs[pid].task, s.procs[pid].pc.ticket)
    requires s.procs[pid].pc.ticket.row.policySnapshot.Some? && s.procs[pid].task.input.clientReference in s.db.bookings
    requires var id := s.db.bookings[s.procs[pid].task.input.clientReference].itemId;
             id in s.db.items && s.db.items[id].offerId != Some(s.procs[pid].pc.ticket.offerId)
    ensures exists why :: DoCreate(s, pid, itemId, at) == To(s, pid, Finished(Refused(why)))
  {
    var s' := DoCreate(s, pid, itemId, at);
    assert s' == To(s, pid, s'.procs[pid].pc);
    assert s'.procs[pid].pc == Finished(Refused(s'.procs[pid].pc.reply.why));
  }

  /**
   Every book call passed the gate: the caller's token carried the signature that verifies for the offer
   as stored, the offer is its agency's, and was checked inside the window, unexpired and not withdrawn
   then, no older than the cap on offer lifetimes; the booking is of that agency at the stored prices and policy.
   */
  lemma EveryCallPassedTheGate(setup: Setup, steps: seq<Step>, k: nat)
    requires k < |Execute(setup, steps).calls|
    ensures var s := Execute(setup, steps);
            var call := s.calls[k];
            var ticket := call.ticket;
            && call.pid in s.procs && ForOffer(s.procs[call.pid].task, ticket)
            && setup.verifies(ticket.offerId, ticket.row, ticket.row.priceHash)
            && ticket.gateAt <= s.now && ticket.gateAt < ticket.row.expiresAt && ticket.row.invalidatedAt.None?
            && ticket.row.checkedAt.Some? && ticket.gateAt - ticket.row.checkedAt.value <= setup.bookableWindowMs
            && ticket.offerId in s.offers && SameTerms(ticket.row, s.offers[ticket.offerId])
            && ticket.gateAt < s.offers[ticket.offerId].createdAt + MAX_OFFER_TTL_MS
            && call.clientReference in s.db.bookings && s.db.bookings[call.clientReference].itemId == call.itemId
            && s.db.bookings[call.clientReference].agency == ticket.row.details.value.subTenant
            && call.itemId in s.db.items
            && var item := s.db.items[call.itemId];
               && item.offerId == Some(ticket.offerId) && item.sell == ticket.row.sell.amount && item.net == ticket.row.net.amount
               && item.currency == ticket.row.sell.currency && item.currency == ticket.row.net.currency
               && ticket.row.policySnapshot == Some(item.policy)
  {
    ExecutionKeepsInv(setup, steps);
    var s := Execute(setup, steps);
    assert CallOk(setup, s, s.calls[k]);
    assert BookingOk(s, s.calls[k].clientReference);
    assert OfferOk(s, s.calls[k].ticket.offerId);
  }

  lemma {:induction false} MovedItemsAreCalled(setup: Setup, steps: seq<Step>, id: nat) returns (k: nat)
    requires id in Execute(setup, steps).db.items && !Untouched(Execute(setup, steps).db.items[id].state)
    ensures k < |Execute(setup, steps).calls| && Execute(setup, steps).calls[k].itemId == id
  {
    ExecutionKeepsInv(setup, steps);
    var s := Execute(setup, steps);
    assert ItemOk(s, id);
    k :| 0 <= k < |s.calls| && s.calls[k].itemId == id;
  }

  /** An item past reserved that did not fail stands for exactly one book call. */
  lemma {:induction false} NoBookingWithoutACall(setup: Setup, steps: seq<Step>, id: nat) returns (k: nat)
    requires id in Execute(setup, steps).db.items && !Untouched(Execute(setup, steps).db.items[id].state)
    ensures k < |Execute(setup, steps).calls|
    ensures forall j: nat :: j < |Execute(setup, steps).calls| ==> (Execute(setup, steps).calls[j].itemId == id <==> j == k)
  {
    k := MovedItemsAreCalled(setup, steps, id);
    forall j: nat | j < |Execute(setup, steps).calls| && j != k ensures Execute(setup, steps).calls[j].itemId != id {
      SupplierIsBookedOnce(setup, steps, if j < k then j else k, if j < k then k else j);
    }
  }
}
