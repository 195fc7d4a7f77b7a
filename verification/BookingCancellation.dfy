/**
 Cancelling a booking (apps/api/src/hotel-booking/booking.service.ts): the preview, the supplier call,
 and the settlement of the supplier's answer against rows that other callers and the worker move in
 the meantime. What those others commit between two of our steps is an arbitrary list of operations.
 */
module BookingCancellation {
  import opened BookingStates
  import opened CancellationPolicies
  import opened ItemRuns
  import opened Money
  import opened TransitionRunner
  import opened WaitingBooking
  import opened Wrappers

  // ---------------------------------------------------------------------------
  // settleSupplierCancelled

  /** What others commit before one attempt's read and before its write, and the write's clock and ids. */
  datatype Turn = Turn(beforeRead: seq<Op>, beforeWrite: seq<Op>, now: int, group: nat)

  datatype Verdict =
    | Retry
    | Done(settledHere: bool)
    | GiveUp
    | Threw(error: RunnerError)

  function FreeAsNone(penalty: Money): Option<Money> {
    if penalty.amount == 0 then None else Some(penalty)
  }

  function SettleContext(from: ItemState, requestedAt: int, penalty: Money, turn: Turn): TransitionContext {
    TransitionContext(from, Patch(None, None, None, Some(requestedAt)), Some(FreeAsNone(penalty)), turn.now, turn.group)
  }

  /** One pass of the loop. */
  function Attempt(db: Db, id: nat, requestedAt: int, penalty: Money, turn: Turn): (Db, Verdict) {
    var read := Run(db, turn.beforeRead);
    if id !in read.items then (read, GiveUp)
    else
      var state := read.items[id].state;
      if state == Cancelled then (read, Done(false))
      else if state != ItemState.Confirmed && state != PendingConfirmation then (read, GiveUp)
      else
        var (db', r) := Transition(Run(read, turn.beforeWrite), id, Cancelled, SettleContext(state, requestedAt, penalty, turn));
        match r
        case Success(_) => (db', Done(true))
        case Failure(e) => (db', if e.TransitionConflict? then Retry else Threw(e))
  }

  function Attempts(db: Db, id: nat, requestedAt: int, penalty: Money, turns: seq<Turn>): (Db, Verdict) {
    if turns == [] then (db, Retry)
    else
      var (db', verdict) := Attempts(db, id, requestedAt, penalty, turns[..|turns| - 1]);
      if verdict != Retry then (db', verdict) else Attempt(db', id, requestedAt, penalty, turns[|turns| - 1])
  }

  const MAX_ATTEMPTS := 3

  // ---------------------------------------------------------------------------
  // cancelBooking

  datatype Preview = Preview(penalty: Money, refund: Option<Money>, refundable: bool, asOf: int)

  datatype CancelStatus = NowCancelled | CancellationPending

  datatype CancelReply = CancelReply(status: CancelStatus, state: ItemState, preview: Preview)

  datatype CancelError =
    | BookingNotFound
    | NotCancellable
    | PreviewFailed
    | SupplierCallFailed
    | LeftForReconciliation
    | RunnerRefused(error: RunnerError)

  datatype CancelAnswer = SaysCancelled | SaysInProgress | CancelCallFails

  /** Everything one call meets from outside. */
  datatype CancelWorld = CancelWorld(
    now: int,
    answer: CancelAnswer,
    duringCall: seq<Op>,
    turns: seq<Turn>,
    beforeEscalate: seq<Op>,
    escalateAt: int,
    beforeMark: seq<Op>
  )

  function BuildPreview(item: ItemRow, at: int): Result<Preview, CancelError> {
    if !ValidPolicy(item.policy) || !SafeInteger(item.sell) then Failure(PreviewFailed)
    else
      var penalty := PenaltyOrZero(item.policy.rules, at, item.currency);
      if penalty.currency != item.currency then Success(Preview(penalty, None, item.policy.refundable, at))
      else
        match Subtract(Money(item.sell, item.currency), penalty)
        case Failure(_) => Failure(PreviewFailed)
        case Success(refund) => Success(Preview(penalty, Some(refund), item.policy.refundable, at))
  }

  /** loadScoped: a booking of another agency is as good as absent. */
  function LoadScoped(db: Db, reference: string, agency: Option<string>): Option<nat> {
    if reference in db.bookings && db.bookings[reference].agency == agency && db.bookings[reference].itemId in db.items
    then Some(db.bookings[reference].itemId)
    else None
  }

  function Replied(status: CancelStatus, state: ItemState, preview: Result<Preview, CancelError>): Result<CancelReply, CancelError> {
    match preview
    case Failure(e) => Failure(e)
    case Success(p) => Success(CancelReply(status, state, p))
  }

  /** What a call does before it would reach the supplier: an early answer, or None to go on. */
  function AnsweredWithoutSupplier(item: ItemRow, now: int): Option<Result<CancelReply, CancelError>> {
    if item.state == Cancelled then
      var at := if item.cancellationRequestedAt.Some? then item.cancellationRequestedAt.value else now;
      Some(Replied(NowCancelled, Cancelled, BuildPreview(item, at)))
    else if item.state != ItemState.Confirmed && item.state != PendingConfirmation then Some(Failure(NotCancellable))
    else if item.supplierReference.None? then Some(Failure(NotCancellable))
    else if BuildPreview(item, now).Failure? then Some(Failure(BuildPreview(item, now).error))
    else if item.cancellationRequestedAt.Some? then
      Some(Replied(CancellationPending, item.state, BuildPreview(item, item.cancellationRequestedAt.value)))
    else None
  }

  function SettleCancelled(db: Db, id: nat, preview: Preview, world: CancelWorld): (Db, Result<CancelReply, CancelError>) {
    var (db', verdict) := Attempts(db, id, world.now, preview.penalty, world.turns);
    match verdict
    case Done(_) => (db', Success(CancelReply(NowCancelled, Cancelled, preview)))
    case Threw(e) => (db', Failure(RunnerRefused(e)))
    case _ => (Escalate(Run(db', world.beforeEscalate), id, world.escalateAt).0, Failure(LeftForReconciliation))
  }

  function RecordInProgress(db: Db, id: nat, preview: Preview, world: CancelWorld): (Db, Result<CancelReply, CancelError>)
    requires id in db.items
  {
    var current := db.items[id];
    if current.state == Cancelled then (db, Success(CancelReply(NowCancelled, Cancelled, preview)))
    else
      var reply := Success(CancelReply(CancellationPending, current.state, preview));
      if current.state in {ItemState.Confirmed, PendingConfirmation} && current.cancellationRequestedAt.None? then
        (MarkCancellationRequested(Run(db, world.beforeMark), id, world.now).0, reply)
      else (db, reply)
  }

  /** cancelBooking, with the number of supplier calls it made. */
  function CancelBooking(db: Db, reference: string, agency: Option<string>, world: CancelWorld): (Db, Result<CancelReply, CancelError>, nat) {
    var loaded := LoadScoped(db, reference, agency);
    if loaded.None? then (db, Failure(BookingNotFound), 0)
    else
      var id := loaded.value;
      var early := AnsweredWithoutSupplier(db.items[id], world.now);
      if early.Some? then (db, early.value, 0)
      else
        var preview := BuildPreview(db.items[id], world.now).value;
        var after := Run(db, world.duringCall);
        match world.answer
        case CancelCallFails => (after, Failure(SupplierCallFailed), 1)
        case SaysCancelled =>
          var (db', r) := SettleCancelled(after, id, preview, world);
          (db', r, 1)
        case SaysInProgress =>
          if LoadScoped(after, reference, agency) != Some(id) then (after, Failure(BookingNotFound), 1)
          else
            var (db', r) := RecordInProgress(after, id, preview, world);
            (db', r, 1)
  }

  // ---------------------------------------------------------------------------
  // The service

  class HotelBookingService {
    const runner: BookingTransitionRunner

    constructor (runner: BookingTransitionRunner)
      ensures this.runner == runner
    {
      this.runner := runner;
    }

    /** Other writers' commits between two of our steps. */
    method OthersCommit(ops: seq<Op>)
      modifies runner.db
      ensures runner.db.Contents() == Run(old(runner.db.Contents()), ops)
    {
      var i := 0;
      while i < |ops|
        invariant 0 <= i <= |ops|
        invariant runner.db.Contents() == Run(old(runner.db.Contents()), ops[..i])
      {
        assert ops[..i + 1][..i] == ops[..i];
        runner.db.Become(Apply(runner.db.Contents(), ops[i]));
        i := i + 1;
      }
      assert ops[..i] == ops;
    }

    method TryToSettle(id: nat, requestedAt: int, penalty: Money, turn: Turn) returns (verdict: Verdict)
      modifies runner.db
      ensures (runner.db.Contents(), verdict) == Attempt(old(runner.db.Contents()), id, requestedAt, penalty, turn)
    {
      OthersCommit(turn.beforeRead);
      if id !in runner.db.items {
        return GiveUp;
      }
      var current := runner.db.items[id];
      if current.state == Cancelled {
        return Done(false);
      }
      if current.state != ItemState.Confirmed && current.state != PendingConfirmation {
        return GiveUp;
      }
      OthersCommit(turn.beforeWrite);
      var result := runner.TransitionItem(id, Cancelled, SettleContext(current.state, requestedAt, penalty, turn));
      verdict := if result.Success? then Done(true) else if result.error.TransitionConflict? then Retry else Threw(result.error);
    }

    method SettleSupplierCancelled(id: nat, preview: Preview, world: CancelWorld) returns (r: Result<CancelReply, CancelError>)
      requires |world.turns| == MAX_ATTEMPTS
      modifies runner.db
      ensures (runner.db.Contents(), r) == SettleCancelled(old(runner.db.Contents()), id, preview, world)
    {
      ghost var before := runner.db.Contents();
      var verdict, attempt := Retry, 0;
      while attempt < MAX_ATTEMPTS && verdict == Retry
        invariant 0 <= attempt <= MAX_ATTEMPTS
        invariant (runner.db.Contents(), verdict) == Attempts(before, id, world.now, preview.penalty, world.turns[..attempt])
        decreases MAX_ATTEMPTS - attempt
      {
        assert world.turns[..attempt + 1][..attempt] == world.turns[..attempt];
        verdict := TryToSettle(id, world.now, preview.penalty, world.turns[attempt]);
        attempt := attempt + 1;
      }
      if verdict != Retry {
        VerdictStands(before, id, world.now, preview.penalty, world.turns, attempt);
      } else {
        assert world.turns[..attempt] == world.turns;
      }
      if verdict.Done? {
        return Success(CancelReply(NowCancelled, Cancelled, preview));
      }
      if verdict.Threw? {
        return Failure(RunnerRefused(verdict.error));
      }
      OthersCommit(world.beforeEscalate);
      var _ := runner.EscalateItem(id, world.escalateAt);
      r := Failure(LeftForReconciliation);
    }

    method Cancel(reference: string, agency: Option<string>, world: CancelWorld) returns (r: Result<CancelReply, CancelError>, supplierCalls: nat)
      requires |world.turns| == MAX_ATTEMPTS
      modifies runner.db
      ensures (runner.db.Contents(), r, supplierCalls) == CancelBooking(old(runner.db.Contents()), reference, agency, world)
    {
      supplierCalls := 0;
      var loaded := LoadScoped(runner.db.Contents(), reference, agency);
      if loaded.None? {
        return Failure(BookingNotFound), 0;
      }
      var id := loaded.value;
      var item := runner.db.items[id];
      var early := AnsweredWithoutSupplier(item, world.now);
      if early.Some? {
        return early.value, 0;
      }
      var preview := BuildPreview(item, world.now).value;
      supplierCalls := 1;
      OthersCommit(world.duringCall);
      match world.answer {
        case CancelCallFails =>
          r := Failure(SupplierCallFailed);
        case SaysCancelled =>
          r := SettleSupplierCancelled(id, preview, world);
        case SaysInProgress =>
          if LoadScoped(runner.db.Contents(), reference, agency) != Some(id) {
            return Failure(BookingNotFound), 1;
          }
          var current := runner.db.items[id];
          if current.state == Cancelled {
            return Success(CancelReply(NowCancelled, Cancelled, preview)), 1;
          }
          if current.state in {ItemState.Confirmed, PendingConfirmation} && current.cancellationRequestedAt.None? {
            OthersCommit(world.beforeMark);
            var _ := runner.RequestCancellation(id, world.now);
          }
          r := Success(CancelReply(CancellationPending, current.state, preview));
      }
    }
  }

  /** A verdict other than retry ends the loop: the later turns change nothing. */
  lemma {:induction false} VerdictStands(db: Db, id: nat, requestedAt: int, penalty: Money, turns: seq<Turn>, n: nat)
    requires n <= |turns| && Attempts(db, id, requestedAt, penalty, turns[..n]).1 != Retry
    ensures Attempts(db, id, requestedAt, penalty, turns) == Attempts(db, id, requestedAt, penalty, turns[..n])
  {
    if n == |turns| {
      assert turns[..n] == turns;
    } else {
      assert turns[..|turns| - 1][..n] == turns[..n];
      VerdictStands(db, id, requestedAt, penalty, turns[..|turns| - 1], n);
    }
  }

  // ---------------------------------------------------------------------------
  // A call is a run of operations

  lemma AttemptIsARun(db: Db, id: nat, requestedAt: int, penalty: Money, turn: Turn) returns (ops: seq<Op>)
    ensures Attempt(db, id, requestedAt, penalty, turn).0 == Run(db, ops)
  {
    ops := turn.beforeRead;
    var read := Run(db, turn.beforeRead);
    if id in read.items && read.items[id].state in {ItemState.Confirmed, PendingConfirmation} {
      var move := Move(id, Cancelled, SettleContext(read.items[id].state, requestedAt, penalty, turn));
      RunsCompose(db, turn.beforeRead, turn.beforeWrite);
      RunAppend(db, turn.beforeRead + turn.beforeWrite, move);
      ops := turn.beforeRead + turn.beforeWrite + [move];
    }
  }

  lemma {:induction false} AttemptsAreARun(db: Db, id: nat, requestedAt: int, penalty: Money, turns: seq<Turn>) returns (ops: seq<Op>)
    ensures Attempts(db, id, requestedAt, penalty, turns).0 == Run(db, ops)
  {
    ops := [];
    if turns != [] {
      var (mid, verdict) := Attempts(db, id, requestedAt, penalty, turns[..|turns| - 1]);
      ops := AttemptsAreARun(db, id, requestedAt, penalty, turns[..|turns| - 1]);
      if verdict == Retry {
        var more := AttemptIsARun(mid, id, requestedAt, penalty, turns[|turns| - 1]);
        RunsCompose(db, ops, more);
        ops := ops + more;
      }
    }
  }

  lemma SettlementIsARun(db: Db, id: nat, preview: Preview, world: CancelWorld) returns (ops: seq<Op>)
    ensures SettleCancelled(db, id, preview, world).0 == Run(db, ops)
  {
    ops := AttemptsAreARun(db, id, world.now, preview.penalty, world.turns);
    var verdict := Attempts(db, id, world.now, preview.penalty, world.turns).1;
    if !verdict.Done? && !verdict.Threw? {
      RunsCompose(db, ops, world.beforeEscalate);
      RunAppend(db, ops + world.beforeEscalate, EscalateItem(id, world.escalateAt));
      ops := ops + world.beforeEscalate + [EscalateItem(id, world.escalateAt)];
    }
  }

  lemma RecordingIsARun(db: Db, id: nat, preview: Preview, world: CancelWorld) returns (ops: seq<Op>)
    requires id in db.items
    ensures RecordInProgress(db, id, preview, world).0 == Run(db, ops)
  {
    ops := [];
    var current := db.items[id];
    if current.state in {ItemState.Confirmed, PendingConfirmation} && current.cancellationRequestedAt.None? {
      RunAppend(db, world.beforeMark, RequestCancel(id, world.now));
      ops := world.beforeMark + [RequestCancel(id, world.now)];
    }
  }

  /** What a call and those it met commit is some list of operations, so what every run keeps it keeps. */
  lemma CancelIsARun(db: Db, reference: string, agency: Option<string>, world: CancelWorld) returns (ops: seq<Op>)
    ensures CancelBooking(db, reference, agency, world).0 == Run(db, ops)
  {
    ops := [];
    var loaded := LoadScoped(db, reference, agency);
    if loaded.Some? && AnsweredWithoutSupplier(db.items[loaded.value], world.now).None? {
      var id, after := loaded.value, Run(db, world.duringCall);
      var preview := BuildPreview(db.items[id], world.now).value;
      ops := world.duringCall;
      if world.answer == SaysCancelled {
        var more := SettlementIsARun(after, id, preview, world);
        RunsCompose(db, world.duringCall, more);
        ops := world.duringCall + more;
      } else if world.answer == SaysInProgress && LoadScoped(after, reference, agency) == Some(id) {
        var more := RecordingIsARun(after, id, preview, world);
        RunsCompose(db, world.duringCall, more);
        ops := world.duringCall + more;
      }
    }
  }

  // ---------------------------------------------------------------------------
  // Each conflict costs a level

  lemma TemplatedStatesOnly(db: Db, id: nat)
    requires Inv(db) && id in db.items
    ensures db.items[id].state !in {Issued, AmendmentPending, Completed}
  {
    assert ItemInv(db, id);
    ReplayReachesTemplatedStates(OutboxPath(db.outbox, id));
  }

  /** In a reachable state the settling transition fails only by conflict. */
  lemma SettlingRefusesOnlyOnConflict(db: Db, id: nat, ctx: TransitionContext)
    requires Inv(db) && id in db.items
    requires ctx.expectedFrom in {ItemState.Confirmed, PendingConfirmation}
    requires ctx.penalty.Some? && (ctx.penalty.value.Some? ==> ValidMoney(ctx.penalty.value.value))
    ensures var r := Transition(db, id, Cancelled, ctx).1;
            if db.items[id].state == ctx.expectedFrom then r.Success? else r == Failure(TransitionConflict)
  {
    assert ItemInv(db, id);
  }

  /** A conflict means the item has climbed past the state the attempt read. */
  lemma AttemptClimbs(db: Db, id: nat, requestedAt: int, penalty: Money, turn: Turn)
    requires Inv(db) && id in db.items && ValidMoney(penalty) && Rank(db.items[id].state) >= 2
    ensures var (db', verdict) := Attempt(db, id, requestedAt, penalty, turn);
            && Inv(db') && id in db'.items && !verdict.Threw?
            && Rank(db'.items[id].state) >= Rank(db.items[id].state)
            && (verdict == Retry ==> Rank(db'.items[id].state) > Rank(db.items[id].state))
            && (verdict == GiveUp ==> db'.items[id].state == Failed)
            && (verdict.Done? ==> db'.items[id].state == Cancelled)
  {
    var read := Run(db, turn.beforeRead);
    RunFromKeepsInv(db, turn.beforeRead);
    ItemsOnlyClimb(db, turn.beforeRead, id);
    TemplatedStatesOnly(read, id);
    var state := read.items[id].state;
    if state in {ItemState.Confirmed, PendingConfirmation} {
      var now := Run(read, turn.beforeWrite);
      RunFromKeepsInv(read, turn.beforeWrite);
      ItemsOnlyClimb(read, turn.beforeWrite, id);
      var op := Move(id, Cancelled, SettleContext(state, requestedAt, penalty, turn));
      SettlingRefusesOnlyOnConflict(now, id, op.ctx);
      StepKeepsInv(now, op);
    }
  }

  /** Each conflict costs a level, so n conflicts put the item n levels up. */
  lemma {:induction false} AttemptsClimb(db: Db, id: nat, requestedAt: int, penalty: Money, turns: seq<Turn>)
    requires Inv(db) && id in db.items && ValidMoney(penalty) && Rank(db.items[id].state) >= 2
    ensures var (db', verdict) := Attempts(db, id, requestedAt, penalty, turns);
            && Inv(db') && id in db'.items && !verdict.Threw?
            && Rank(db'.items[id].state) >= Rank(db.items[id].state)
            && (verdict == Retry ==> Rank(db'.items[id].state) >= Rank(db.items[id].state) + |turns|)
            && (verdict == GiveUp ==> db'.items[id].state == Failed)
            && (verdict.Done? ==> db'.items[id].state == Cancelled)
  {
    if turns != [] {
      var init := Attempts(db, id, requestedAt, penalty, turns[..|turns| - 1]);
      AttemptsClimb(db, id, requestedAt, penalty, turns[..|turns| - 1]);
      if init.1 == Retry {
        AttemptClimbs(init.0, id, requestedAt, penalty, turns[|turns| - 1]);
      }
    }
  }

  /**
   Three attempts always suffice. Whatever others commit in between, the loop never runs out of
   attempts on an item that was pending or further: it ends with the item cancelled, or, exactly when
   the item failed instead, it gives up.
   */
  lemma ThreeAttemptsSuffice(db: Db, id: nat, requestedAt: int, penalty: Money, turns: seq<Turn>)
    requires Inv(db) && id in db.items && ValidMoney(penalty) && Rank(db.items[id].state) >= 2
    requires |turns| == MAX_ATTEMPTS
    ensures var (db', verdict) := Attempts(db, id, requestedAt, penalty, turns);
            && id in db'.items
            && (verdict.Done? <==> db'.items[id].state == Cancelled)
            && (verdict == GiveUp <==> db'.items[id].state == Failed)
            && (verdict.Done? || verdict == GiveUp)
  {
    AttemptsClimb(db, id, requestedAt, penalty, turns);
  }

  predicate InState(db: Db, state: ItemState) {
    0 in db.items && db.items[0].state == state && db.items[0].sell == 1000 && db.items[0].net == 900 && db.items[0].currency == "SAR"
  }

  /** An attempt that read `from` conflicts when `op` moves the item on before its write. */
  lemma OvertakenAttempt(db: Db, op: Op, from: ItemState, to: ItemState, penalty: Money)
    requires InState(db, from) && from in {PendingConfirmation, ItemState.Confirmed} && from != to && InState(Apply(db, op), to)
    ensures Attempt(db, 0, 7, penalty, Turn([], [op], 8, 8)) == (Apply(db, op), Retry)
  {
    OneStepRun(db, op);
  }

  lemma TwoConflicts(db: Db, db1: Db, db2: Db, id: nat, requestedAt: int, penalty: Money, t1: Turn, t2: Turn)
    requires Attempt(db, id, requestedAt, penalty, t1) == (db1, Retry)
    requires Attempt(db1, id, requestedAt, penalty, t2) == (db2, Retry)
    ensures Attempts(db, id, requestedAt, penalty, [t1, t2]) == (db2, Retry)
  {
    assert [t1, t2][..1] == [t1] && [t1][..0] == [];
    assert Attempts(db, id, requestedAt, penalty, [t1]) == (db1, Retry);
  }

  /** Someone else's settlement of the confirmed item as cancelled. */
  const CANCELLATION := Move(0, Cancelled, TransitionContext(ItemState.Confirmed, NO_PATCH, Some(None), 4, 4))

  lemma ItMovesOn(db: Db)
    requires InState(db, PendingConfirmation)
    ensures InState(Apply(db, CONFIRMATION), ItemState.Confirmed)
    ensures InState(Apply(Apply(db, CONFIRMATION), CANCELLATION), Cancelled)
  {
  }

  lemma TwoAttemptsConflict(db: Db, penalty: Money)
    requires InState(db, PendingConfirmation)
    ensures Attempts(db, 0, 7, penalty, [Turn([], [CONFIRMATION], 8, 8), Turn([], [CANCELLATION], 8, 8)])
            == (Apply(Apply(db, CONFIRMATION), CANCELLATION), Retry)
  {
    ItMovesOn(db);
    var db1, db2 := Apply(db, CONFIRMATION), Apply(Apply(db, CONFIRMATION), CANCELLATION);
    OvertakenAttempt(db, CONFIRMATION, PendingConfirmation, ItemState.Confirmed, penalty);
    OvertakenAttempt(db1, CANCELLATION, ItemState.Confirmed, Cancelled, penalty);
    TwoConflicts(db, db1, db2, 0, 7, penalty, Turn([], [CONFIRMATION], 8, 8), Turn([], [CANCELLATION], 8, 8));
  }

  /** The waiting booking can be cancelled: a call for it goes out to the supplier. */
  lemma TheWaitingBookingIsAsked(now: int)
    ensures var db := Run(EMPTY_DB, WAITING_HISTORY);
            LoadScoped(db, "C1", None) == Some(0) && AnsweredWithoutSupplier(db.items[0], now).None?
    ensures InState(Run(EMPTY_DB, WAITING_HISTORY), PendingConfirmation)
  {
    WaitingAfterHistory();
    var rules := WAITING_ROW.policy.rules;
    assert rules[..0] == [];
    assert InForce(rules, now) == if 0 <= now then Some(FEE) else None;
  }

  /** A supplier that cancels, and a loop of two attempts that is overtaken twice. */
  const OVERTAKEN := CancelWorld(7, SaysCancelled, [], [Turn([], [CONFIRMATION], 8, 8), Turn([], [CANCELLATION], 8, 8)], [], 9, [])

  lemma OvertakenSettlement(db: Db, preview: Preview)
    requires InState(db, PendingConfirmation)
    ensures var (db', r) := SettleCancelled(db, 0, preview, OVERTAKEN);
            && r == Failure(LeftForReconciliation) && 0 in db'.items && db'.items[0].state == Cancelled && db'.items[0].escalatedAt.Some?
  {
    TwoAttemptsConflict(db, preview.penalty);
    ItMovesOn(db);
  }

  /**
   Two attempts would not do. In a reachable run the item is confirmed after the first read and
   cancelled by someone else after the second, and a call limited to two attempts gives up, escalating
   an item that is cancelled; by SupplierCancellationConverges three attempts never do that.
   */
  lemma TwoAttemptsDoNotSuffice()
    ensures exists world: CancelWorld ::
              var (db', r, calls) := CancelBooking(Run(EMPTY_DB, WAITING_HISTORY), "C1", None, world);
              && |world.turns| == 2 && world.answer == SaysCancelled
              && calls == 1 && r == Failure(LeftForReconciliation)
              && 0 in db'.items && db'.items[0].state == Cancelled && db'.items[0].escalatedAt.Some?
  {
    var db := Run(EMPTY_DB, WAITING_HISTORY);
    TheWaitingBookingIsAsked(7);
    OvertakenSettlement(db, BuildPreview(db.items[0], 7).value);
    assert |OVERTAKEN.turns| == 2 && CancelBooking(db, "C1", None, OVERTAKEN).2 == 1;
  }

  // ---------------------------------------------------------------------------
  // What a caller of cancelBooking can rely on

  lemma PreviewPenaltyIsValid(item: ItemRow, at: int)
    requires BuildPreview(item, at).Success? && ValidMoney(Money(item.sell, item.currency))
    ensures ValidMoney(BuildPreview(item, at).value.penalty)
  {
    InForceIsTheLatest(item.policy.rules, at);
  }

  /**
   When the supplier reports the booking cancelled, the call ends with the item cancelled, or with the
   item failed and queued for manual reconciliation. It has no other ending.
   */
  lemma SupplierCancellationConverges(db: Db, reference: string, agency: Option<string>, world: CancelWorld)
    requires Inv(db) && |world.turns| == MAX_ATTEMPTS && world.answer == SaysCancelled
    requires CancelBooking(db, reference, agency, world).2 == 1
    ensures var (db', r, _) := CancelBooking(db, reference, agency, world);
            var id := db.bookings[reference].itemId;
            && id in db'.items
            && (r.Success? <==> db'.items[id].state == Cancelled)
            && (r.Failure? <==> db'.items[id].state == Failed)
            && (r.Failure? ==> r.error == LeftForReconciliation && db'.items[id].escalatedAt.Some?)
  {
    var id := db.bookings[reference].itemId;
    var after := Run(db, world.duringCall);
    var preview := BuildPreview(db.items[id], world.now).value;
    assert ItemInv(db, id);
    PreviewPenaltyIsValid(db.items[id], world.now);
    RunFromKeepsInv(db, world.duringCall);
    ItemsOnlyClimb(db, world.duringCall, id);
    ThreeAttemptsSuffice(after, id, world.now, preview.penalty, world.turns);
    EndsLikeItsVerdict(after, id, preview, world);
  }

  lemma EndsLikeItsVerdict(db: Db, id: nat, preview: Preview, world: CancelWorld)
    requires var (settled, verdict) := Attempts(db, id, world.now, preview.penalty, world.turns);
             && id in settled.items && (verdict.Done? || verdict == GiveUp)
             && (verdict.Done? <==> settled.items[id].state == Cancelled) && (verdict == GiveUp <==> settled.items[id].state == Failed)
    ensures var (db', r) := SettleCancelled(db, id, preview, world);
            && id in db'.items
            && (r.Success? <==> db'.items[id].state == Cancelled)
            && (r.Failure? <==> db'.items[id].state == Failed)
            && (r.Failure? ==> r.error == LeftForReconciliation && db'.items[id].escalatedAt.Some?)
  {
    var (settled, verdict) := Attempts(db, id, world.now, preview.penalty, world.turns);
    ItemsOnlyClimb(settled, world.beforeEscalate, id);
  }

  /** The ways an item can be after a successful cancel call: beyond cancelling, or waiting with the request recorded. */
  predicate CancellationIsOn(item: ItemRow) {
    item.state in {Cancelled, Failed} || (item.state in {ItemState.Confirmed, PendingConfirmation} && item.cancellationRequestedAt.Some?)
  }

  lemma RecordingLeavesARequest(db: Db, id: nat, preview: Preview, world: CancelWorld)
    requires Inv(db) && id in db.items && Rank(db.items[id].state) >= 2
    ensures var db' := RecordInProgress(db, id, preview, world).0;
            Inv(db') && id in db'.items && CancellationIsOn(db'.items[id])
  {
    TemplatedStatesOnly(db, id);
    var current := db.items[id];
    if current.state in {ItemState.Confirmed, PendingConfirmation} && current.cancellationRequestedAt.None? {
      var now := Run(db, world.beforeMark);
      RunFromKeepsInv(db, world.beforeMark);
      ItemsOnlyClimb(db, world.beforeMark, id);
      TemplatedStatesOnly(now, id);
      StepKeepsInv(now, RequestCancel(id, world.now));
    }
  }

  /** A cancellation the caller was told is done or pending is never silently dropped. */
  lemma AcceptedCancellationIsRecorded(db: Db, reference: string, agency: Option<string>, world: CancelWorld)
    requires Inv(db) && |world.turns| == MAX_ATTEMPTS
    requires CancelBooking(db, reference, agency, world).1.Success?
    ensures var db' := CancelBooking(db, reference, agency, world).0;
            && Inv(db') && reference in db.bookings && db.bookings[reference].itemId in db'.items
            && CancellationIsOn(db'.items[db.bookings[reference].itemId])
  {
    var id := db.bookings[reference].itemId;
    if AnsweredWithoutSupplier(db.items[id], world.now).None? {
      var after := Run(db, world.duringCall);
      var preview := BuildPreview(db.items[id], world.now).value;
      RunFromKeepsInv(db, world.duringCall);
      ItemsOnlyClimb(db, world.duringCall, id);
      if world.answer == SaysInProgress {
        RecordingLeavesARequest(after, id, preview, world);
      } else {
        assert ItemInv(db, id);
        PreviewPenaltyIsValid(db.items[id], world.now);
        AttemptsClimb(after, id, world.now, preview.penalty, world.turns);
      }
    }
  }

  /** Once one cancel call has succeeded, no later one reaches the supplier, whatever happens in between. */
  lemma SupplierIsAskedToCancelOnce(db: Db, reference: string, agency: Option<string>, world: CancelWorld,
                                    ops: seq<Op>, later: Option<string>, laterWorld: CancelWorld)
    requires Inv(db) && |world.turns| == MAX_ATTEMPTS
    requires CancelBooking(db, reference, agency, world).1.Success?
    ensures CancelBooking(Run(CancelBooking(db, reference, agency, world).0, ops), reference, later, laterWorld).2 == 0
  {
    var db', id := CancelBooking(db, reference, agency, world).0, db.bookings[reference].itemId;
    AcceptedCancellationIsRecorded(db, reference, agency, world);
    ItemsOnlyClimb(db', ops, id);
    RunFromKeepsInv(db', ops);
    TemplatedStatesOnly(Run(db', ops), id);
    BookingsAreKept(db, reference, agency, world);
    BookingsStay(db', ops, reference);
  }

  // ---------------------------------------------------------------------------
  // How often the supplier is asked

  /** One of several calls for a booking, with what others commit before it. */
  datatype CancelCall = CancelCall(before: seq<Op>, agency: Option<string>, world: CancelWorld)

  function AfterCalls(db: Db, reference: string, calls: seq<CancelCall>): Db {
    if calls == [] then db
    else
      var last := calls[|calls| - 1];
      CancelBooking(Run(AfterCalls(db, reference, calls[..|calls| - 1]), last.before), reference, last.agency, last.world).0
  }

  /** The database a call finds. */
  function Found(db: Db, reference: string, calls: seq<CancelCall>): Db
    requires calls != []
  {
    Run(AfterCalls(db, reference, calls[..|calls| - 1]), calls[|calls| - 1].before)
  }

  /** The calls that asked the supplier. */
  function Asked(db: Db, reference: string, calls: seq<CancelCall>): nat {
    if calls == [] then 0
    else
      var last := calls[|calls| - 1];
      Asked(db, reference, calls[..|calls| - 1]) + CancelBooking(Found(db, reference, calls), reference, last.agency, last.world).2
  }

  /** Those of them whose supplier call failed. */
  function AskedInVain(db: Db, reference: string, calls: seq<CancelCall>): nat {
    if calls == [] then 0
    else
      var last := calls[|calls| - 1];
      var (_, r, asked) := CancelBooking(Found(db, reference, calls), reference, last.agency, last.world);
      AskedInVain(db, reference, calls[..|calls| - 1]) + if r == Failure(SupplierCallFailed) then asked else 0
  }

  /** The booking is past cancelling, or waits with the request recorded. */
  predicate BookingSettled(db: Db, reference: string) {
    && reference in db.bookings && db.bookings[reference].itemId in db.items
    && CancellationIsOn(db.items[db.bookings[reference].itemId])
  }

  lemma SettledStays(db: Db, reference: string, ops: seq<Op>)
    requires Inv(db) && BookingSettled(db, reference)
    ensures Inv(Run(db, ops)) && BookingSettled(Run(db, ops), reference)
  {
    var id := db.bookings[reference].itemId;
    RunFromKeepsInv(db, ops);
    BookingsStay(db, ops, reference);
    ItemsOnlyClimb(db, ops, id);
    TemplatedStatesOnly(Run(db, ops), id);
  }

  lemma SettledIsNotAsked(db: Db, reference: string, agency: Option<string>, world: CancelWorld)
    requires BookingSettled(db, reference)
    ensures CancelBooking(db, reference, agency, world).2 == 0
  {
  }

  /** A call that asked the supplier leaves the booking settled unless the supplier call failed. */
  lemma AskingSettles(db: Db, reference: string, agency: Option<string>, world: CancelWorld)
    requires Inv(db) && |world.turns| == MAX_ATTEMPTS && CancelBooking(db, reference, agency, world).2 == 1
    requires CancelBooking(db, reference, agency, world).1 != Failure(SupplierCallFailed)
    ensures BookingSettled(CancelBooking(db, reference, agency, world).0, reference)
  {
    BookingsAreKept(db, reference, agency, world);
    if CancelBooking(db, reference, agency, world).1.Success? {
      AcceptedCancellationIsRecorded(db, reference, agency, world);
    } else if world.answer == SaysCancelled {
      SupplierCancellationConverges(db, reference, agency, world);
    } else {
      BookingsStay(db, world.duringCall, reference);
      ItemsOnlyClimb(db, world.duringCall, db.bookings[reference].itemId);
      assert false;
    }
  }

  /**
   Calls that follow one another, with any commits in between, ask the supplier once: at most one more
   time than its call failed.
   */
  lemma {:induction false} SerialCallsAskOnce(db: Db, reference: string, calls: seq<CancelCall>)
    requires Inv(db) && forall i :: 0 <= i < |calls| ==> |calls[i].world.turns| == MAX_ATTEMPTS
    ensures Inv(AfterCalls(db, reference, calls))
    ensures var asked, inVain := Asked(db, reference, calls), AskedInVain(db, reference, calls);
            asked == inVain || (asked == inVain + 1 && BookingSettled(AfterCalls(db, reference, calls), reference))
  {
    if calls != [] {
      var init, last := calls[..|calls| - 1], calls[|calls| - 1];
      SerialCallsAskOnce(db, reference, init);
      var mid, found := AfterCalls(db, reference, init), Found(db, reference, calls);
      RunFromKeepsInv(mid, last.before);
      var ops := CancelIsARun(found, reference, last.agency, last.world);
      RunFromKeepsInv(found, ops);
      if BookingSettled(mid, reference) {
        SettledStays(mid, reference, last.before);
        SettledIsNotAsked(found, reference, last.agency, last.world);
        SettledStays(found, reference, ops);
      } else if CancelBooking(found, reference, last.agency, last.world).2 == 1
                && CancelBooking(found, reference, last.agency, last.world).1 != Failure(SupplierCallFailed) {
        AskingSettles(found, reference, last.agency, last.world);
      }
    }
  }

  /**
   A call that reads the booking while another is out asks the supplier too, exactly if nothing that
   ends or requests the cancellation has been committed by then and it can be priced.
   */
  lemma SecondCallAsksIff(db: Db, reference: string, agency: Option<string>, world: CancelWorld, ops: seq<Op>,
                          second: Option<string>, secondWorld: CancelWorld)
    requires CancelBooking(db, reference, agency, world).2 == 1
    ensures reference in Run(db, ops).bookings && Run(db, ops).bookings[reference].itemId in Run(db, ops).items
    ensures var found := Run(db, ops);
            var item := found.items[found.bookings[reference].itemId];
            CancelBooking(found, reference, second, secondWorld).2 == 1
            <==> && second == agency && item.state in {ItemState.Confirmed, PendingConfirmation}
                 && item.cancellationRequestedAt.None? && BuildPreview(item, secondWorld.now).Success?
  {
    BookingsStay(db, ops, reference);
    ItemsOnlyClimb(db, ops, db.bookings[reference].itemId);
  }

  /** Each call ran while the next one was out. */
  ghost predicate Overlapping(db: Db, reference: string, agency: Option<string>, worlds: seq<CancelWorld>) {
    forall i :: 0 < i < |worlds| ==>
      Run(db, worlds[i].duringCall) == CancelBooking(db, reference, agency, worlds[i - 1]).0
  }

  ghost predicate AllAskAndSucceed(db: Db, reference: string, agency: Option<string>, worlds: seq<CancelWorld>) {
    forall i :: 0 <= i < |worlds| ==>
      CancelBooking(db, reference, agency, worlds[i]).2 == 1 && CancelBooking(db, reference, agency, worlds[i]).1.Success?
  }

  lemma PendingAnswerSucceeds(db: Db, reference: string, agency: Option<string>, ops: seq<Op>, now: int)
    requires LoadScoped(db, reference, agency).Some? && AnsweredWithoutSupplier(db.items[LoadScoped(db, reference, agency).value], now).None?
    ensures var (_, r, calls) := CancelBooking(db, reference, agency, CancelWorld(now, SaysInProgress, ops, [], [], 0, []));
            r.Success? && calls == 1
  {
    BookingsStay(db, ops, reference);
    ItemsOnlyClimb(db, ops, db.bookings[reference].itemId);
  }

  lemma OneMoreOverlaps(db: Db, reference: string, agency: Option<string>, worlds: seq<CancelWorld>, world: CancelWorld)
    requires Overlapping(db, reference, agency, worlds) && AllAskAndSucceed(db, reference, agency, worlds)
    requires worlds != [] ==> Run(db, world.duringCall) == CancelBooking(db, reference, agency, worlds[|worlds| - 1]).0
    requires CancelBooking(db, reference, agency, world).2 == 1 && CancelBooking(db, reference, agency, world).1.Success?
    ensures Overlapping(db, reference, agency, worlds + [world]) && AllAskAndSucceed(db, reference, agency, worlds + [world])
  {
  }

  /** Overlapping calls have no bound: each of any number of them asks the supplier and is answered. */
  lemma {:induction false} OverlappingCallsAllAsk(db: Db, reference: string, agency: Option<string>, now: int, n: nat) returns (worlds: seq<CancelWorld>)
    requires LoadScoped(db, reference, agency).Some? && AnsweredWithoutSupplier(db.items[LoadScoped(db, reference, agency).value], now).None?
    ensures |worlds| == n && Overlapping(db, reference, agency, worlds) && AllAskAndSucceed(db, reference, agency, worlds)
  {
    if n == 0 {
      worlds := [];
    } else {
      var init := OverlappingCallsAllAsk(db, reference, agency, now, n - 1);
      var ops := [];
      if init != [] {
        ops := CancelIsARun(db, reference, agency, init[|init| - 1]);
      }
      var world := CancelWorld(now, SaysInProgress, ops, [], [], 0, []);
      PendingAnswerSucceeds(db, reference, agency, ops, now);
      OneMoreOverlaps(db, reference, agency, init, world);
      worlds := init + [world];
    }
  }

  /** And it is reachable. */
  lemma ReachableCallsAllAsk(n: nat)
    ensures exists worlds: seq<CancelWorld> ::
              && |worlds| == n && Overlapping(Run(EMPTY_DB, WAITING_HISTORY), "C1", None, worlds)
              && AllAskAndSucceed(Run(EMPTY_DB, WAITING_HISTORY), "C1", None, worlds)
  {
    TheWaitingBookingIsAsked(7);
    var worlds := OverlappingCallsAllAsk(Run(EMPTY_DB, WAITING_HISTORY), "C1", None, 7, n);
    assert |worlds| == n;
  }

  /** A call changes nothing for an item whose policy it cannot price. */
  lemma CallsPriceFirst(db: Db, reference: string, agency: Option<string>, world: CancelWorld)
    requires CancelBooking(db, reference, agency, world).0 != db || CancelBooking(db, reference, agency, world).2 > 0
    ensures reference in db.bookings && db.bookings[reference].itemId in db.items
    ensures ValidPolicy(db.items[db.bookings[reference].itemId].policy)
  {
  }

  lemma {:induction false} BookingsStay(db: Db, ops: seq<Op>, reference: string)
    requires reference in db.bookings
    ensures reference in Run(db, ops).bookings && Run(db, ops).bookings[reference] == db.bookings[reference]
  {
    if ops != [] {
      BookingsStay(db, ops[..|ops| - 1], reference);
    }
  }

  lemma BookingsAreKept(db: Db, reference: string, agency: Option<string>, world: CancelWorld)
    requires reference in db.bookings
    ensures var db' := CancelBooking(db, reference, agency, world).0;
            reference in db'.bookings && db'.bookings[reference] == db.bookings[reference]
  {
    var ops := CancelIsARun(db, reference, agency, world);
    BookingsStay(db, ops, reference);
  }
}
