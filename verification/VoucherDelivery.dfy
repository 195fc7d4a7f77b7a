/**
 The voucher delivery consumer (packages/documents/src/delivery.ts): one delivery row per confirmed
 event, retried with exponential backoff, and escalation of the booking item when delivery fails for good.
 */
module VoucherDelivery {
  import opened BookingStates
  import opened ItemRuns
  import opened Numbers
  import opened TransitionRunner
  import opened Wrappers

  datatype DeliveryState = Pending | Sent | Undelivered

  datatype Delivery = Delivery(itemId: nat, recipient: string, state: DeliveryState, attempts: nat, nextAttemptAt: Option<int>)

  /** document_delivery, keyed by its unique event id. */
  type Deliveries = map<nat, Delivery>

  datatype Options = Options(maxAttempts: int, backoffBaseMs: int, batchSize: nat)

  const DEFAULT_OPTIONS := Options(5, 60000, 50)

  /** The row a claim inserts: undeliverable from birth without a recipient. */
  function NewRow(itemId: nat, recipient: string, now: int): Delivery {
    if recipient == "" then Delivery(itemId, "", Undelivered, 0, None) else Delivery(itemId, recipient, Pending, 0, Some(now))
  }

  /** insert ... on conflict do nothing; true when this claim inserted. */
  function ClaimEvent(deliveries: Deliveries, eventId: nat, itemId: nat, recipient: string, now: int): (Deliveries, bool) {
    if eventId in deliveries then (deliveries, false) else (deliveries[eventId := NewRow(itemId, recipient, now)], true)
  }

  /** The guarded settlement of one attempt, from the attempts count the sweep read. */
  function SettledRow(options: Options, row: Delivery, attemptsRead: nat, delivered: bool, now: int): Delivery {
    if row.state != Pending then row
    else if delivered then row.(state := Sent)
    else if attemptsRead + 1 >= options.maxAttempts then row.(state := Undelivered, attempts := attemptsRead + 1, nextAttemptAt := None)
    else row.(attempts := attemptsRead + 1, nextAttemptAt := Some(now + options.backoffBaseMs * PowerOfTwo(attemptsRead)))
  }

  function Settle(options: Options, deliveries: Deliveries, eventId: nat, attemptsRead: nat, delivered: bool, now: int): Deliveries {
    if eventId in deliveries then deliveries[eventId := SettledRow(options, deliveries[eventId], attemptsRead, delivered, now)] else deliveries
  }

  predicate Terminal(options: Options, attemptsRead: nat, delivered: bool) {
    !delivered && attemptsRead + 1 >= options.maxAttempts
  }

  // ---------------------------------------------------------------------------
  // One sweep

  datatype Unclaimed = Unclaimed(eventId: nat, itemId: nat, recipient: string, escalateAt: int)

  /** A due row as the sweep read it, whether sending it worked, and the instants of its settlement. */
  datatype DueRow = DueRow(eventId: nat, itemId: nat, attempts: nat, delivered: bool, settledAt: int, escalateAt: int)

  datatype Sweep = Sweep(deliveries: Deliveries, db: Db)

  predicate ConfirmedEvent(db: Db, eventId: nat) {
    eventId < |db.outbox| && db.outbox[eventId].change.Moved? && db.outbox[eventId].change.to == Confirmed
  }

  /** What the claiming query selects: confirmed events no delivery row names. */
  predicate IsUnclaimed(s: Sweep, eventId: nat) {
    ConfirmedEvent(s.db, eventId) && eventId !in s.deliveries
  }

  function UnclaimedEvents(s: Sweep): set<nat> {
    set id: nat | id < |s.db.outbox| && IsUnclaimed(s, id)
  }

  /** A possible result of the claiming query: oldest first, at most `limit`, none older left out. */
  ghost predicate IsUnclaimedBatch(s: Sweep, limit: nat, batch: seq<Unclaimed>) {
    && (forall i :: 0 <= i < |batch| ==>
          IsUnclaimed(s, batch[i].eventId) && batch[i].itemId == s.db.outbox[batch[i].eventId].itemId)
    && (forall i, j :: 0 <= i < j < |batch| ==>
          && batch[i].eventId != batch[j].eventId
          && s.db.outbox[batch[i].eventId].occurredAt <= s.db.outbox[batch[j].eventId].occurredAt)
    && |batch| == (if limit < |UnclaimedEvents(s)| then limit else |UnclaimedEvents(s)|)
    && (forall id: nat, i :: IsUnclaimed(s, id) && 0 <= i < |batch| && (forall j :: 0 <= j < |batch| ==> batch[j].eventId != id) ==>
          s.db.outbox[batch[i].eventId].occurredAt <= s.db.outbox[id].occurredAt)
  }

  /** What the processing query selects: pending rows whose instant has come. */
  predicate IsDue(row: Delivery, now: int) {
    row.state == Pending && row.nextAttemptAt.Some? && row.nextAttemptAt.value <= now
  }

  function DueEvents(deliveries: Deliveries, now: int): set<nat> {
    set id | id in deliveries && IsDue(deliveries[id], now)
  }

  /** The query's columns are those of the row. */
  predicate ReadFrom(deliveries: Deliveries, now: int, d: DueRow) {
    && d.eventId in deliveries && IsDue(deliveries[d.eventId], now)
    && d.itemId == deliveries[d.eventId].itemId && d.attempts == deliveries[d.eventId].attempts
  }

  /** A possible result of the processing query: earliest due first, at most `limit`, none due earlier left out. */
  ghost predicate IsDueBatch(deliveries: Deliveries, now: int, limit: nat, batch: seq<DueRow>) {
    && (forall i :: 0 <= i < |batch| ==> ReadFrom(deliveries, now, batch[i]))
    && (forall i, j :: 0 <= i < j < |batch| ==>
          && batch[i].eventId != batch[j].eventId
          && deliveries[batch[i].eventId].nextAttemptAt.value <= deliveries[batch[j].eventId].nextAttemptAt.value)
    && |batch| == (if limit < |DueEvents(deliveries, now)| then limit else |DueEvents(deliveries, now)|)
    && (forall id, i :: id in deliveries && IsDue(deliveries[id], now) && 0 <= i < |batch|
                        && (forall j :: 0 <= j < |batch| ==> batch[j].eventId != id) ==>
          deliveries[batch[i].eventId].nextAttemptAt.value <= deliveries[id].nextAttemptAt.value)
  }

  datatype Counts = Counts(sent: nat, retried: nat, failed: nat)

  function ClaimAll(s: Sweep, unclaimed: seq<Unclaimed>, now: int): (Sweep, nat) {
    if unclaimed == [] then (s, 0)
    else
      var (init, claimed) := ClaimAll(s, unclaimed[..|unclaimed| - 1], now);
      var u := unclaimed[|unclaimed| - 1];
      var (deliveries, inserted) := ClaimEvent(init.deliveries, u.eventId, u.itemId, u.recipient, now);
      if !inserted then (init, claimed)
      else if u.recipient == "" then (Sweep(deliveries, Escalate(init.db, u.itemId, u.escalateAt).0), claimed)
      else (init.(deliveries := deliveries), claimed + 1)
  }

  function ProcessAll(options: Options, s: Sweep, due: seq<DueRow>): (Sweep, Counts) {
    if due == [] then (s, Counts(0, 0, 0))
    else
      var (init, counts) := ProcessAll(options, s, due[..|due| - 1]);
      var d := due[|due| - 1];
      var deliveries := Settle(options, init.deliveries, d.eventId, d.attempts, d.delivered, d.settledAt);
      if d.delivered then (init.(deliveries := deliveries), counts.(sent := counts.sent + 1))
      else if Terminal(options, d.attempts, d.delivered)
      then (Sweep(deliveries, Escalate(init.db, d.itemId, d.escalateAt).0), counts.(failed := counts.failed + 1))
      else (init.(deliveries := deliveries), counts.(retried := counts.retried + 1))
  }

  class VoucherDeliveryConsumer {
    const runner: BookingTransitionRunner
    const options: Options
    var deliveries: Deliveries

    constructor (runner: BookingTransitionRunner, options: Options)
      ensures this.runner == runner && this.options == options && deliveries == map[]
    {
      this.runner, this.options, deliveries := runner, options, map[];
    }

    function Contents(): Sweep
      reads this, runner.db
    {
      Sweep(deliveries, runner.db.Contents())
    }

    /** One sweep: claim what its first query returned, then process what its second returned. */
    method SweepTenant(unclaimed: seq<Unclaimed>, claimedAt: int, due: seq<DueRow>, now: int) returns (claimed: nat, counts: Counts)
      requires IsUnclaimedBatch(Contents(), options.batchSize, unclaimed)
      requires IsDueBatch(ClaimAll(Contents(), unclaimed, claimedAt).0.deliveries, now, options.batchSize, due)
      modifies this, runner.db
      ensures claimed == ClaimAll(old(Contents()), unclaimed, claimedAt).1
      ensures (Contents(), counts) == ProcessAll(options, ClaimAll(old(Contents()), unclaimed, claimedAt).0, due)
    {
      claimed := ClaimNewEvents(unclaimed, claimedAt);
      counts := ProcessDue(due, now);
    }

    /** `unclaimed` is what the claiming query returned. */
    method ClaimNewEvents(unclaimed: seq<Unclaimed>, now: int) returns (claimed: nat)
      requires IsUnclaimedBatch(Contents(), options.batchSize, unclaimed)
      modifies this, runner.db
      ensures (Contents(), claimed) == ClaimAll(old(Contents()), unclaimed, now)
    {
      claimed := ClaimEach(unclaimed, now);
    }

    method ClaimEach(unclaimed: seq<Unclaimed>, now: int) returns (claimed: nat)
      modifies this, runner.db
      ensures (Contents(), claimed) == ClaimAll(old(Contents()), unclaimed, now)
    {
      claimed := 0;
      ghost var start := Contents();
      var i := 0;
      while i < |unclaimed|
        invariant 0 <= i <= |unclaimed|
        invariant (Contents(), claimed) == ClaimAll(start, unclaimed[..i], now)
      {
        assert unclaimed[..i + 1][..i] == unclaimed[..i];
        var event := unclaimed[i];
        if event.eventId !in deliveries {
          if event.recipient == "" {
            deliveries := deliveries[event.eventId := Delivery(event.itemId, "", Undelivered, 0, None)];
            var _ := runner.EscalateItem(event.itemId, event.escalateAt);
          } else {
            deliveries := deliveries[event.eventId := Delivery(event.itemId, event.recipient, Pending, 0, Some(now))];
            claimed := claimed + 1;
          }
        }
        i := i + 1;
      }
      assert unclaimed[..i] == unclaimed;
    }

    method SettleAttempt(row: DueRow)
      modifies this`deliveries
      ensures deliveries == Settle(options, old(deliveries), row.eventId, row.attempts, row.delivered, row.settledAt)
    {
      if row.eventId in deliveries && deliveries[row.eventId].state == Pending {
        var stored := deliveries[row.eventId];
        var attempts := row.attempts + 1;
        if row.delivered {
          stored := stored.(state := Sent);
        } else if attempts >= options.maxAttempts {
          stored := stored.(state := Undelivered, attempts := attempts, nextAttemptAt := None);
        } else {
          stored := stored.(attempts := attempts, nextAttemptAt := Some(row.settledAt + options.backoffBaseMs * PowerOfTwo(attempts - 1)));
        }
        deliveries := deliveries[row.eventId := stored];
      } else if row.eventId in deliveries {
        assert deliveries[row.eventId := deliveries[row.eventId]] == deliveries;
      }
    }

    /** `due` is what the processing query returned at `now`, with how each attempt went. */
    method ProcessDue(due: seq<DueRow>, now: int) returns (counts: Counts)
      requires IsDueBatch(deliveries, now, options.batchSize, due)
      modifies this, runner.db
      ensures (Contents(), counts) == ProcessAll(options, old(Contents()), due)
    {
      counts := ProcessEach(due);
    }

    method ProcessEach(due: seq<DueRow>) returns (counts: Counts)
      modifies this, runner.db
      ensures (Contents(), counts) == ProcessAll(options, old(Contents()), due)
    {
      counts := Counts(0, 0, 0);
      ghost var start := Contents();
      var i := 0;
      while i < |due|
        invariant 0 <= i <= |due|
        invariant (Contents(), counts) == ProcessAll(options, start, due[..i])
      {
        assert due[..i + 1][..i] == due[..i];
        var row := due[i];
        SettleAttempt(row);
        if row.delivered {
          counts := counts.(sent := counts.sent + 1);
        } else if row.attempts + 1 >= options.maxAttempts {
          var _ := runner.EscalateItem(row.itemId, row.escalateAt);
          counts := counts.(failed := counts.failed + 1);
        } else {
          counts := counts.(retried := counts.retried + 1);
        }
        i := i + 1;
      }
      assert due[..i] == due;
    }
  }

  // ---------------------------------------------------------------------------
  // One row processed serially

  datatype Processing = Processing(delivered: bool, settledAt: int)

  /** Each processing reads the attempts the one before it wrote; settled rows are not processed again. */
  function Serial(options: Options, row: Delivery, processings: seq<Processing>): Delivery {
    if processings == [] then row
    else
      var before := Serial(options, row, processings[..|processings| - 1]);
      var last := processings[|processings| - 1];
      SettledRow(options, before, before.attempts, last.delivered, last.settledAt)
  }

  /** The delays these processings scheduled, one for each retry. */
  function ScheduledDelay(options: Options, row: Delivery, processings: seq<Processing>): int {
    if processings == [] then 0
    else
      var init, last := processings[..|processings| - 1], processings[|processings| - 1];
      var after := Serial(options, row, processings);
      ScheduledDelay(options, row, init)
      + if Serial(options, row, init).state == Pending && after.state == Pending && after.nextAttemptAt.Some?
        then after.nextAttemptAt.value - last.settledAt else 0
  }

  ghost predicate AllFailed(processings: seq<Processing>) {
    forall i :: 0 <= i < |processings| ==> !processings[i].delivered
  }

  /**
   A row is still pending exactly while all of fewer than maxAttempts processings failed, so it is
   settled by the maxAttempts-th at the latest; until then attempts counts the failures.
   */
  lemma {:induction false} SettlesWithinMaxAttempts(options: Options, row: Delivery, processings: seq<Processing>)
    requires row.state == Pending && row.attempts == 0 && options.maxAttempts >= 1
    ensures var after := Serial(options, row, processings);
            && (after.state == Pending <==> |processings| < options.maxAttempts && AllFailed(processings))
            && (after.state == Pending ==> after.attempts == |processings|)
            && (after.state == Undelivered ==> after.attempts == options.maxAttempts)
            && (|processings| >= options.maxAttempts ==> after.state != Pending)
  {
    if processings != [] {
      var init, last := processings[..|processings| - 1], processings[|processings| - 1];
      SettlesWithinMaxAttempts(options, row, init);
      assert AllFailed(processings) <==> AllFailed(init) && !last.delivered by {
        if AllFailed(init) && !last.delivered {
          forall i | 0 <= i < |processings| ensures !processings[i].delivered {
            if i < |init| {
              assert processings[i] == init[i];
            }
          }
        }
      }
    }
  }

  /** The delay scheduled in all is base * (2^retries - 1), the retries being fewer than maxAttempts. */
  lemma {:induction false} BackoffIsBounded(options: Options, row: Delivery, processings: seq<Processing>) returns (retries: nat)
    requires row.state == Pending && row.attempts == 0 && options.maxAttempts >= 1
    ensures retries < options.maxAttempts && retries <= |processings|
    ensures ScheduledDelay(options, row, processings) == options.backoffBaseMs * (PowerOfTwo(retries) - 1)
    ensures Serial(options, row, processings).state == Pending ==> retries == |processings|
  {
    if processings == [] {
      retries := 0;
      assert options.backoffBaseMs * (PowerOfTwo(0) - 1) == 0;
    } else {
      var init := processings[..|processings| - 1];
      retries := BackoffIsBounded(options, row, init);
      SettlesWithinMaxAttempts(options, row, init);
      SettlesWithinMaxAttempts(options, row, processings);
      if Serial(options, row, processings).state == Pending {
        Doubling(options.backoffBaseMs, PowerOfTwo(retries));
        retries := retries + 1;
      }
    }
  }

  lemma Doubling(base: int, p: int)
    ensures base * (p - 1) + base * p == base * (2 * p - 1)
  {
  }

  lemma {:induction false} PowersGrow(a: nat, b: nat)
    requires a <= b
    ensures PowerOfTwo(a) <= PowerOfTwo(b)
  {
    if a < b {
      PowersGrow(a, b - 1);
    }
  }

  /** Hence at most base * (2^(maxAttempts - 1) - 1) in all. */
  lemma TotalDelayBound(options: Options, row: Delivery, processings: seq<Processing>)
    requires row.state == Pending && row.attempts == 0 && options.maxAttempts >= 1 && options.backoffBaseMs >= 0
    ensures ScheduledDelay(options, row, processings) <= options.backoffBaseMs * (PowerOfTwo(options.maxAttempts - 1) - 1)
  {
    var retries := BackoffIsBounded(options, row, processings);
    PowersGrow(retries, options.maxAttempts - 1);
    ScaledOrder(options.backoffBaseMs, PowerOfTwo(retries) - 1, PowerOfTwo(options.maxAttempts - 1) - 1);
  }

  lemma ScaledOrder(k: int, a: int, b: int)
    requires k >= 0 && a <= b
    ensures k * a <= k * b
  {
  }

  // ---------------------------------------------------------------------------
  // Racing sweeps

  /** What a worker is in the middle of: an attempt on a row it read, or an escalation it still owes. */
  datatype Duty = Trying(eventId: nat, itemId: nat, attemptsRead: nat) | Owing(itemId: nat)

  /** The database is the outcome of `ops`; crashed records whether any worker ever crashed. */
  datatype Racing = Racing(ops: seq<Op>, deliveries: Deliveries, workers: map<nat, Duty>, crashed: bool)

  datatype RaceStep =
    | Others(op: Op)
    | Claim(worker: nat, eventId: nat, recipient: string, now: int)
    | ReadDue(worker: nat, eventId: nat, now: int)
    | SettleRead(worker: nat, delivered: bool, now: int)
    | PayEscalation(worker: nat, now: int)
    | CrashWorker(worker: nat)

  function Now(s: Racing): Db {
    Run(EMPTY_DB, s.ops)
  }

  function DoClaim(s: Racing, worker: nat, eventId: nat, recipient: string, now: int): Racing {
    if worker in s.workers || !ConfirmedEvent(Now(s), eventId) then s
    else
      var itemId := Now(s).outbox[eventId].itemId;
      var (deliveries, inserted) := ClaimEvent(s.deliveries, eventId, itemId, recipient, now);
      s.(deliveries := deliveries, workers := if inserted && recipient == "" then s.workers[worker := Owing(itemId)] else s.workers)
  }

  function DoReadDue(s: Racing, worker: nat, eventId: nat, now: int): Racing {
    if worker in s.workers || eventId !in s.deliveries || !IsDue(s.deliveries[eventId], now) then s
    else s.(workers := s.workers[worker := Trying(eventId, s.deliveries[eventId].itemId, s.deliveries[eventId].attempts)])
  }

  function DoSettle(options: Options, s: Racing, worker: nat, delivered: bool, now: int): Racing {
    if worker !in s.workers || !s.workers[worker].Trying? then s
    else
      var duty := s.workers[worker];
      s.(deliveries := Settle(options, s.deliveries, duty.eventId, duty.attemptsRead, delivered, now),
         workers := if Terminal(options, duty.attemptsRead, delivered) then s.workers[worker := Owing(duty.itemId)] else s.workers - {worker})
  }

  function DoPay(s: Racing, worker: nat, now: int): Racing {
    if worker !in s.workers || !s.workers[worker].Owing? then s
    else s.(ops := s.ops + [EscalateItem(s.workers[worker].itemId, now)], workers := s.workers - {worker})
  }

  function RaceNext(options: Options, s: Racing, step: RaceStep): Racing {
    match step
    case Others(op) => s.(ops := s.ops + [op])
    case Claim(worker, eventId, recipient, now) => DoClaim(s, worker, eventId, recipient, now)
    case ReadDue(worker, eventId, now) => DoReadDue(s, worker, eventId, now)
    case SettleRead(worker, delivered, now) => DoSettle(options, s, worker, delivered, now)
    case PayEscalation(worker, now) => DoPay(s, worker, now)
    case CrashWorker(worker) => if worker in s.workers then s.(workers := s.workers - {worker}, crashed := true) else s
  }

  function RaceFrom(options: Options, s: Racing, steps: seq<RaceStep>): Racing {
    if steps == [] then s else RaceNext(options, RaceFrom(options, s, steps[..|steps| - 1]), steps[|steps| - 1])
  }

  function Race(options: Options, steps: seq<RaceStep>): Racing {
    RaceFrom(options, Racing([], map[], map[], false), steps)
  }

  lemma RaceOneMore(options: Options, s: Racing, steps: seq<RaceStep>, step: RaceStep)
    ensures RaceFrom(options, s, steps + [step]) == RaceNext(options, RaceFrom(options, s, steps), step)
  {
    assert (steps + [step])[..|steps + [step]| - 1] == steps;
  }

  lemma {:induction false} RacesCompose(options: Options, s: Racing, a: seq<RaceStep>, b: seq<RaceStep>)
    ensures RaceFrom(options, s, a + b) == RaceFrom(options, RaceFrom(options, s, a), b)
  {
    if b == [] {
      assert a + b == a;
    } else {
      var init, last := b[..|b| - 1], b[|b| - 1];
      assert a + b == a + init + [last];
      RacesCompose(options, s, a, init);
      RaceOneMore(options, s, a + init, last);
    }
  }

  predicate EscalatedItem(db: Db, itemId: nat) {
    itemId in db.items && db.items[itemId].escalatedAt.Some?
  }

  predicate Owed(s: Racing, itemId: nat) {
    exists worker :: worker in s.workers && s.workers[worker] == Owing(itemId)
  }

  predicate RowOk(options: Options, s: Racing, eventId: nat)
    requires eventId in s.deliveries
  {
    var row := s.deliveries[eventId];
    && ConfirmedEvent(Now(s), eventId) && Now(s).outbox[eventId].itemId == row.itemId && row.itemId in Now(s).items
    && (row.state == Pending ==> row.attempts < options.maxAttempts && row.nextAttemptAt.Some?)
    && (row.state == Undelivered && !s.crashed ==> EscalatedItem(Now(s), row.itemId) || Owed(s, row.itemId))
  }

  predicate DutyOk(s: Racing, duty: Duty) {
    match duty
    case Trying(eventId, itemId, _) => eventId in s.deliveries && s.deliveries[eventId].itemId == itemId
    case Owing(itemId) => itemId in Now(s).items
  }

  ghost predicate RaceInv(options: Options, s: Racing) {
    && (forall eventId :: eventId in s.deliveries ==> RowOk(options, s, eventId))
    && (forall worker :: worker in s.workers ==> DutyOk(s, s.workers[worker]))
  }

  /** A committed operation keeps events, items and escalations. */
  lemma CommitsKeep(db: Db, op: Op)
    ensures forall id: nat :: ConfirmedEvent(db, id) ==> ConfirmedEvent(Apply(db, op), id) && Apply(db, op).outbox[id].itemId == db.outbox[id].itemId
    ensures forall id :: id in db.items ==> id in Apply(db, op).items
    ensures forall id: nat :: EscalatedItem(db, id) ==> EscalatedItem(Apply(db, op), id)
  {
  }

  lemma CommitKeepsRows(options: Options, s: Racing, op: Op, eventId: nat)
    requires eventId in s.deliveries && RowOk(options, s, eventId)
    ensures RowOk(options, s.(ops := s.ops + [op]), eventId)
  {
    RunAppend(EMPTY_DB, s.ops, op);
    CommitsKeep(Now(s), op);
    var s' := s.(ops := s.ops + [op]);
    if Owed(s, s.deliveries[eventId].itemId) {
      var worker :| worker in s.workers && s.workers[worker] == Owing(s.deliveries[eventId].itemId);
      assert worker in s'.workers && s'.workers[worker] == Owing(s.deliveries[eventId].itemId);
    }
  }

  lemma CommitKeeps(options: Options, s: Racing, op: Op)
    requires RaceInv(options, s)
    ensures RaceInv(options, s.(ops := s.ops + [op]))
  {
    var s' := s.(ops := s.ops + [op]);
    RunAppend(EMPTY_DB, s.ops, op);
    CommitsKeep(Now(s), op);
    forall eventId | eventId in s'.deliveries ensures RowOk(options, s', eventId) {
      CommitKeepsRows(options, s, op, eventId);
    }
  }

  /** The items of the outbox exist. */
  lemma EventsHaveItems(ops: seq<Op>, eventId: nat)
    requires ConfirmedEvent(Run(EMPTY_DB, ops), eventId)
    ensures Run(EMPTY_DB, ops).outbox[eventId].itemId in Run(EMPTY_DB, ops).items
  {
    var db := Run(EMPTY_DB, ops);
    var id := db.outbox[eventId].itemId;
    RunKeepsInv(ops);
    assert ItemInv(db, id);
    if id !in db.items {
      var i := EntryIsOnThePath(db.outbox, id, Confirmed, eventId);
    }
  }

  /** While only a worker's own duty and one row change, debts owed by others stay owed. */
  lemma DebtsStay(s: Racing, s': Racing, worker: nat, itemId: nat)
    requires Owed(s, itemId) && (worker in s.workers ==> s.workers[worker] != Owing(itemId))
    requires forall w :: w in s.workers && w != worker ==> w in s'.workers && s'.workers[w] == s.workers[w]
    ensures Owed(s', itemId)
  {
    var w :| w in s.workers && s.workers[w] == Owing(itemId);
    assert w in s'.workers && s'.workers[w] == Owing(itemId);
  }

  lemma ClaimKeeps(options: Options, s: Racing, worker: nat, eventId: nat, recipient: string, now: int)
    requires RaceInv(options, s) && options.maxAttempts >= 1
    ensures RaceInv(options, DoClaim(s, worker, eventId, recipient, now))
  {
    var s' := DoClaim(s, worker, eventId, recipient, now);
    if s' != s {
      EventsHaveItems(s.ops, eventId);
      forall e | e in s'.deliveries ensures RowOk(options, s', e) {
        if e in s.deliveries {
          assert RowOk(options, s, e);
          if Owed(s, s.deliveries[e].itemId) {
            DebtsStay(s, s', worker, s.deliveries[e].itemId);
          }
        } else if recipient == "" {
          assert worker in s'.workers && s'.workers[worker] == Owing(s'.deliveries[e].itemId);
        }
      }
    }
  }

  lemma SettleKeeps(options: Options, s: Racing, worker: nat, delivered: bool, now: int)
    requires RaceInv(options, s)
    ensures RaceInv(options, DoSettle(options, s, worker, delivered, now))
  {
    var s' := DoSettle(options, s, worker, delivered, now);
    if worker in s.workers && s.workers[worker].Trying? {
      var duty := s.workers[worker];
      assert DutyOk(s, duty);
      forall e | e in s'.deliveries ensures RowOk(options, s', e) {
        assert RowOk(options, s, e);
        if Owed(s, s.deliveries[e].itemId) {
          DebtsStay(s, s', worker, s.deliveries[e].itemId);
        }
        if e == duty.eventId && Terminal(options, duty.attemptsRead, delivered) {
          assert worker in s'.workers && s'.workers[worker] == Owing(s'.deliveries[e].itemId);
        }
      }
      forall w | w in s'.workers ensures DutyOk(s', s'.workers[w]) {
        if w != worker {
          assert DutyOk(s, s.workers[w]);
        } else {
          assert RowOk(options, s, duty.eventId);
        }
      }
    }
  }

  lemma PayKeeps(options: Options, s: Racing, worker: nat, now: int)
    requires RaceInv(options, s)
    ensures RaceInv(options, DoPay(s, worker, now))
  {
    if worker in s.workers && s.workers[worker].Owing? {
      var itemId := s.workers[worker].itemId;
      var paid := s.(ops := s.ops + [EscalateItem(itemId, now)]);
      CommitKeeps(options, s, EscalateItem(itemId, now));
      RunAppend(EMPTY_DB, s.ops, EscalateItem(itemId, now));
      assert DutyOk(s, s.workers[worker]);
      assert EscalatedItem(Now(paid), itemId);
      var s' := DoPay(s, worker, now);
      forall e | e in s'.deliveries ensures RowOk(options, s', e) {
        assert RowOk(options, paid, e);
        if paid.deliveries[e].itemId != itemId && Owed(paid, paid.deliveries[e].itemId) {
          DebtsStay(paid, s', worker, paid.deliveries[e].itemId);
        }
      }
      forall w | w in s'.workers ensures DutyOk(s', s'.workers[w]) {
        assert DutyOk(paid, paid.workers[w]);
      }
    }
  }

  lemma ReadOrCrashKeeps(options: Options, s: Racing, step: RaceStep)
    requires RaceInv(options, s) && (step.ReadDue? || step.CrashWorker?)
    ensures RaceInv(options, RaceNext(options, s, step))
  {
    var s' := RaceNext(options, s, step);
    if s' != s {
      forall e | e in s'.deliveries ensures RowOk(options, s', e) {
        assert RowOk(options, s, e);
        if step.ReadDue? && Owed(s, s.deliveries[e].itemId) {
          DebtsStay(s, s', step.worker, s.deliveries[e].itemId);
        }
      }
      forall w | w in s'.workers ensures DutyOk(s', s'.workers[w]) {
        if w in s.workers {
          assert DutyOk(s, s.workers[w]);
        }
      }
    }
  }

  lemma {:induction false} RaceKeepsInv(options: Options, steps: seq<RaceStep>)
    requires options.maxAttempts >= 1
    ensures RaceInv(options, Race(options, steps))
  {
    if steps != [] {
      RaceKeepsInv(options, steps[..|steps| - 1]);
      var s, step := Race(options, steps[..|steps| - 1]), steps[|steps| - 1];
      match step {
        case Others(op) => CommitKeeps(options, s, op);
        case Claim(worker, eventId, recipient, now) => ClaimKeeps(options, s, worker, eventId, recipient, now);
        case SettleRead(worker, delivered, now) => SettleKeeps(options, s, worker, delivered, now);
        case PayEscalation(worker, now) => PayKeeps(options, s, worker, now);
        case _ => ReadOrCrashKeeps(options, s, step);
      }
    }
  }

  /** However sweeps race, an item has at most one delivery row: rows are one per event, and it is confirmed once. */
  lemma OneDeliveryPerItem(options: Options, steps: seq<RaceStep>, a: nat, b: nat)
    requires options.maxAttempts >= 1
    requires a in Race(options, steps).deliveries && b in Race(options, steps).deliveries
    requires Race(options, steps).deliveries[a].itemId == Race(options, steps).deliveries[b].itemId
    ensures a == b
  {
    RaceKeepsInv(options, steps);
    var s := Race(options, steps);
    assert RowOk(options, s, a) && RowOk(options, s, b);
    StateEnteredAtMostOnce(s.ops, s.deliveries[a].itemId, Confirmed, a, b);
  }

  /**
   A pending row always has attempts left and a next attempt scheduled; and as long as no worker has
   crashed, an undelivered one has its item escalated or a worker about to escalate it.
   */
  lemma RacingRowsAreAccountedFor(options: Options, steps: seq<RaceStep>, eventId: nat)
    requires options.maxAttempts >= 1 && eventId in Race(options, steps).deliveries
    ensures var s := Race(options, steps);
            var row := s.deliveries[eventId];
            && (row.state == Pending ==> row.attempts < options.maxAttempts && row.nextAttemptAt.Some?)
            && (row.state == Undelivered && !s.crashed ==> EscalatedItem(Now(s), row.itemId) || Owed(s, row.itemId))
  {
    RaceKeepsInv(options, steps);
    assert RowOk(options, Race(options, steps), eventId);
  }

  /** A settled row is never rewritten, so a recorded send stays recorded and is recorded once. */
  lemma SettledRowsAreFinal(options: Options, s: Racing, step: RaceStep, eventId: nat)
    requires eventId in s.deliveries && s.deliveries[eventId].state != Pending
    ensures eventId in RaceNext(options, s, step).deliveries && RaceNext(options, s, step).deliveries[eventId] == s.deliveries[eventId]
  {
  }
}
