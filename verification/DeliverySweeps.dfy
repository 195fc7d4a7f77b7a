/**
 What one voucher delivery sweep achieves (packages/documents/src/delivery.ts), and that it is one of
 the runs the claims about racing sweeps range over.
 */
module DeliverySweeps {
  import opened ItemRuns
  import opened Numbers
  import opened Sequences
  import opened TransitionRunner
  import opened VoucherDelivery
  import opened Wrappers

  // ---------------------------------------------------------------------------
  // Claiming

  lemma ClaimAllOneMore(s: Sweep, unclaimed: seq<Unclaimed>, now: int)
    requires unclaimed != []
    ensures var last := |unclaimed| - 1;
            var init, u := ClaimAll(s, unclaimed[..last], now).0, unclaimed[last];
            var after := ClaimAll(s, unclaimed, now).0;
            && after.deliveries == (if u.eventId in init.deliveries then init.deliveries
                                    else init.deliveries[u.eventId := NewRow(u.itemId, u.recipient, now)])
            && after.db == if u.eventId !in init.deliveries && u.recipient == "" then Escalate(init.db, u.itemId, u.escalateAt).0 else init.db
  {
  }

  /** What claiming an event leaves: a row to deliver to its recipient, or a failed row and an escalated item. */
  predicate ClaimedAs(s: Sweep, u: Unclaimed, now: int) {
    && u.eventId in s.deliveries
    && (var row := s.deliveries[u.eventId];
        && row.itemId == u.itemId && row.recipient == u.recipient && row.attempts == 0
        && (u.recipient != "" ==> row.state == Pending && row.nextAttemptAt == Some(now))
        && (u.recipient == "" ==> row.state == Undelivered)
        && (u.recipient == "" && u.itemId in s.db.items ==> s.db.items[u.itemId].escalatedAt.Some?))
  }

  /** Each event of a batch gets its row, and no row that was there is touched. */
  lemma {:induction false} EachClaimGetsItsRow(s: Sweep, unclaimed: seq<Unclaimed>, now: int)
    requires forall i :: 0 <= i < |unclaimed| ==> unclaimed[i].eventId !in s.deliveries
    requires forall i, j :: 0 <= i < j < |unclaimed| ==> unclaimed[i].eventId != unclaimed[j].eventId
    ensures var after := ClaimAll(s, unclaimed, now).0;
            && (forall i :: 0 <= i < |unclaimed| ==> ClaimedAs(after, unclaimed[i], now))
            && (forall e :: e in s.deliveries ==> e in after.deliveries && after.deliveries[e] == s.deliveries[e])
            && (forall e :: e in after.deliveries ==> e in s.deliveries || exists i :: 0 <= i < |unclaimed| && unclaimed[i].eventId == e)
  {
    if unclaimed != [] {
      var last := |unclaimed| - 1;
      var init := unclaimed[..last];
      EachClaimGetsItsRow(s, init, now);
      ClaimAllOneMore(s, unclaimed, now);
      forall i | 0 <= i < last ensures ClaimedAs(ClaimAll(s, unclaimed, now).0, unclaimed[i], now) {
        assert ClaimedAs(ClaimAll(s, init, now).0, init[i], now);
      }
    }
  }

  /** Claiming confirms nothing: it only adds escalations to the outbox. */
  lemma {:induction false} ClaimingKeepsEvents(s: Sweep, unclaimed: seq<Unclaimed>, now: int)
    ensures var after := ClaimAll(s, unclaimed, now).0;
            && s.db.outbox <= after.db.outbox
            && forall id: nat :: ConfirmedEvent(after.db, id) <==> ConfirmedEvent(s.db, id)
  {
    if unclaimed != [] {
      ClaimingKeepsEvents(s, unclaimed[..|unclaimed| - 1], now);
      ClaimAllOneMore(s, unclaimed, now);
    }
  }

  function EventIds(unclaimed: seq<Unclaimed>): (ids: seq<nat>)
    ensures |ids| == |unclaimed| && forall i :: 0 <= i < |ids| ==> ids[i] == unclaimed[i].eventId
  {
    if unclaimed == [] then [] else EventIds(unclaimed[..|unclaimed| - 1]) + [unclaimed[|unclaimed| - 1].eventId]
  }

  /** Exactly the events of the batch stop being unclaimed. */
  lemma BatchIsClaimed(s: Sweep, limit: nat, batch: seq<Unclaimed>, now: int, id: nat)
    requires IsUnclaimedBatch(s, limit, batch)
    ensures IsUnclaimed(ClaimAll(s, batch, now).0, id) <==> IsUnclaimed(s, id) && id !in EventIds(batch)
    ensures id in EventIds(batch) ==> IsUnclaimed(s, id)
  {
    var after, ids := ClaimAll(s, batch, now).0, EventIds(batch);
    EachClaimGetsItsRow(s, batch, now);
    ClaimingKeepsEvents(s, batch, now);
    if id in after.deliveries && id !in s.deliveries {
      var i :| 0 <= i < |batch| && batch[i].eventId == id;
      assert ids[i] == id;
    }
    if id in ids {
      var i :| 0 <= i < |ids| && ids[i] == id;
      assert ClaimedAs(after, batch[i], now);
      assert IsUnclaimed(s, batch[i].eventId);
    }
  }

  /**
   A sweep's claims leave min(batch size, n) fewer of the n unclaimed confirmed events, so a batch that
   is not full leaves none.
   */
  lemma ClaimingLowersTheCount(s: Sweep, limit: nat, batch: seq<Unclaimed>, now: int)
    requires IsUnclaimedBatch(s, limit, batch)
    ensures var n := |UnclaimedEvents(s)|;
            |UnclaimedEvents(ClaimAll(s, batch, now).0)| == n - (if limit < n then limit else n)
  {
    var after, ids := ClaimAll(s, batch, now).0, EventIds(batch);
    DistinctSize(ids);
    forall id: nat
      ensures id in UnclaimedEvents(after) <==> id in UnclaimedEvents(s) - Elements(ids)
      ensures id in Elements(ids) ==> id in UnclaimedEvents(s)
    {
      BatchIsClaimed(s, limit, batch, now, id);
    }
    assert UnclaimedEvents(after) == UnclaimedEvents(s) - Elements(ids);
    assert Elements(ids) <= UnclaimedEvents(s);
  }

  // ---------------------------------------------------------------------------
  // Processing

  /** What processing a due row leaves of it. */
  predicate ProcessedAs(options: Options, row: Delivery, after: Sweep, d: DueRow) {
    && d.eventId in after.deliveries
    && (var row' := after.deliveries[d.eventId];
        && row'.itemId == row.itemId && row'.recipient == row.recipient
        && row'.state == (if d.delivered then Sent else if row.attempts + 1 >= options.maxAttempts then Undelivered else Pending)
        && row'.attempts == (if d.delivered then row.attempts else row.attempts + 1)
        && (row'.state == Pending ==> row'.nextAttemptAt == Some(d.settledAt + options.backoffBaseMs * PowerOfTwo(row.attempts)))
        && (row'.state == Undelivered && row.itemId in after.db.items ==> after.db.items[row.itemId].escalatedAt.Some?))
  }

  /** Every row of the batch is processed once, from the count it had. */
  ghost predicate AllProcessed(options: Options, before: Sweep, after: Sweep, due: seq<DueRow>) {
    forall i :: 0 <= i < |due| ==>
      due[i].eventId in before.deliveries && ProcessedAs(options, before.deliveries[due[i].eventId], after, due[i])
  }

  ghost predicate OthersKept(before: Deliveries, after: Deliveries, due: seq<DueRow>) {
    forall e :: e in before && (forall i :: 0 <= i < |due| ==> due[i].eventId != e) ==> e in after && after[e] == before[e]
  }

  lemma ProcessAllOneMore(options: Options, s: Sweep, due: seq<DueRow>)
    requires due != []
    ensures var last := |due| - 1;
            var (init, counts), d := ProcessAll(options, s, due[..last]), due[last];
            var (after, counts') := ProcessAll(options, s, due);
            && after.deliveries == Settle(options, init.deliveries, d.eventId, d.attempts, d.delivered, d.settledAt)
            && after.db == (if Terminal(options, d.attempts, d.delivered) then Escalate(init.db, d.itemId, d.escalateAt).0 else init.db)
            && counts'.sent + counts'.retried + counts'.failed == counts.sent + counts.retried + counts.failed + 1
  {
  }

  lemma RowIsProcessed(options: Options, init: Sweep, after: Sweep, d: DueRow, now: int)
    requires ReadFrom(init.deliveries, now, d)
    requires after.deliveries == Settle(options, init.deliveries, d.eventId, d.attempts, d.delivered, d.settledAt)
    requires after.db == (if Terminal(options, d.attempts, d.delivered) then Escalate(init.db, d.itemId, d.escalateAt).0 else init.db)
    ensures ProcessedAs(options, init.deliveries[d.eventId], after, d)
  {
  }

  lemma RowStaysProcessed(options: Options, row: Delivery, init: Sweep, after: Sweep, d: DueRow, next: DueRow)
    requires ProcessedAs(options, row, init, d) && d.eventId != next.eventId
    requires after.deliveries == Settle(options, init.deliveries, next.eventId, next.attempts, next.delivered, next.settledAt)
    requires after.db == (if Terminal(options, next.attempts, next.delivered) then Escalate(init.db, next.itemId, next.escalateAt).0 else init.db)
    ensures ProcessedAs(options, row, after, d)
  {
  }

  ghost predicate DistinctRows(due: seq<DueRow>) {
    forall i, j :: 0 <= i < j < |due| ==> due[i].eventId != due[j].eventId
  }

  ghost predicate AllReadFrom(deliveries: Deliveries, now: int, due: seq<DueRow>) {
    forall i :: 0 <= i < |due| ==> ReadFrom(deliveries, now, due[i])
  }

  lemma NotYetProcessed(before: Deliveries, after: Deliveries, due: seq<DueRow>, e: nat)
    requires OthersKept(before, after, due) && e in before && forall i :: 0 <= i < |due| ==> due[i].eventId != e
    ensures e in after && after[e] == before[e]
  {
  }

  lemma RowsStayProcessed(options: Options, s: Sweep, before: Sweep, after: Sweep, init: seq<DueRow>, d: DueRow)
    requires AllProcessed(options, s, before, init) && forall i :: 0 <= i < |init| ==> init[i].eventId != d.eventId
    requires after.deliveries == Settle(options, before.deliveries, d.eventId, d.attempts, d.delivered, d.settledAt)
    requires after.db == (if Terminal(options, d.attempts, d.delivered) then Escalate(before.db, d.itemId, d.escalateAt).0 else before.db)
    ensures AllProcessed(options, s, after, init)
  {
    forall i | 0 <= i < |init|
      ensures init[i].eventId in s.deliveries && ProcessedAs(options, s.deliveries[init[i].eventId], after, init[i])
    {
      RowStaysProcessed(options, s.deliveries[init[i].eventId], before, after, init[i], d);
    }
  }

  lemma AllProcessedOneMore(options: Options, s: Sweep, after: Sweep, init: seq<DueRow>, d: DueRow)
    requires AllProcessed(options, s, after, init) && d.eventId in s.deliveries && ProcessedAs(options, s.deliveries[d.eventId], after, d)
    ensures AllProcessed(options, s, after, init + [d])
  {
  }

  lemma OthersStillKept(s: Deliveries, before: Deliveries, after: Deliveries, init: seq<DueRow>, d: DueRow)
    requires OthersKept(s, before, init)
    requires forall e :: e in before && e != d.eventId ==> e in after && after[e] == before[e]
    ensures OthersKept(s, after, init + [d])
  {
    forall e | e in s && (forall i :: 0 <= i < |init + [d]| ==> (init + [d])[i].eventId != e) ensures e in after && after[e] == s[e] {
      assert (init + [d])[|init|] == d;
      forall i | 0 <= i < |init| ensures init[i].eventId != e {
        assert (init + [d])[i] == init[i];
      }
    }
  }

  /** A sweep processes each due row of its batch once, leaves every other row alone, and its counts add up. */
  lemma {:induction false} EachDueRowIsProcessed(options: Options, s: Sweep, due: seq<DueRow>, now: int)
    requires AllReadFrom(s.deliveries, now, due) && DistinctRows(due)
    ensures var (after, counts) := ProcessAll(options, s, due);
            && AllProcessed(options, s, after, due) && OthersKept(s.deliveries, after.deliveries, due)
            && counts.sent + counts.retried + counts.failed == |due|
  {
    if due != [] {
      var last := |due| - 1;
      var init, d := due[..last], due[last];
      EachDueRowIsProcessed(options, s, init, now);
      ProcessAllOneMore(options, s, due);
      var before, after := ProcessAll(options, s, init).0, ProcessAll(options, s, due).0;
      assert ReadFrom(s.deliveries, now, d);
      NotYetProcessed(s.deliveries, before.deliveries, init, d.eventId);
      RowIsProcessed(options, before, after, d, now);
      RowsStayProcessed(options, s, before, after, init, d);
      AllProcessedOneMore(options, s, after, init, d);
      OthersStillKept(s.deliveries, before.deliveries, after.deliveries, init, d);
      LastApart(due);
    }
  }

  // ---------------------------------------------------------------------------
  // What a sweep counts and escalates

  /** The rows of a batch whose attempt succeeded, and those that have failed for good. */
  function Delivered(due: seq<DueRow>): set<nat> {
    set i: nat | i < |due| && due[i].delivered
  }

  predicate OutOfAttempts(options: Options, d: DueRow) {
    !d.delivered && d.attempts + 1 >= options.maxAttempts
  }

  function Exhausted(options: Options, due: seq<DueRow>): set<nat> {
    set i: nat | i < |due| && OutOfAttempts(options, due[i])
  }

  /** The events of a batch that have a recipient, and those that have none. */
  function Deliverable(unclaimed: seq<Unclaimed>): set<nat> {
    set i: nat | i < |unclaimed| && unclaimed[i].recipient != ""
  }

  /** Only these items are escalated, those that are not yet, and nothing else about any item changes. */
  ghost predicate EscalatesExactly(db: Db, db': Db, items: set<nat>) {
    && db'.items.Keys == db.items.Keys && db'.journal == db.journal && db'.bookings == db.bookings
    && forall id :: id in db.items ==>
         && db'.items[id].(escalatedAt := None, updatedAt := 0) == db.items[id].(escalatedAt := None, updatedAt := 0)
         && (db'.items[id].escalatedAt.Some? <==> db.items[id].escalatedAt.Some? || id in items)
         && (db.items[id].escalatedAt.Some? || id !in items ==> db'.items[id] == db.items[id])
  }

  lemma OneMoreEscalation(db: Db, mid: Db, items: set<nat>, id: nat, at: int)
    requires EscalatesExactly(db, mid, items)
    ensures EscalatesExactly(db, Escalate(mid, id, at).0, items + {id})
  {
  }

  /** The items of the rows that failed for good. */
  function FailedItems(options: Options, due: seq<DueRow>): set<nat> {
    set i | 0 <= i < |due| && OutOfAttempts(options, due[i]) :: due[i].itemId
  }

  lemma OneMoreDelivered(due: seq<DueRow>)
    requires due != []
    ensures |Delivered(due)| == |Delivered(due[..|due| - 1])| + if due[|due| - 1].delivered then 1 else 0
  {
    var last := |due| - 1;
    assert Delivered(due) == Delivered(due[..last]) + if due[last].delivered then {last} else {};
    assert last !in Delivered(due[..last]);
  }

  lemma OneMoreExhausted(options: Options, due: seq<DueRow>)
    requires due != []
    ensures |Exhausted(options, due)| == |Exhausted(options, due[..|due| - 1])| + if OutOfAttempts(options, due[|due| - 1]) then 1 else 0
  {
    var last := |due| - 1;
    assert Exhausted(options, due) == Exhausted(options, due[..last]) + if OutOfAttempts(options, due[last]) then {last} else {};
    assert last !in Exhausted(options, due[..last]);
  }

  lemma OneMoreFailed(options: Options, due: seq<DueRow>)
    requires due != []
    ensures var last := due[|due| - 1];
            FailedItems(options, due) == FailedItems(options, due[..|due| - 1]) + if OutOfAttempts(options, last) then {last.itemId} else {}
  {
  }

  /** A sweep counts as sent what was delivered, as failed what is out of attempts, as retried the rest; and it escalates exactly the items of the failed rows. */
  lemma {:induction false} SweepsCountAndEscalate(options: Options, s: Sweep, due: seq<DueRow>)
    ensures var (after, counts) := ProcessAll(options, s, due);
            && counts.sent == |Delivered(due)| && counts.failed == |Exhausted(options, due)|
            && counts.sent + counts.retried + counts.failed == |due|
            && EscalatesExactly(s.db, after.db, FailedItems(options, due))
  {
    if due != [] {
      var last := |due| - 1;
      var init, d := due[..last], due[last];
      SweepsCountAndEscalate(options, s, init);
      OneMoreDelivered(due);
      OneMoreExhausted(options, due);
      OneMoreFailed(options, due);
      if OutOfAttempts(options, d) {
        OneMoreEscalation(s.db, ProcessAll(options, s, init).0.db, FailedItems(options, init), d.itemId, d.escalateAt);
      }
    }
  }

  /** The items of the events without a recipient. */
  function Unaddressed(unclaimed: seq<Unclaimed>): set<nat> {
    set i | 0 <= i < |unclaimed| && unclaimed[i].recipient == "" :: unclaimed[i].itemId
  }

  lemma OneMoreClaimed(unclaimed: seq<Unclaimed>)
    requires unclaimed != []
    ensures var last := |unclaimed| - 1;
            var init, u := unclaimed[..last], unclaimed[last];
            && Unaddressed(unclaimed) == Unaddressed(init) + (if u.recipient == "" then {u.itemId} else {})
            && |Deliverable(unclaimed)| == |Deliverable(init)| + if u.recipient == "" then 0 else 1
  {
    var last := |unclaimed| - 1;
    assert Deliverable(unclaimed) == Deliverable(unclaimed[..last]) + if unclaimed[last].recipient != "" then {last} else {};
    assert last !in Deliverable(unclaimed[..last]);
  }

  lemma NotYetClaimed(s: Sweep, unclaimed: seq<Unclaimed>, now: int)
    requires unclaimed != [] && forall i :: 0 <= i < |unclaimed| ==> unclaimed[i].eventId !in s.deliveries
    requires forall i, j :: 0 <= i < j < |unclaimed| ==> unclaimed[i].eventId != unclaimed[j].eventId
    ensures unclaimed[|unclaimed| - 1].eventId !in ClaimAll(s, unclaimed[..|unclaimed| - 1], now).0.deliveries
  {
    EachClaimGetsItsRow(s, unclaimed[..|unclaimed| - 1], now);
  }

  /** A claim counts the events with a recipient, and escalates exactly the items of those without. */
  lemma {:induction false} ClaimsCountAndEscalate(s: Sweep, unclaimed: seq<Unclaimed>, now: int)
    requires forall i :: 0 <= i < |unclaimed| ==> unclaimed[i].eventId !in s.deliveries
    requires forall i, j :: 0 <= i < j < |unclaimed| ==> unclaimed[i].eventId != unclaimed[j].eventId
    ensures var (after, claimed) := ClaimAll(s, unclaimed, now);
            claimed == |Deliverable(unclaimed)| && EscalatesExactly(s.db, after.db, Unaddressed(unclaimed))
  {
    if unclaimed != [] {
      var last := |unclaimed| - 1;
      var init, u := unclaimed[..last], unclaimed[last];
      ClaimsCountAndEscalate(s, init, now);
      NotYetClaimed(s, unclaimed, now);
      OneMoreClaimed(unclaimed);
      if u.recipient == "" {
        OneMoreEscalation(s.db, ClaimAll(s, init, now).0.db, Unaddressed(init), u.itemId, u.escalateAt);
      }
    }
  }

  // ---------------------------------------------------------------------------
  // A sweep is a run

  /** The steps of claiming a batch: claim, then escalate what had no recipient. */
  function ClaimSteps(worker: nat, unclaimed: seq<Unclaimed>, now: int): seq<RaceStep> {
    if unclaimed == [] then []
    else
      var last := |unclaimed| - 1;
      var u := unclaimed[last];
      ClaimSteps(worker, unclaimed[..last], now)
      + [Claim(worker, u.eventId, u.recipient, now)] + [PayEscalation(worker, u.escalateAt)]
  }

  /** One claim and its escalation, if it owes one. */
  lemma OneClaimIsTwoSteps(options: Options, r: Racing, worker: nat, u: Unclaimed, now: int)
    requires worker !in r.workers && ConfirmedEvent(Now(r), u.eventId) && Now(r).outbox[u.eventId].itemId == u.itemId
    ensures var r' := RaceNext(options, RaceNext(options, r, Claim(worker, u.eventId, u.recipient, now)), PayEscalation(worker, u.escalateAt));
            && r'.workers == r.workers && r'.crashed == r.crashed
            && r'.deliveries == (if u.eventId in r.deliveries then r.deliveries
                                 else r.deliveries[u.eventId := NewRow(u.itemId, u.recipient, now)])
            && Now(r') == if u.eventId !in r.deliveries && u.recipient == "" then Escalate(Now(r), u.itemId, u.escalateAt).0 else Now(r)
  {
    RunAppend(EMPTY_DB, r.ops, EscalateItem(u.itemId, u.escalateAt));
  }

  ghost predicate NamesEvents(db: Db, unclaimed: seq<Unclaimed>) {
    forall i :: 0 <= i < |unclaimed| ==>
      ConfirmedEvent(db, unclaimed[i].eventId) && db.outbox[unclaimed[i].eventId].itemId == unclaimed[i].itemId
  }

  /** Claiming a batch of confirmed events, whoever has claimed some of them since, is a run. */
  lemma {:induction false} ClaimAllIsARun(options: Options, r: Racing, worker: nat, unclaimed: seq<Unclaimed>, now: int)
    requires worker !in r.workers && NamesEvents(Now(r), unclaimed)
    ensures var r' := RaceFrom(options, r, ClaimSteps(worker, unclaimed, now));
            && r'.workers == r.workers && r'.crashed == r.crashed
            && Sweep(r'.deliveries, Now(r')) == ClaimAll(Sweep(r.deliveries, Now(r)), unclaimed, now).0
  {
    if unclaimed != [] {
      var last := |unclaimed| - 1;
      var init, u, s := unclaimed[..last], unclaimed[last], Sweep(r.deliveries, Now(r));
      ClaimAllIsARun(options, r, worker, init, now);
      ClaimAllOneMore(s, unclaimed, now);
      ClaimingKeepsEvents(s, init, now);
      var steps := ClaimSteps(worker, init, now);
      var mid := RaceFrom(options, r, steps);
      RaceOneMore(options, r, steps, Claim(worker, u.eventId, u.recipient, now));
      RaceOneMore(options, r, steps + [Claim(worker, u.eventId, u.recipient, now)], PayEscalation(worker, u.escalateAt));
      OneClaimIsTwoSteps(options, mid, worker, u, now);
    }
  }

  /** The reads of a sweep: one slot for each row of the batch, from `slot` on. */
  function ReadSteps(slot: nat, due: seq<DueRow>, n: nat, now: int): seq<RaceStep>
    requires n <= |due|
  {
    if n == 0 then [] else ReadSteps(slot, due, n - 1, now) + [ReadDue(slot + n - 1, due[n - 1].eventId, now)]
  }

  /** And its settlements, each followed by the escalation it may owe. */
  function SettleSteps(slot: nat, due: seq<DueRow>, n: nat): seq<RaceStep>
    requires n <= |due|
  {
    if n == 0 then []
    else
      var d := due[n - 1];
      SettleSteps(slot, due, n - 1)
      + [SettleRead(slot + n - 1, d.delivered, d.settledAt)] + [PayEscalation(slot + n - 1, d.escalateAt)]
  }

  function DutyFor(d: DueRow): Duty {
    Trying(d.eventId, d.itemId, d.attempts)
  }

  /** The duties of `others`, and of slots m to n that hold the rows of the batch they read. */
  function Held(others: map<nat, Duty>, slot: nat, due: seq<DueRow>, m: nat, n: nat): map<nat, Duty>
    requires n <= |due|
  {
    if m >= n then others else Held(others, slot, due, m, n - 1)[slot + n - 1 := DutyFor(due[n - 1])]
  }

  ghost predicate SlotsFree(workers: map<nat, Duty>, slot: nat, n: nat) {
    forall w: nat :: w in workers ==> w < slot || slot + n <= w
  }

  lemma {:induction false} HeldSlots(others: map<nat, Duty>, slot: nat, due: seq<DueRow>, m: nat, n: nat, w: nat)
    requires n <= |due|
    ensures w in Held(others, slot, due, m, n) <==> w in others || slot + m <= w < slot + n
    ensures w in Held(others, slot, due, m, n) ==>
              Held(others, slot, due, m, n)[w] == if slot + m <= w < slot + n then DutyFor(due[w - slot]) else others[w]
  {
    if m < n {
      HeldSlots(others, slot, due, m, n - 1, w);
    }
  }

  lemma OneLessHeld(others: map<nat, Duty>, slot: nat, due: seq<DueRow>, m: nat)
    requires m < |due| && SlotsFree(others, slot, |due|)
    ensures slot + m in Held(others, slot, due, m, |due|) && Held(others, slot, due, m, |due|)[slot + m] == DutyFor(due[m])
    ensures Held(others, slot, due, m, |due|) - {slot + m} == Held(others, slot, due, m + 1, |due|)
  {
    var before, after := Held(others, slot, due, m, |due|), Held(others, slot, due, m + 1, |due|);
    HeldSlots(others, slot, due, m, |due|, slot + m);
    forall w: nat
      ensures w in before && w != slot + m <==> w in after
      ensures w in after ==> w in before && after[w] == before[w]
    {
      HeldSlots(others, slot, due, m, |due|, w);
      HeldSlots(others, slot, due, m + 1, |due|, w);
    }
  }

  lemma OneReadIsOneStep(options: Options, r: Racing, steps: seq<RaceStep>, mid: Racing, worker: nat, d: DueRow, now: int)
    requires mid == RaceFrom(options, r, steps) && worker !in mid.workers && ReadFrom(mid.deliveries, now, d)
    ensures RaceFrom(options, r, steps + [ReadDue(worker, d.eventId, now)]) == mid.(workers := mid.workers[worker := DutyFor(d)])
  {
    RaceOneMore(options, r, steps, ReadDue(worker, d.eventId, now));
  }

  lemma OneMoreRead(options: Options, r: Racing, slot: nat, due: seq<DueRow>, n: nat, mid: Racing, now: int)
    requires 0 < n <= |due| && mid == RaceFrom(options, r, ReadSteps(slot, due, n - 1, now))
    requires slot + n - 1 !in mid.workers && ReadFrom(mid.deliveries, now, due[n - 1])
    ensures RaceFrom(options, r, ReadSteps(slot, due, n, now)) == mid.(workers := mid.workers[slot + n - 1 := DutyFor(due[n - 1])])
  {
    OneReadIsOneStep(options, r, ReadSteps(slot, due, n - 1, now), mid, slot + n - 1, due[n - 1], now);
  }

  lemma {:induction false} BatchIsRead(options: Options, r: Racing, slot: nat, due: seq<DueRow>, n: nat, now: int)
    requires n <= |due| && SlotsFree(r.workers, slot, |due|) && AllReadFrom(r.deliveries, now, due)
    ensures RaceFrom(options, r, ReadSteps(slot, due, n, now)) == r.(workers := Held(r.workers, slot, due, 0, n))
  {
    if n > 0 {
      BatchIsRead(options, r, slot, due, n - 1, now);
      HeldSlots(r.workers, slot, due, 0, n - 1, slot + n - 1);
      OneMoreRead(options, r, slot, due, n, r.(workers := Held(r.workers, slot, due, 0, n - 1)), now);
    }
  }

  lemma PayingIsEscalating(options: Options, r: Racing, worker: nat, at: int)
    ensures var r' := RaceNext(options, r, PayEscalation(worker, at));
            if worker in r.workers && r.workers[worker].Owing?
            then && r'.workers == r.workers - {worker} && r'.crashed == r.crashed && r'.deliveries == r.deliveries
                 && Now(r') == Escalate(Now(r), r.workers[worker].itemId, at).0
            else r' == r
  {
    if worker in r.workers && r.workers[worker].Owing? {
      RunAppend(EMPTY_DB, r.ops, EscalateItem(r.workers[worker].itemId, at));
    }
  }

  lemma OneSettlement(options: Options, r: Racing, worker: nat, d: DueRow)
    requires worker in r.workers && r.workers[worker] == DutyFor(d)
    ensures var r' := RaceNext(options, RaceNext(options, r, SettleRead(worker, d.delivered, d.settledAt)), PayEscalation(worker, d.escalateAt));
            && r'.workers == r.workers - {worker} && r'.crashed == r.crashed
            && r'.deliveries == Settle(options, r.deliveries, d.eventId, d.attempts, d.delivered, d.settledAt)
            && Now(r') == if Terminal(options, d.attempts, d.delivered) then Escalate(Now(r), d.itemId, d.escalateAt).0 else Now(r)
  {
    var r1 := DoSettle(options, r, worker, d.delivered, d.settledAt);
    PayingIsEscalating(options, r1, worker, d.escalateAt);
    if Terminal(options, d.attempts, d.delivered) {
      assert r1.workers - {worker} == r.workers - {worker};
    }
  }

  lemma OneSettlementIsTwoSteps(options: Options, r: Racing, steps: seq<RaceStep>, mid: Racing, worker: nat, d: DueRow)
    requires mid == RaceFrom(options, r, steps) && worker in mid.workers && mid.workers[worker] == DutyFor(d)
    ensures var r' := RaceFrom(options, r, steps + [SettleRead(worker, d.delivered, d.settledAt)] + [PayEscalation(worker, d.escalateAt)]);
            && r'.workers == mid.workers - {worker} && r'.crashed == mid.crashed
            && r'.deliveries == Settle(options, mid.deliveries, d.eventId, d.attempts, d.delivered, d.settledAt)
            && Now(r') == if Terminal(options, d.attempts, d.delivered) then Escalate(Now(mid), d.itemId, d.escalateAt).0 else Now(mid)
  {
    var settle := SettleRead(worker, d.delivered, d.settledAt);
    RaceOneMore(options, r, steps, settle);
    RaceOneMore(options, r, steps + [settle], PayEscalation(worker, d.escalateAt));
    OneSettlement(options, mid, worker, d);
  }

  lemma OneMoreSettled(options: Options, r: Racing, slot: nat, due: seq<DueRow>, m: nat, mid: Racing)
    requires 0 < m <= |due| && mid == RaceFrom(options, r, SettleSteps(slot, due, m - 1))
    requires slot + m - 1 in mid.workers && mid.workers[slot + m - 1] == DutyFor(due[m - 1])
    ensures var d, r' := due[m - 1], RaceFrom(options, r, SettleSteps(slot, due, m));
            && r'.workers == mid.workers - {slot + m - 1} && r'.crashed == mid.crashed
            && Sweep(r'.deliveries, Now(r'))
               == Sweep(Settle(options, mid.deliveries, d.eventId, d.attempts, d.delivered, d.settledAt),
                        if Terminal(options, d.attempts, d.delivered) then Escalate(Now(mid), d.itemId, d.escalateAt).0 else Now(mid))
  {
    OneSettlementIsTwoSteps(options, r, SettleSteps(slot, due, m - 1), mid, slot + m - 1, due[m - 1]);
  }

  lemma ProcessPrefix(options: Options, s: Sweep, due: seq<DueRow>, m: nat)
    requires 0 < m <= |due|
    ensures var init, d := ProcessAll(options, s, due[..m - 1]).0, due[m - 1];
            ProcessAll(options, s, due[..m]).0
            == Sweep(Settle(options, init.deliveries, d.eventId, d.attempts, d.delivered, d.settledAt),
                     if Terminal(options, d.attempts, d.delivered) then Escalate(init.db, d.itemId, d.escalateAt).0 else init.db)
  {
    assert due[..m][..m - 1] == due[..m - 1];
    ProcessAllOneMore(options, s, due[..m]);
  }

  lemma {:induction false} BatchIsSettled(options: Options, r: Racing, others: map<nat, Duty>, slot: nat, due: seq<DueRow>, m: nat)
    requires m <= |due| && SlotsFree(others, slot, |due|) && r.workers == Held(others, slot, due, 0, |due|)
    ensures var r' := RaceFrom(options, r, SettleSteps(slot, due, m));
            && r'.workers == Held(others, slot, due, m, |due|) && r'.crashed == r.crashed
            && Sweep(r'.deliveries, Now(r')) == ProcessAll(options, Sweep(r.deliveries, Now(r)), due[..m]).0
  {
    if m > 0 {
      BatchIsSettled(options, r, others, slot, due, m - 1);
      OneLessHeld(others, slot, due, m - 1);
      OneMoreSettled(options, r, slot, due, m, RaceFrom(options, r, SettleSteps(slot, due, m - 1)));
      ProcessPrefix(options, Sweep(r.deliveries, Now(r)), due, m);
    }
  }

  /** Reading a batch and processing it row by row, with nobody in between, is a run. */
  lemma ProcessAllIsARun(options: Options, r: Racing, slot: nat, due: seq<DueRow>, now: int)
    requires SlotsFree(r.workers, slot, |due|) && IsDueBatch(r.deliveries, now, options.batchSize, due)
    ensures var r' := RaceFrom(options, r, ReadSteps(slot, due, |due|, now) + SettleSteps(slot, due, |due|));
            && r'.workers == r.workers && r'.crashed == r.crashed
            && Sweep(r'.deliveries, Now(r')) == ProcessAll(options, Sweep(r.deliveries, Now(r)), due).0
  {
    assert due[..|due|] == due;
    var n := |due|;
    BatchIsRead(options, r, slot, due, n, now);
    BatchIsSettled(options, RaceFrom(options, r, ReadSteps(slot, due, n, now)), r.workers, slot, due, n);
    RacesCompose(options, r, ReadSteps(slot, due, n, now), SettleSteps(slot, due, n));
  }
}
