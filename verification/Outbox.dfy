/**
 The outbox dispatcher (packages/booking-engine/src/events.ts): events are committed with the change
 they report, published after it, and stamped once the sink has accepted them.
 */
module Outbox {
  import opened ItemRuns
  import opened TransitionRunner
  import opened Wrappers

  datatype SinkAnswer = Rejects | Accepts(stampedAt: int)

  /** What publishing these events leaves in the database, given the sink's answers. */
  function Dispatched(db: Db, ids: seq<nat>, answers: seq<SinkAnswer>): Db
    requires |ids| == |answers|
  {
    if ids == [] then db
    else
      var last := |ids| - 1;
      var init := Dispatched(db, ids[..last], answers[..last]);
      match answers[last]
      case Rejects => init
      case Accepts(at) => StampPublished(init, ids[last], at)
  }

  /** The redelivery query: unpublished and old enough. */
  predicate Redeliverable(db: Db, olderThan: int, id: nat) {
    id < |db.outbox| && db.outbox[id].publishedAt.None? && db.outbox[id].occurredAt <= olderThan
  }

  function Unpublished(db: Db, olderThan: int): set<nat> {
    set id: nat | id < |db.outbox| && Redeliverable(db, olderThan, id)
  }

  /** A possible result of the query: oldest first, at most `limit` rows. */
  ghost predicate IsBatch(db: Db, olderThan: int, limit: nat, batch: seq<nat>) {
    && (forall i :: 0 <= i < |batch| ==> Redeliverable(db, olderThan, batch[i]))
    && (forall i, j :: 0 <= i < j < |batch| ==>
          batch[i] != batch[j] && db.outbox[batch[i]].occurredAt <= db.outbox[batch[j]].occurredAt)
    && |batch| == (if limit < |Unpublished(db, olderThan)| then limit else |Unpublished(db, olderThan)|)
    && (forall id: nat, i :: Redeliverable(db, olderThan, id) && id !in batch && 0 <= i < |batch| ==>
          db.outbox[batch[i]].occurredAt <= db.outbox[id].occurredAt)
  }

  class OutboxDispatcher {
    const db: TenantDatabase

    constructor (db: TenantDatabase)
      ensures this.db == db
    {
      this.db := db;
    }

    method Dispatch(ids: seq<nat>, answers: seq<SinkAnswer>)
      requires |ids| == |answers|
      modifies db
      ensures db.Contents() == Dispatched(old(db.Contents()), ids, answers)
    {
      var i := 0;
      while i < |ids|
        invariant 0 <= i <= |ids|
        invariant db.Contents() == Dispatched(old(db.Contents()), ids[..i], answers[..i])
      {
        assert ids[..i + 1][..i] == ids[..i] && answers[..i + 1][..i] == answers[..i];
        var answer := answers[i];
        if answer.Accepts? {
          Stamp(ids[i], answer.stampedAt);
        }
        i := i + 1;
      }
      assert ids[..i] == ids && answers[..i] == answers;
    }

    method Stamp(id: nat, at: int)
      modifies db
      ensures db.Contents() == StampPublished(old(db.Contents()), id, at)
    {
      if id < |db.outbox| && db.outbox[id].publishedAt.None? {
        db.outbox := db.outbox[id := db.outbox[id].(publishedAt := Some(at))];
      }
    }

    /** The redelivery sweep; `batch` is what its query returned. */
    method RepublishUnpublished(olderThan: int, limit: nat, batch: seq<nat>, answers: seq<SinkAnswer>) returns (count: nat)
      requires IsBatch(db.Contents(), olderThan, limit, batch) && |answers| == |batch|
      modifies db
      ensures db.Contents() == Dispatched(old(db.Contents()), batch, answers) && count == |batch|
    {
      Dispatch(batch, answers);
      count := |batch|;
    }
  }

  // ---------------------------------------------------------------------------
  // What a sweep achieves

  function AcceptedOf(ids: seq<nat>, answers: seq<SinkAnswer>): set<nat>
    requires |ids| == |answers|
  {
    set i | 0 <= i < |ids| && answers[i].Accepts? :: ids[i]
  }

  /** Publishing stamps exactly the accepted events and touches nothing else. */
  lemma {:induction false} DispatchStampsTheAccepted(db: Db, ids: seq<nat>, answers: seq<SinkAnswer>)
    requires |ids| == |answers|
    ensures var db' := Dispatched(db, ids, answers);
            && db'.(outbox := db.outbox) == db && |db'.outbox| == |db.outbox|
            && (forall id :: 0 <= id < |db.outbox| ==>
                  && db'.outbox[id].(publishedAt := db.outbox[id].publishedAt) == db.outbox[id]
                  && (db.outbox[id].publishedAt.Some? || id !in AcceptedOf(ids, answers) ==> db'.outbox[id] == db.outbox[id])
                  && (id in AcceptedOf(ids, answers) ==> db'.outbox[id].publishedAt.Some?))
  {
    if ids != [] {
      var last := |ids| - 1;
      DispatchStampsTheAccepted(db, ids[..last], answers[..last]);
      forall id ensures id in AcceptedOf(ids, answers)
                        <==> id in AcceptedOf(ids[..last], answers[..last]) || (answers[last].Accepts? && id == ids[last]) {
        AcceptedLast(ids, answers, id);
      }
    }
  }

  lemma AcceptedLast(ids: seq<nat>, answers: seq<SinkAnswer>, id: nat)
    requires |ids| == |answers| > 0
    ensures var last := |ids| - 1;
            id in AcceptedOf(ids, answers)
            <==> id in AcceptedOf(ids[..last], answers[..last]) || (answers[last].Accepts? && id == ids[last])
  {
    var last := |ids| - 1;
    if id in AcceptedOf(ids, answers) {
      var i :| 0 <= i < |ids| && answers[i].Accepts? && ids[i] == id;
      if i < last {
        assert ids[..last][i] == id && answers[..last][i].Accepts?;
      }
    }
    if id in AcceptedOf(ids[..last], answers[..last]) {
      var i :| 0 <= i < last && answers[..last][i].Accepts? && ids[..last][i] == id;
      assert ids[i] == id && answers[i].Accepts?;
    }
  }

  /** What remains to redeliver is what remained before, less what the sink accepted. */
  lemma AcceptedLeaveTheQueue(db: Db, olderThan: int, ids: seq<nat>, answers: seq<SinkAnswer>)
    requires |ids| == |answers|
    ensures Unpublished(Dispatched(db, ids, answers), olderThan) == Unpublished(db, olderThan) - AcceptedOf(ids, answers)
  {
    DispatchStampsTheAccepted(db, ids, answers);
    var db' := Dispatched(db, ids, answers);
    forall id: nat ensures id in Unpublished(db', olderThan) <==> id in Unpublished(db, olderThan) - AcceptedOf(ids, answers) {
      if id < |db.outbox| {
        assert db'.outbox[id].occurredAt == db.outbox[id].occurredAt;
      }
    }
  }

  ghost predicate AllAccepted(answers: seq<SinkAnswer>) {
    forall i :: 0 <= i < |answers| ==> answers[i].Accepts?
  }

  lemma {:induction false} DistinctCount(ids: seq<nat>, answers: seq<SinkAnswer>)
    requires |ids| == |answers| && AllAccepted(answers)
    requires forall i, j :: 0 <= i < j < |ids| ==> ids[i] != ids[j]
    ensures |AcceptedOf(ids, answers)| == |ids|
  {
    if ids == [] {
      assert AcceptedOf(ids, answers) == {};
    } else {
      var last := |ids| - 1;
      DistinctCount(ids[..last], answers[..last]);
      var init := AcceptedOf(ids[..last], answers[..last]);
      forall id: nat ensures id in AcceptedOf(ids, answers) <==> id in init + {ids[last]} {
        AcceptedLast(ids, answers, id);
      }
      assert AcceptedOf(ids, answers) == init + {ids[last]};
      assert ids[last] !in init;
    }
  }

  /** A sweep with an accepting sink lowers the count of old unpublished events by min(limit, count). */
  lemma SweepLowersTheCount(db: Db, olderThan: int, limit: nat, batch: seq<nat>, answers: seq<SinkAnswer>)
    requires IsBatch(db, olderThan, limit, batch) && |answers| == |batch| && AllAccepted(answers)
    ensures var n := |Unpublished(db, olderThan)|;
            |Unpublished(Dispatched(db, batch, answers), olderThan)| == n - (if limit < n then limit else n)
  {
    AcceptedLeaveTheQueue(db, olderThan, batch, answers);
    DistinctCount(batch, answers);
    assert AcceptedOf(batch, answers) <= Unpublished(db, olderThan);
  }

  /** One accepting sweep after another, each with its own batch. */
  datatype Sweep = Sweep(batch: seq<nat>, answers: seq<SinkAnswer>)

  ghost predicate AcceptingSweeps(db: Db, olderThan: int, limit: nat, sweeps: seq<Sweep>)
    decreases |sweeps|
  {
    sweeps == [] ||
    (var first := sweeps[0];
     && IsBatch(db, olderThan, limit, first.batch) && |first.answers| == |first.batch| && AllAccepted(first.answers)
     && AcceptingSweeps(Dispatched(db, first.batch, first.answers), olderThan, limit, sweeps[1..]))
  }

  function Swept(db: Db, sweeps: seq<Sweep>): Db
    decreases |sweeps|
  {
    if sweeps == [] || |sweeps[0].batch| != |sweeps[0].answers| then db
    else Swept(Dispatched(db, sweeps[0].batch, sweeps[0].answers), sweeps[1..])
  }

  /** Enough accepting sweeps redeliver everything that was old and unpublished. */
  lemma {:induction false} SweepsDrainTheOutbox(db: Db, olderThan: int, limit: nat, sweeps: seq<Sweep>)
    requires AcceptingSweeps(db, olderThan, limit, sweeps) && |Unpublished(db, olderThan)| <= |sweeps| * limit
    ensures Unpublished(Swept(db, sweeps), olderThan) == {}
    decreases |sweeps|
  {
    if sweeps != [] {
      SweepLowersTheCount(db, olderThan, limit, sweeps[0].batch, sweeps[0].answers);
      assert |sweeps| * limit == (|sweeps| - 1) * limit + limit;
      SweepsDrainTheOutbox(Dispatched(db, sweeps[0].batch, sweeps[0].answers), olderThan, limit, sweeps[1..]);
    }
  }

  // ---------------------------------------------------------------------------
  // Over whole runs

  /** The database, what the sink has accepted so far, and the acceptances not yet stamped. */
  datatype OutboxState = OutboxState(db: Db, accepted: set<nat>, unstamped: set<nat>)

  datatype OutboxStep =
    | Commit(op: Op)
    | Publish(id: nat, accepts: bool)
    | StampAccepted(id: nat, at: int)
    | CrashWorkers

  function OutboxNext(s: OutboxState, step: OutboxStep): OutboxState {
    match step
    case Commit(op) => if op.Stamp? then s else s.(db := Apply(s.db, op))
    case Publish(id, accepts) =>
      if accepts && id < |s.db.outbox| then s.(accepted := s.accepted + {id}, unstamped := s.unstamped + {id}) else s
    case StampAccepted(id, at) => if id in s.unstamped then s.(db := StampPublished(s.db, id, at), unstamped := s.unstamped - {id}) else s
    case CrashWorkers => s.(unstamped := {})
  }

  function OutboxRunFrom(s: OutboxState, steps: seq<OutboxStep>): OutboxState {
    if steps == [] then s else OutboxNext(OutboxRunFrom(s, steps[..|steps| - 1]), steps[|steps| - 1])
  }

  function OutboxRun(steps: seq<OutboxStep>): OutboxState {
    OutboxRunFrom(OutboxState(EMPTY_DB, {}, {}), steps)
  }

  /** The steps of one dispatch: publish, then stamp what was accepted. */
  function DispatchSteps(ids: seq<nat>, answers: seq<SinkAnswer>): seq<OutboxStep>
    requires |ids| == |answers|
  {
    if ids == [] then []
    else
      var last := |ids| - 1;
      DispatchSteps(ids[..last], answers[..last])
      + match answers[last] {
          case Rejects => [Publish(ids[last], false)]
          case Accepts(at) => [Publish(ids[last], true), StampAccepted(ids[last], at)]
        }
  }

  lemma RunOneMore(s: OutboxState, steps: seq<OutboxStep>, step: OutboxStep)
    ensures OutboxRunFrom(s, steps + [step]) == OutboxNext(OutboxRunFrom(s, steps), step)
  {
    assert (steps + [step])[..|steps + [step]| - 1] == steps;
  }

  /** The dispatcher's loop is one of the runs the invariants below are about. */
  lemma {:induction false} DispatchIsARun(s: OutboxState, ids: seq<nat>, answers: seq<SinkAnswer>)
    requires |ids| == |answers| && (forall i :: 0 <= i < |ids| ==> ids[i] < |s.db.outbox|)
    ensures OutboxRunFrom(s, DispatchSteps(ids, answers)).db == Dispatched(s.db, ids, answers)
  {
    if ids != [] {
      var last := |ids| - 1;
      var init := DispatchSteps(ids[..last], answers[..last]);
      DispatchIsARun(s, ids[..last], answers[..last]);
      DispatchStampsTheAccepted(s.db, ids[..last], answers[..last]);
      match answers[last] {
        case Rejects => RunOneMore(s, init, Publish(ids[last], false));
        case Accepts(at) =>
          RunOneMore(s, init, Publish(ids[last], true));
          RunOneMore(s, init + [Publish(ids[last], true)], StampAccepted(ids[last], at));
          assert init + [Publish(ids[last], true)] + [StampAccepted(ids[last], at)] == DispatchSteps(ids, answers);
      }
    }
  }

  /** No operation rewrites a committed event. */
  lemma EventsAreKept(db: Db, op: Op)
    requires !op.Stamp?
    ensures db.outbox <= Apply(db, op).outbox
    ensures forall id :: |db.outbox| <= id < |Apply(db, op).outbox| ==> Apply(db, op).outbox[id].publishedAt.None?
  {
  }

  /**
   Through commits, publications, stamps and crashes in any order, an event is stamped only after the
   sink accepted it; so every committed event was accepted or is still there to redeliver.
   */
  lemma {:induction false} StampedOnlyIfAccepted(steps: seq<OutboxStep>, id: nat)
    requires id < |OutboxRun(steps).db.outbox|
    ensures OutboxRun(steps).db.outbox[id].publishedAt.None? || id in OutboxRun(steps).accepted
    ensures OutboxRun(steps).unstamped <= OutboxRun(steps).accepted
  {
    if steps != [] {
      var s, step := OutboxRun(steps[..|steps| - 1]), steps[|steps| - 1];
      if id < |s.db.outbox| {
        StampedOnlyIfAccepted(steps[..|steps| - 1], id);
      } else if |s.db.outbox| > 0 {
        StampedOnlyIfAccepted(steps[..|steps| - 1], 0);
      } else {
        NothingAcceptedYet(steps[..|steps| - 1]);
      }
      if step.Commit? && !step.op.Stamp? {
        EventsAreKept(s.db, step.op);
      }
    }
  }

  lemma {:induction false} NothingAcceptedYet(steps: seq<OutboxStep>)
    requires OutboxRun(steps).db.outbox == []
    ensures OutboxRun(steps).unstamped == {}
  {
    if steps != [] {
      var s, step := OutboxRun(steps[..|steps| - 1]), steps[|steps| - 1];
      if step.Commit? && !step.op.Stamp? {
        EventsAreKept(s.db, step.op);
      }
      NothingAcceptedYet(steps[..|steps| - 1]);
    }
  }

  lemma {:induction false} EventsOutliveEverything(steps: seq<OutboxStep>, n: nat, id: nat)
    requires n <= |steps| && id < |OutboxRun(steps[..n]).db.outbox|
    ensures id < |OutboxRun(steps).db.outbox|
    ensures var before, after := OutboxRun(steps[..n]).db.outbox[id], OutboxRun(steps).db.outbox[id];
            before.(publishedAt := after.publishedAt) == after && (before.publishedAt.Some? ==> after == before)
    decreases |steps|
  {
    if n == |steps| {
      assert steps[..n] == steps;
    } else {
      var init, step := steps[..|steps| - 1], steps[|steps| - 1];
      assert init[..n] == steps[..n];
      EventsOutliveEverything(init, n, id);
      if step.Commit? && !step.op.Stamp? {
        EventsAreKept(OutboxRun(init).db, step.op);
      }
    }
  }
}
