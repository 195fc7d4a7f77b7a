/**
 How many processings a voucher delivery takes when sweeps race (packages/documents/src/delivery.ts).
 A failed processing writes the count its sweep read plus one, whatever the row has become since, so
 only processings that do not overlap use the attempts up.
 */
module DeliveryAttempts {
  import opened BookingStates
  import opened CancellationPolicies
  import opened ItemRuns
  import opened Money
  import opened Numbers
  import opened TransitionRunner
  import opened VoucherDelivery
  import opened Wrappers

  /** One processing of a row: the count its sweep read, and how it went. */
  datatype Tried = Tried(read: nat, processing: Processing)

  predicate Settles(s: Racing, step: RaceStep, eventId: nat) {
    && step.SettleRead? && step.worker in s.workers
    && s.workers[step.worker].Trying? && s.workers[step.worker].eventId == eventId
  }

  /** The processings of one row in a run, in the order they settled. */
  function TriedOf(options: Options, steps: seq<RaceStep>, eventId: nat): seq<Tried> {
    if steps == [] then []
    else
      var init, last := steps[..|steps| - 1], steps[|steps| - 1];
      var s := Race(options, init);
      if Settles(s, last, eventId)
      then TriedOf(options, init, eventId) + [Tried(s.workers[last.worker].attemptsRead, Processing(last.delivered, last.now))]
      else TriedOf(options, init, eventId)
  }

  function Processings(tried: seq<Tried>): (processings: seq<Processing>)
    ensures |processings| == |tried|
  {
    if tried == [] then [] else Processings(tried[..|tried| - 1]) + [tried[|tried| - 1].processing]
  }

  // ---------------------------------------------------------------------------
  // The counts that can be read

  /** A count the row can have had so far: none, or one more than some failed processing read. */
  ghost predicate Countable(tried: seq<Tried>, count: nat) {
    count == 0 || exists j :: 0 <= j < |tried| && !tried[j].processing.delivered && count == tried[j].read + 1
  }

  /** Every processing worked from a count its row had had by then. */
  ghost predicate Chained(tried: seq<Tried>) {
    forall k :: 0 <= k < |tried| ==> Countable(tried[..k], tried[k].read)
  }

  predicate Closes(options: Options, t: Tried) {
    t.processing.delivered || t.read + 1 >= options.maxAttempts
  }

  ghost predicate Closed(options: Options, tried: seq<Tried>) {
    exists k :: 0 <= k < |tried| && Closes(options, tried[k])
  }

  lemma CountableLater(tried: seq<Tried>, t: Tried, count: nat)
    requires Countable(tried, count)
    ensures Countable(tried + [t], count)
  {
    if count != 0 {
      var j :| 0 <= j < |tried| && !tried[j].processing.delivered && count == tried[j].read + 1;
      assert (tried + [t])[j] == tried[j];
    }
  }

  lemma ChainedLater(tried: seq<Tried>, t: Tried)
    requires Chained(tried) && Countable(tried, t.read)
    ensures Chained(tried + [t])
  {
    var longer := tried + [t];
    forall k | 0 <= k < |longer| ensures Countable(longer[..k], longer[k].read) {
      if k < |tried| {
        assert longer[..k] == tried[..k] && longer[k] == tried[k];
      } else {
        assert longer[..k] == tried;
      }
    }
  }

  lemma ClosedLater(options: Options, tried: seq<Tried>, t: Tried)
    ensures Closed(options, tried + [t]) <==> Closed(options, tried) || Closes(options, t)
  {
    var longer := tried + [t];
    if Closed(options, tried) {
      var k :| 0 <= k < |tried| && Closes(options, tried[k]);
      assert Closes(options, longer[k]);
    }
    if Closes(options, t) {
      assert Closes(options, longer[|tried|]);
    }
  }

  /**
   What the processings say about their row: counts held by workers and by a pending row are ones it
   can have had, and a row that was ever pending still is exactly if no processing closed it.
   */
  ghost predicate CountsOk(options: Options, s: Racing, tried: seq<Tried>, eventId: nat) {
    && Chained(tried)
    && (forall w :: w in s.workers && s.workers[w].Trying? && s.workers[w].eventId == eventId ==>
                      eventId in s.deliveries && Countable(tried, s.workers[w].attemptsRead))
    && (eventId !in s.deliveries ==> tried == [])
    && (eventId in s.deliveries && s.deliveries[eventId].recipient != "" ==>
          (s.deliveries[eventId].state == Pending <==> !Closed(options, tried)))
    && (eventId in s.deliveries && s.deliveries[eventId].state == Pending ==> Countable(tried, s.deliveries[eventId].attempts))
  }

  lemma SettlingKeepsCounts(options: Options, s: Racing, tried: seq<Tried>, step: RaceStep, eventId: nat)
    requires CountsOk(options, s, tried, eventId) && Settles(s, step, eventId)
    ensures CountsOk(options, RaceNext(options, s, step),
                     tried + [Tried(s.workers[step.worker].attemptsRead, Processing(step.delivered, step.now))], eventId)
  {
    var t := Tried(s.workers[step.worker].attemptsRead, Processing(step.delivered, step.now));
    var s' := RaceNext(options, s, step);
    ChainedLater(tried, t);
    ClosedLater(options, tried, t);
    forall w | w in s'.workers && s'.workers[w].Trying? && s'.workers[w].eventId == eventId
      ensures Countable(tried + [t], s'.workers[w].attemptsRead)
    {
      assert w != step.worker;
      CountableLater(tried, t, s.workers[w].attemptsRead);
    }
    if !step.delivered {
      assert (tried + [t])[|tried|] == t;
      assert Countable(tried + [t], t.read + 1);
    }
  }

  lemma OtherStepsKeepCounts(options: Options, s: Racing, tried: seq<Tried>, step: RaceStep, eventId: nat)
    requires CountsOk(options, s, tried, eventId) && !Settles(s, step, eventId)
    ensures CountsOk(options, RaceNext(options, s, step), tried, eventId)
  {
  }

  lemma {:induction false} RunsKeepCounts(options: Options, steps: seq<RaceStep>, eventId: nat)
    ensures CountsOk(options, Race(options, steps), TriedOf(options, steps, eventId), eventId)
  {
    if steps != [] {
      var init, last := steps[..|steps| - 1], steps[|steps| - 1];
      RunsKeepCounts(options, init, eventId);
      if Settles(Race(options, init), last, eventId) {
        SettlingKeepsCounts(options, Race(options, init), TriedOf(options, init, eventId), last, eventId);
      } else {
        OtherStepsKeepCounts(options, Race(options, init), TriedOf(options, init, eventId), last, eventId);
      }
    }
  }

  // ---------------------------------------------------------------------------
  // When the attempts run out

  /** No processing came between another's read and its settlement. */
  ghost predicate NoOverlap(tried: seq<Tried>) {
    forall k :: 0 <= k < |tried| ==> tried[k].read == k
  }

  ghost predicate NoneDelivered(tried: seq<Tried>) {
    forall k :: 0 <= k < |tried| ==> !tried[k].processing.delivered
  }

  /** The k-th processing read at most k, and read k only if none before it overlapped. */
  lemma {:induction false} ReadsLag(tried: seq<Tried>, k: nat)
    requires Chained(tried) && k < |tried|
    ensures tried[k].read <= k
    ensures tried[k].read == k ==> NoOverlap(tried[..k + 1])
    decreases k
  {
    assert Countable(tried[..k], tried[k].read);
    if tried[k].read != 0 {
      var j :| 0 <= j < k && tried[k].read == tried[..k][j].read + 1;
      ReadsLag(tried, j);
      if tried[k].read == k {
        assert j == k - 1;
        forall i | 0 <= i <= k ensures tried[i].read == i {
          if i < k {
            assert tried[..j + 1][i] == tried[i];
          }
        }
      }
    }
  }

  /**
   However sweeps race, a row that was claimed for delivery is settled exactly when some processing of
   it delivered, or failed from the count maxAttempts - 1.
   */
  lemma SettledByItsProcessings(options: Options, steps: seq<RaceStep>, eventId: nat)
    requires eventId in Race(options, steps).deliveries && Race(options, steps).deliveries[eventId].recipient != ""
    ensures Race(options, steps).deliveries[eventId].state != Pending <==> Closed(options, TriedOf(options, steps, eventId))
    ensures Chained(TriedOf(options, steps, eventId))
  {
    RunsKeepCounts(options, steps, eventId);
  }

  /**
   By its maxAttempts-th processing a row is settled if and only if one of them delivered or no two of
   them overlapped. Fewer never settle it unless one delivered.
   */
  lemma SettledIffNoOverlap(options: Options, steps: seq<RaceStep>, eventId: nat)
    requires options.maxAttempts >= 1
    requires eventId in Race(options, steps).deliveries && Race(options, steps).deliveries[eventId].recipient != ""
    ensures var tried, state := TriedOf(options, steps, eventId), Race(options, steps).deliveries[eventId].state;
            && (|tried| == options.maxAttempts ==> (state != Pending <==> !NoneDelivered(tried) || NoOverlap(tried)))
            && (|tried| < options.maxAttempts ==> (state != Pending <==> !NoneDelivered(tried)))
  {
    var tried := TriedOf(options, steps, eventId);
    SettledByItsProcessings(options, steps, eventId);
    if |tried| <= options.maxAttempts && NoneDelivered(tried) {
      if Closed(options, tried) {
        var k :| 0 <= k < |tried| && Closes(options, tried[k]);
        ReadsLag(tried, k);
        assert tried[..k + 1] == tried;
      }
      if |tried| == options.maxAttempts && NoOverlap(tried) {
        assert Closes(options, tried[|tried| - 1]);
      }
    } else if !NoneDelivered(tried) {
      var k :| 0 <= k < |tried| && tried[k].processing.delivered;
      assert Closes(options, tried[k]);
    }
  }

  /** One more processing that read the current count carries the serial row on. */
  lemma SerialStep(options: Options, row: Delivery, tried: seq<Tried>, t: Tried)
    requires options.maxAttempts >= 1 && row.state == Pending && row.attempts == 0 && t.read == |tried|
    ensures var before := Serial(options, row, Processings(tried));
            Serial(options, row, Processings(tried + [t])) == SettledRow(options, before, t.read, t.processing.delivered, t.processing.settledAt)
  {
    assert (tried + [t])[..|tried|] == tried;
    SerialOneMore(options, row, Processings(tried), t.processing);
    SettlesWithinMaxAttempts(options, row, Processings(tried));
  }

  /** What one step of a run does to a row that is already there. */
  lemma RowStep(options: Options, s: Racing, step: RaceStep, eventId: nat)
    requires eventId in s.deliveries
    ensures eventId in RaceNext(options, s, step).deliveries
    ensures RaceNext(options, s, step).deliveries[eventId]
            == if Settles(s, step, eventId)
               then SettledRow(options, s.deliveries[eventId], s.workers[step.worker].attemptsRead, step.delivered, step.now)
               else s.deliveries[eventId]
  {
  }

  /** A row appears as a claim inserts it. */
  lemma RowAppears(options: Options, s: Racing, step: RaceStep, eventId: nat) returns (claimedAt: int)
    requires eventId !in s.deliveries && eventId in RaceNext(options, s, step).deliveries
    ensures var row := RaceNext(options, s, step).deliveries[eventId];
            row == NewRow(row.itemId, row.recipient, claimedAt)
  {
    claimedAt := step.now;
  }

  /** Without overlap the row is what its processings make of it one after another. */
  lemma {:induction false} NoOverlapIsSerial(options: Options, steps: seq<RaceStep>, eventId: nat) returns (claimedAt: int)
    requires options.maxAttempts >= 1 && NoOverlap(TriedOf(options, steps, eventId))
    requires eventId in Race(options, steps).deliveries && Race(options, steps).deliveries[eventId].recipient != ""
    ensures var row := Race(options, steps).deliveries[eventId];
            row == Serial(options, NewRow(row.itemId, row.recipient, claimedAt), Processings(TriedOf(options, steps, eventId)))
  {
    var init, last := steps[..|steps| - 1], steps[|steps| - 1];
    var s, tried := Race(options, init), TriedOf(options, init, eventId);
    if eventId in s.deliveries {
      RowStep(options, s, last, eventId);
      PrefixHasNoOverlap(TriedOf(options, steps, eventId), tried);
      claimedAt := NoOverlapIsSerial(options, init, eventId);
      if Settles(s, last, eventId) {
        var t := Tried(s.workers[last.worker].attemptsRead, Processing(last.delivered, last.now));
        assert TriedOf(options, steps, eventId)[|tried|] == t;
        SerialStep(options, NewRow(s.deliveries[eventId].itemId, s.deliveries[eventId].recipient, claimedAt), tried, t);
      }
    } else {
      claimedAt := RowAppears(options, s, last, eventId);
      RunsKeepCounts(options, init, eventId);
      assert !Settles(s, last, eventId);
    }
  }

  /** So in a run whose processings of the row do not overlap, the delays they schedule are bounded in all. */
  lemma DelayIsBoundedWithoutOverlap(options: Options, steps: seq<RaceStep>, eventId: nat) returns (claimedAt: int)
    requires options.maxAttempts >= 1 && options.backoffBaseMs >= 0 && NoOverlap(TriedOf(options, steps, eventId))
    requires eventId in Race(options, steps).deliveries && Race(options, steps).deliveries[eventId].recipient != ""
    ensures var row := Race(options, steps).deliveries[eventId];
            var start, processings := NewRow(row.itemId, row.recipient, claimedAt), Processings(TriedOf(options, steps, eventId));
            && row == Serial(options, start, processings)
            && ScheduledDelay(options, start, processings) <= options.backoffBaseMs * (PowerOfTwo(options.maxAttempts - 1) - 1)
  {
    claimedAt := NoOverlapIsSerial(options, steps, eventId);
    var row := Race(options, steps).deliveries[eventId];
    TotalDelayBound(options, NewRow(row.itemId, row.recipient, claimedAt), Processings(TriedOf(options, steps, eventId)));
  }

  lemma PrefixHasNoOverlap(tried: seq<Tried>, prefix: seq<Tried>)
    requires prefix <= tried && NoOverlap(tried)
    ensures NoOverlap(prefix)
  {
    forall k | 0 <= k < |prefix| ensures prefix[k].read == k {
      assert prefix[k] == tried[k];
    }
  }

  lemma SerialOneMore(options: Options, row: Delivery, processings: seq<Processing>, p: Processing)
    ensures var before := Serial(options, row, processings);
            Serial(options, row, processings + [p]) == SettledRow(options, before, before.attempts, p.delivered, p.settledAt)
  {
    assert (processings + [p])[..|processings|] == processings;
  }

  // ---------------------------------------------------------------------------
  // Overlap in practice

  /** A booking is made and confirmed; its third event is the confirmation, claimed for delivery. */
  const CLAIMED: seq<RaceStep> := [
    Others(Create(CreateInput("C1", None, None, Money(900, "SAR"), Money(1000, "SAR"), Policy(true, [])), 0, 0)),
    Others(Move(0, ItemState.Reserved, TransitionContext(Quoted, NO_PATCH, None, 1, 1))),
    Others(Move(0, ItemState.Confirmed, TransitionContext(ItemState.Reserved, NO_PATCH, None, 2, 2))),
    Claim(0, 2, "guest", 10)
  ]

  /** The row of the confirmation, with so many attempts counted, and nothing else. */
  predicate OnlyRow(s: Racing, attempts: nat, nextAttemptAt: int) {
    s.deliveries == map[2 := Delivery(0, "guest", Pending, attempts, Some(nextAttemptAt))]
  }

  /** The row of that event just claimed and not tried yet. */
  predicate Fresh(options: Options, steps: seq<RaceStep>) {
    OnlyRow(Race(options, steps), 0, 10) && Race(options, steps).workers == map[] && TriedOf(options, steps, 2) == []
  }

  lemma ConfirmedAfterThree(ops: seq<Op>)
    requires ops == [CLAIMED[0].op, CLAIMED[1].op, CLAIMED[2].op]
    ensures ConfirmedEvent(Run(EMPTY_DB, ops), 2) && Run(EMPTY_DB, ops).outbox[2].itemId == 0
  {
    var a, b, c := CLAIMED[0].op, CLAIMED[1].op, CLAIMED[2].op;
    OneStepRun(EMPTY_DB, a);
    RunAppend(EMPTY_DB, [a], b);
    assert [a] + [b] == [a, b];
    RunAppend(EMPTY_DB, [a, b], c);
    assert [a, b] + [c] == ops;
    var db1 := Apply(EMPTY_DB, a);
    assert 0 in db1.items && db1.items[0].state == Quoted && |db1.outbox| == 1;
    var db2 := Apply(db1, b);
    assert 0 in db2.items && db2.items[0].state == ItemState.Reserved && |db2.outbox| == 2;
  }

  lemma ClaimedRow(options: Options)
    ensures Fresh(options, CLAIMED)
  {
    var s0 := Racing([], map[], map[], false);
    var c := CLAIMED;
    var ops := [c[0].op, c[1].op, c[2].op];
    assert c[..1] == [] + [c[0]] && c[..2] == c[..1] + [c[1]] && c[..3] == c[..2] + [c[2]] && c == c[..3] + [c[3]];
    RaceOneMore(options, s0, [], c[0]);
    RaceOneMore(options, s0, c[..1], c[1]);
    RaceOneMore(options, s0, c[..2], c[2]);
    RaceOneMore(options, s0, c[..3], c[3]);
    TriedOneMore(options, [], c[0], 2);
    TriedOneMore(options, c[..1], c[1], 2);
    TriedOneMore(options, c[..2], c[2], 2);
    TriedOneMore(options, c[..3], c[3], 2);
    assert Race(options, c[..3]).ops == ops;
    ConfirmedAfterThree(ops);
  }

  lemma TriedOneMore(options: Options, steps: seq<RaceStep>, step: RaceStep, eventId: nat)
    ensures var s := Race(options, steps);
            TriedOf(options, steps + [step], eventId)
            == TriedOf(options, steps, eventId)
               + if Settles(s, step, eventId) then [Tried(s.workers[step.worker].attemptsRead, Processing(step.delivered, step.now))] else []
  {
    assert (steps + [step])[..|steps + [step]| - 1] == steps;
  }

  /** Workers 0 to n - 1 read the row in the same instant. */
  function AllRead(base: seq<RaceStep>, n: nat): seq<RaceStep> {
    if n == 0 then base else AllRead(base, n - 1) + [ReadDue(n - 1, 2, 10)]
  }

  /** And then m of them fail. */
  function ThenFail(base: seq<RaceStep>, n: nat, m: nat): seq<RaceStep>
    requires m <= n
  {
    if m == 0 then AllRead(base, n) else ThenFail(base, n, m - 1) + [SettleRead(m - 1, false, 10)]
  }

  /** Of n workers all but the first m hold the count 0. */
  ghost predicate StillTrying(s: Racing, m: nat, n: nat) {
    && (forall w: nat :: w in s.workers <==> m <= w < n)
    && (forall w: nat :: m <= w < n ==> s.workers[w] == Trying(2, 0, 0))
  }

  lemma OneMoreReads(options: Options, s: Racing, n: nat)
    requires OnlyRow(s, 0, 10) && StillTrying(s, 0, n)
    ensures var s' := RaceNext(options, s, ReadDue(n, 2, 10));
            OnlyRow(s', 0, 10) && StillTrying(s', 0, n + 1)
  {
  }

  lemma OneMoreFails(options: Options, s: Racing, attempts: nat, at: int, m: nat, n: nat)
    requires OnlyRow(s, attempts, at) && StillTrying(s, m, n) && m < n && options.maxAttempts >= 2
    ensures Settles(s, SettleRead(m, false, 10), 2)
    ensures var s' := RaceNext(options, s, SettleRead(m, false, 10));
            OnlyRow(s', 1, 10 + options.backoffBaseMs) && StillTrying(s', m + 1, n)
  {
    assert options.backoffBaseMs * PowerOfTwo(0) == options.backoffBaseMs;
  }

  lemma {:induction false} AllHaveRead(options: Options, base: seq<RaceStep>, n: nat)
    requires Fresh(options, base)
    ensures OnlyRow(Race(options, AllRead(base, n)), 0, 10) && StillTrying(Race(options, AllRead(base, n)), 0, n)
  {
    if n > 0 {
      AllHaveRead(options, base, n - 1);
      RaceOneMore(options, Racing([], map[], map[], false), AllRead(base, n - 1), ReadDue(n - 1, 2, 10));
      OneMoreReads(options, Race(options, AllRead(base, n - 1)), n - 1);
    }
  }

  lemma {:induction false} ReadingTriesNothing(options: Options, base: seq<RaceStep>, n: nat)
    ensures TriedOf(options, AllRead(base, n), 2) == TriedOf(options, base, 2)
  {
    if n > 0 {
      ReadingTriesNothing(options, base, n - 1);
      TriedOneMore(options, AllRead(base, n - 1), ReadDue(n - 1, 2, 10), 2);
    }
  }

  lemma {:induction false} AllFailOnce(options: Options, base: seq<RaceStep>, n: nat, m: nat)
    requires Fresh(options, base) && options.maxAttempts >= 2 && m <= n
    ensures var s := Race(options, ThenFail(base, n, m));
            (if m == 0 then OnlyRow(s, 0, 10) else OnlyRow(s, 1, 10 + options.backoffBaseMs)) && StillTrying(s, m, n)
  {
    if m == 0 {
      AllHaveRead(options, base, n);
    } else {
      AllFailOnce(options, base, n, m - 1);
      var steps := ThenFail(base, n, m - 1);
      RaceOneMore(options, Racing([], map[], map[], false), steps, SettleRead(m - 1, false, 10));
      OneMoreFails(options, Race(options, steps), if m == 1 then 0 else 1, if m == 1 then 10 else 10 + options.backoffBaseMs, m - 1, n);
    }
  }

  lemma OneMoreTried(tried: seq<Tried>, t: Tried)
    requires NoneDelivered(tried) && !t.processing.delivered
    ensures NoneDelivered(tried + [t])
  {
  }

  lemma {:induction false} FailuresAreTried(options: Options, base: seq<RaceStep>, n: nat, m: nat)
    requires Fresh(options, base) && options.maxAttempts >= 2 && m <= n
    ensures |TriedOf(options, ThenFail(base, n, m), 2)| == m && NoneDelivered(TriedOf(options, ThenFail(base, n, m), 2))
  {
    if m == 0 {
      ReadingTriesNothing(options, base, n);
    } else {
      FailuresAreTried(options, base, n, m - 1);
      AllFailOnce(options, base, n, m - 1);
      var steps := ThenFail(base, n, m - 1);
      var s := Race(options, steps);
      assert Settles(s, SettleRead(m - 1, false, 10), 2);
      TriedOneMore(options, steps, SettleRead(m - 1, false, 10), 2);
      OneMoreTried(TriedOf(options, steps, 2), Tried(s.workers[m - 1].attemptsRead, Processing(false, 10)));
    }
  }

  /** Unless a single attempt is allowed, no number of failed processings is sure to settle a row. */
  lemma NoNumberOfFailuresSettles(options: Options, n: nat)
    requires options.maxAttempts >= 2
    ensures exists steps: seq<RaceStep> ::
              && 2 in Race(options, steps).deliveries && Race(options, steps).deliveries[2].state == Pending
              && |TriedOf(options, steps, 2)| == n && NoneDelivered(TriedOf(options, steps, 2))
  {
    ClaimedRow(options);
    AllFailOnce(options, CLAIMED, n, n);
    FailuresAreTried(options, CLAIMED, n, n);
    var steps := ThenFail(CLAIMED, n, n);
    assert 2 in Race(options, steps).deliveries && |TriedOf(options, steps, 2)| == n;
  }

  /** The instant the k-th retry falls due when each comes punctually. */
  function RetryAt(options: Options, k: nat): int {
    if k == 0 then 10 else RetryAt(options, k - 1) + options.backoffBaseMs * PowerOfTwo(k - 1)
  }

  /** Worker 0 reads the fresh row and stalls while worker 1 fails m times. */
  function Stalled(options: Options, base: seq<RaceStep>, m: nat): seq<RaceStep> {
    if m == 0 then base + [ReadDue(0, 2, 10)]
    else Stalled(options, base, m - 1) + [ReadDue(1, 2, RetryAt(options, m - 1))] + [SettleRead(1, false, RetryAt(options, m - 1))]
  }

  lemma OneFailureCounts(options: Options, s: Racing, attempts: nat, at: int)
    requires OnlyRow(s, attempts, at) && attempts + 1 < options.maxAttempts && s.workers == map[0 := Trying(2, 0, 0)]
    ensures var s' := RaceNext(options, RaceNext(options, s, ReadDue(1, 2, at)), SettleRead(1, false, at));
            OnlyRow(s', attempts + 1, at + options.backoffBaseMs * PowerOfTwo(attempts)) && s'.workers == s.workers
  {
  }

  lemma StaleFailure(options: Options, s: Racing, attempts: nat, at: int, now: int)
    requires OnlyRow(s, attempts, at) && options.maxAttempts >= 2 && s.workers == map[0 := Trying(2, 0, 0)]
    ensures OnlyRow(RaceNext(options, s, SettleRead(0, false, now)), 1, now + options.backoffBaseMs)
  {
    assert options.backoffBaseMs * PowerOfTwo(0) == options.backoffBaseMs;
  }

  lemma {:induction false} StalledClimbs(options: Options, base: seq<RaceStep>, m: nat)
    requires Fresh(options, base) && m < options.maxAttempts
    ensures OnlyRow(Race(options, Stalled(options, base, m)), m, RetryAt(options, m))
    ensures Race(options, Stalled(options, base, m)).workers == map[0 := Trying(2, 0, 0)]
  {
    var s0 := Racing([], map[], map[], false);
    if m == 0 {
      RaceOneMore(options, s0, base, ReadDue(0, 2, 10));
    } else {
      StalledClimbs(options, base, m - 1);
      var at := RetryAt(options, m - 1);
      var steps := Stalled(options, base, m - 1);
      RaceOneMore(options, s0, steps, ReadDue(1, 2, at));
      RaceOneMore(options, s0, steps + [ReadDue(1, 2, at)], SettleRead(1, false, at));
      OneFailureCounts(options, Race(options, steps), m - 1, at);
    }
  }

  /**
   And the count can go back: from any height it can have while pending, one stale failure returns it
   to one and restarts the backoff.
   */
  lemma StaleFailureRestartsTheCount(options: Options, m: nat, now: int)
    requires 1 <= m < options.maxAttempts
    ensures exists steps: seq<RaceStep> ::
              && OnlyRow(Race(options, steps), m, RetryAt(options, m))
              && OnlyRow(Race(options, steps + [SettleRead(0, false, now)]), 1, now + options.backoffBaseMs)
  {
    ClaimedRow(options);
    StalledClimbs(options, CLAIMED, m);
    var steps := Stalled(options, CLAIMED, m);
    RaceOneMore(options, Racing([], map[], map[], false), steps, SettleRead(0, false, now));
    StaleFailure(options, Race(options, steps), m, RetryAt(options, m), now);
  }
}
