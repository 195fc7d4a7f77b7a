/**
 Polling as runs of the database (packages/booking-engine/src/pending.ts): a sweep reads an item, asks
 the supplier and decides from the row it read, while other sweeps and writers commit. How many polls
 a wait takes, when that bound holds, and what a stale row can still do.
 */
module PollRuns {
  import opened BookingStates
  import opened CancellationPolicies
  import opened ItemRuns
  import opened Ledger
  import opened Money
  import opened PendingPoller
  import opened TransitionRunner
  import opened WaitingBooking
  import opened Wrappers

  // ---------------------------------------------------------------------------
  // Runs

  /** What a worker holds between its read of the item and its decision. */
  datatype Snapshot = Snapshot(row: ItemRow, readAt: int)

  /** A finished poll of the item. */
  datatype Poll = Poll(step: PollStep, outcome: Outcome)

  datatype Polling = Polling(db: Db, held: map<nat, Snapshot>, polls: seq<Poll>, now: int)

  datatype WaitStep =
    | Read(worker: nat, at: int)
    | Decide(worker: nat, answer: Answer, clock: PollClock)
    | Others(op: Op)
    | Crash(worker: nat)

  function DoRead(policy: BackoffPolicy, id: nat, s: Polling, worker: nat, at: int): Polling {
    if worker in s.held || at < s.now || id !in s.db.items || !Due(policy, s.db.items[id], at) then s
    else s.(held := s.held[worker := Snapshot(s.db.items[id], at)], now := at)
  }

  function DoDecide(policy: BackoffPolicy, id: nat, s: Polling, worker: nat, answer: Answer, clock: PollClock): Polling {
    if worker !in s.held || clock.now < s.now then s
    else
      var read := s.held[worker];
      var (db', outcome) := PollItem(s.db, id, read.row, answer, policy, clock);
      Polling(db', s.held - {worker}, s.polls + [Poll(PollStep(read.row, read.readAt, clock.now), outcome)], clock.now)
  }

  function WaitNext(policy: BackoffPolicy, id: nat, s: Polling, step: WaitStep): Polling {
    match step
    case Read(worker, at) => DoRead(policy, id, s, worker, at)
    case Decide(worker, answer, clock) => DoDecide(policy, id, s, worker, answer, clock)
    case Others(op) => s.(db := Apply(s.db, op))
    case Crash(worker) => s.(held := s.held - {worker})
  }

  function PollRun(policy: BackoffPolicy, id: nat, s: Polling, steps: seq<WaitStep>): Polling {
    if steps == [] then s else WaitNext(policy, id, PollRun(policy, id, s, steps[..|steps| - 1]), steps[|steps| - 1])
  }

  lemma PollRunOneMore(policy: BackoffPolicy, id: nat, s: Polling, steps: seq<WaitStep>, step: WaitStep)
    ensures PollRun(policy, id, s, steps + [step]) == WaitNext(policy, id, PollRun(policy, id, s, steps), step)
  {
    assert (steps + [step])[..|steps + [step]| - 1] == steps;
  }

  /** The poll left the wait going. */
  predicate Defers(outcome: Outcome) {
    outcome == StillPending || outcome == RetrieveFailedOutcome
  }

  ghost predicate Open(polls: seq<Poll>) {
    forall i :: 0 <= i < |polls| ==> Defers(polls[i].outcome) || polls[i].outcome == ErrorOutcome
  }

  /** The columns that say what an item waits for, since when, and how often it was polled. */
  predicate SameWait(a: ItemRow, b: ItemRow) {
    && a.state == b.state && a.pendingSince == b.pendingSince && a.cancellationRequestedAt == b.cancellationRequestedAt
    && a.createdAt == b.createdAt && a.pollAttempts == b.pollAttempts && a.nextPollAt == b.nextPollAt
  }

  /** One wait: no poll has ended it yet, and other writers leave its columns alone. */
  ghost predicate StaysInWait(id: nat, s: Polling, step: WaitStep) {
    && Open(s.polls)
    && (step.Others? ==>
          && id in s.db.items && id in Apply(s.db, step.op).items
          && SameWait(s.db.items[id], Apply(s.db, step.op).items[id]))
  }

  ghost predicate WaitRun(policy: BackoffPolicy, id: nat, s: Polling, steps: seq<WaitStep>) {
    steps == [] ||
    (var init := steps[..|steps| - 1];
     WaitRun(policy, id, s, init) && StaysInWait(id, PollRun(policy, id, s, init), steps[|steps| - 1]))
  }

  /** No worker reads the item while another is deciding on it. */
  ghost predicate OneAtATime(policy: BackoffPolicy, id: nat, s: Polling, steps: seq<WaitStep>) {
    steps == [] ||
    (var init := steps[..|steps| - 1];
     OneAtATime(policy, id, s, init) && (steps[|steps| - 1].Read? ==> PollRun(policy, id, s, init).held == map[]))
  }

  /** A wait that has begun and nobody has polled. */
  predicate Unpolled(id: nat, s: Polling) {
    && s.held == map[] && s.polls == [] && id in s.db.items
    && Waiting(s.db.items[id]) && WaitStartOf(s.db.items[id]) <= s.now
  }

  /** The polls that asked and could act on the answer, in the order they decided. */
  function Counted(polls: seq<Poll>): seq<PollStep> {
    if polls == [] then []
    else
      var init, last := Counted(polls[..|polls| - 1]), polls[|polls| - 1];
      if last.outcome == ErrorOutcome then init else init + [last.step]
  }

  lemma CountedOneMore(polls: seq<Poll>, poll: Poll)
    ensures Counted(polls + [poll]) == if poll.outcome == ErrorOutcome then Counted(polls) else Counted(polls) + [poll.step]
  {
    assert (polls + [poll])[..|polls|] == polls;
  }

  lemma OpenOneMore(polls: seq<Poll>, poll: Poll)
    ensures Open(polls + [poll]) <==> Open(polls) && (Defers(poll.outcome) || poll.outcome == ErrorOutcome)
  {
    var longer := polls + [poll];
    if Open(longer) {
      assert longer[|polls|] == poll;
      forall i | 0 <= i < |polls| ensures Defers(polls[i].outcome) || polls[i].outcome == ErrorOutcome {
        assert longer[i] == polls[i];
      }
    }
  }

  // ---------------------------------------------------------------------------
  // What one decision can do

  /** Only an inconclusive poll within the age limit defers; an error changes nothing. */
  lemma WhatAPollDoes(db: Db, id: nat, row: ItemRow, answer: Answer, policy: BackoffPolicy, clock: PollClock)
    ensures var (db', outcome) := PollItem(db, id, row, answer, policy, clock);
            && (Defers(outcome) ==>
                  row.supplierReference.Some? && WaitKindOf(row) != Reservation && Inconclusive(row, answer) && !Expired(policy, row, clock.now))
            && (outcome == ErrorOutcome || outcome == ConflictSkipped ==> db' == db)
            && (id in db.items ==> id in db'.items)
            && (outcome == WasEscalated && id in db.items ==> db'.items[id].escalatedAt.Some?)
  {
  }

  /** The row a wait goes on with after `history`: fresh, or what its last deferral left. */
  predicate GoesOn(policy: BackoffPolicy, start: ItemRow, history: seq<PollStep>, row: ItemRow) {
    && Waiting(row) && WaitKindOf(row) == WaitKindOf(start) && WaitStartOf(row) == WaitStartOf(start)
    && (if history == [] then row.pollAttempts == 0 else DeferredTo(policy, history[|history| - 1], row))
  }

  /** What was read can be the next poll of that history. */
  predicate CanFollow(policy: BackoffPolicy, start: ItemRow, history: seq<PollStep>, read: Snapshot) {
    && GoesOn(policy, start, history, read.row) && Due(policy, read.row, read.readAt)
    && WaitStartOf(start) <= read.readAt && (history != [] ==> history[|history| - 1].decidedAt <= read.readAt)
  }

  lemma HistoryGrows(policy: BackoffPolicy, start: ItemRow, history: seq<PollStep>, read: Snapshot, decidedAt: int)
    requires WaitHistory(policy, history) && CanFollow(policy, start, history, read) && read.readAt <= decidedAt
    ensures WaitHistory(policy, history + [PollStep(read.row, read.readAt, decidedAt)])
  {
    var longer := history + [PollStep(read.row, read.readAt, decidedAt)];
    forall i | 0 <= i < |longer| - 1
      ensures longer[i].decidedAt <= longer[i + 1].readAt && DeferredTo(policy, longer[i], longer[i + 1].row)
    {
      if i < |history| - 1 {
        assert longer[i] == history[i] && longer[i + 1] == history[i + 1];
      }
    }
  }

  /** The wait so far, polled by one worker at a time. */
  ghost predicate SerialOk(policy: BackoffPolicy, id: nat, start: ItemRow, s: Polling) {
    var history := Counted(s.polls);
    && id in s.db.items && WaitHistory(policy, history) && WaitStartOf(start) <= s.now
    && (history != [] ==> history[|history| - 1].decidedAt <= s.now)
    && (forall v, w :: v in s.held && w in s.held ==> v == w)
    && (forall w :: w in s.held ==> CanFollow(policy, start, history, s.held[w]) && s.held[w].readAt <= s.now)
    && (Open(s.polls) && s.db.items[id].escalatedAt.None? ==>
          GoesOn(policy, start, history, s.db.items[id]) && forall w :: w in s.held ==> SameWait(s.held[w].row, s.db.items[id]))
  }

  /** A deferral of the wait the item is in leaves the item where the longer history goes on. */
  lemma DeferralGoesOn(policy: BackoffPolicy, id: nat, start: ItemRow, history: seq<PollStep>, db: Db, read: Snapshot, answer: Answer, clock: PollClock)
    requires id in db.items && CanFollow(policy, start, history, read) && SameWait(read.row, db.items[id])
    requires Defers(PollItem(db, id, read.row, answer, policy, clock).1)
    ensures var db' := PollItem(db, id, read.row, answer, policy, clock).0;
            && id in db'.items
            && (db'.items[id].escalatedAt.None? ==>
                  GoesOn(policy, start, history + [PollStep(read.row, read.readAt, clock.now)], db'.items[id]))
  {
    WhatAPollDoes(db, id, read.row, answer, policy, clock);
    if db.items[id].escalatedAt.None? {
      DeferralContinuesTheWait(db, id, read.row, answer, policy, clock);
      var step := PollStep(read.row, read.readAt, clock.now);
      assert (history + [step])[|history + [step]| - 1] == step;
    }
  }

  /** A decision's database, outcome and instant, put into the run. */
  function Decided(s: Polling, worker: nat, db: Db, outcome: Outcome, now: int): Polling
    requires worker in s.held
  {
    Polling(db, s.held - {worker}, s.polls + [Poll(PollStep(s.held[worker].row, s.held[worker].readAt, now), outcome)], now)
  }

  lemma OneHolder(policy: BackoffPolicy, id: nat, start: ItemRow, s: Polling, worker: nat)
    requires SerialOk(policy, id, start, s) && worker in s.held
    ensures s.held - {worker} == map[] && CanFollow(policy, start, Counted(s.polls), s.held[worker])
    ensures s.held[worker].readAt <= s.now && WaitStartOf(start) <= s.now && WaitHistory(policy, Counted(s.polls))
    ensures var history := Counted(s.polls); history != [] ==> history[|history| - 1].decidedAt <= s.now
  {
    assert forall w :: w in s.held ==> w == worker;
  }

  /** A decision keeps the invariant if the item goes on where the history does, or the wait is over. */
  lemma DecisionKeeps(policy: BackoffPolicy, id: nat, start: ItemRow, s: Polling, worker: nat, db: Db, outcome: Outcome, now: int)
    requires SerialOk(policy, id, start, s) && Open(s.polls) && worker in s.held && s.now <= now && id in db.items
    requires var history := Counted(s.polls);
             var history' := if outcome == ErrorOutcome then history else history + [PollStep(s.held[worker].row, s.held[worker].readAt, now)];
             (Defers(outcome) || outcome == ErrorOutcome) && db.items[id].escalatedAt.None? ==> GoesOn(policy, start, history', db.items[id])
    ensures SerialOk(policy, id, start, Decided(s, worker, db, outcome, now))
  {
    var read, history := s.held[worker], Counted(s.polls);
    var poll := Poll(PollStep(read.row, read.readAt, now), outcome);
    OneHolder(policy, id, start, s, worker);
    CountedOneMore(s.polls, poll);
    OpenOneMore(s.polls, poll);
    HistoryGrows(policy, start, history, read, now);
  }

  lemma DecidingKeeps(policy: BackoffPolicy, id: nat, start: ItemRow, s: Polling, worker: nat, answer: Answer, clock: PollClock)
    requires SerialOk(policy, id, start, s) && worker in s.held && s.now <= clock.now && Open(s.polls)
    ensures SerialOk(policy, id, start, DoDecide(policy, id, s, worker, answer, clock))
  {
    var read, history := s.held[worker], Counted(s.polls);
    var (db', outcome) := PollItem(s.db, id, read.row, answer, policy, clock);
    WhatAPollDoes(s.db, id, read.row, answer, policy, clock);
    if Defers(outcome) && s.db.items[id].escalatedAt.None? {
      DeferralGoesOn(policy, id, start, history, s.db, read, answer, clock);
    } else if Defers(outcome) {
      StaysEscalated(s.db, id, read.row, answer, policy, clock);
    }
    DecisionKeeps(policy, id, start, s, worker, db', outcome, clock.now);
  }

  lemma StaysEscalated(db: Db, id: nat, row: ItemRow, answer: Answer, policy: BackoffPolicy, clock: PollClock)
    requires id in db.items && db.items[id].escalatedAt.Some?
    ensures var db' := PollItem(db, id, row, answer, policy, clock).0;
            id in db'.items && db'.items[id].escalatedAt.Some?
  {
  }

  lemma ReadingKeeps(policy: BackoffPolicy, id: nat, start: ItemRow, s: Polling, worker: nat, at: int)
    requires SerialOk(policy, id, start, s) && Open(s.polls) && s.held == map[]
    ensures SerialOk(policy, id, start, DoRead(policy, id, s, worker, at))
  {
  }

  lemma CrashingKeeps(policy: BackoffPolicy, id: nat, start: ItemRow, s: Polling, worker: nat)
    requires SerialOk(policy, id, start, s)
    ensures SerialOk(policy, id, start, s.(held := s.held - {worker}))
  {
  }

  lemma NewDbKeeps(policy: BackoffPolicy, id: nat, start: ItemRow, s: Polling, db: Db)
    requires SerialOk(policy, id, start, s) && id in db.items && SameWait(s.db.items[id], db.items[id])
    requires s.db.items[id].escalatedAt.Some? ==> db.items[id].escalatedAt.Some?
    ensures SerialOk(policy, id, start, s.(db := db))
  {
  }

  lemma OthersKeep(policy: BackoffPolicy, id: nat, start: ItemRow, s: Polling, op: Op)
    requires SerialOk(policy, id, start, s) && StaysInWait(id, s, Others(op))
    ensures SerialOk(policy, id, start, s.(db := Apply(s.db, op)))
  {
    OneOpClimbs(s.db, op, id);
    NewDbKeeps(policy, id, start, s, Apply(s.db, op));
  }

  lemma {:induction false} SerialRunsKeep(policy: BackoffPolicy, id: nat, s: Polling, steps: seq<WaitStep>)
    requires Unpolled(id, s) && s.db.items[id].pollAttempts == 0
    requires WaitRun(policy, id, s, steps) && OneAtATime(policy, id, s, steps)
    ensures SerialOk(policy, id, s.db.items[id], PollRun(policy, id, s, steps))
  {
    if steps != [] {
      var init, step := steps[..|steps| - 1], steps[|steps| - 1];
      SerialRunsKeep(policy, id, s, init);
      var mid := PollRun(policy, id, s, init);
      match step {
        case Others(op) => OthersKeep(policy, id, s.db.items[id], mid, op);
        case Read(worker, at) => ReadingKeeps(policy, id, s.db.items[id], mid, worker, at);
        case Crash(worker) => CrashingKeeps(policy, id, s.db.items[id], mid, worker);
        case Decide(worker, answer, clock) =>
          if worker in mid.held && mid.now <= clock.now {
            DecidingKeeps(policy, id, s.db.items[id], mid, worker, answer, clock);
          }
      }
    }
  }

  // ---------------------------------------------------------------------------
  // Polling is a run of operations

  /** However sweeps overlap, what they leave is what some operations leave. */
  lemma {:induction false} PollRunIsARun(policy: BackoffPolicy, id: nat, s: Polling, steps: seq<WaitStep>) returns (ops: seq<Op>)
    ensures PollRun(policy, id, s, steps).db == Run(s.db, ops)
  {
    ops := [];
    if steps != [] {
      var init, step := steps[..|steps| - 1], steps[|steps| - 1];
      var mid := PollRun(policy, id, s, init);
      var before := PollRunIsARun(policy, id, s, init);
      var more := StepIsARun(policy, id, mid, step);
      RunsCompose(s.db, before, more);
      ops := before + more;
    }
  }

  lemma StepIsARun(policy: BackoffPolicy, id: nat, s: Polling, step: WaitStep) returns (ops: seq<Op>)
    ensures WaitNext(policy, id, s, step).db == Run(s.db, ops)
  {
    ops := [];
    match step {
      case Others(op) =>
        OneStepRun(s.db, op);
        ops := [op];
      case Decide(worker, answer, clock) =>
        if worker in s.held && s.now <= clock.now {
          ops := PollIsARun(s.db, id, s.held[worker].row, answer, policy, clock);
        }
      case _ =>
    }
  }

  predicate SameSale(a: ItemRow, b: ItemRow) {
    a.policy == b.policy && a.sell == b.sell && a.currency == b.currency
  }

  /** The database is sound, every row read of the item is of the sale it started with, and no poll has erred. */
  ghost predicate NoErrorYet(id: nat, start: ItemRow, s: Polling) {
    && Inv(s.db) && id in s.db.items && SameSale(s.db.items[id], start)
    && (forall w :: w in s.held ==> SameSale(s.held[w].row, start))
    && (forall i :: 0 <= i < |s.polls| ==> s.polls[i].outcome != ErrorOutcome)
  }

  lemma NewDbIsAsSound(policy: BackoffPolicy, id: nat, start: ItemRow, s: Polling, step: WaitStep)
    requires NoErrorYet(id, start, s)
    ensures var db := WaitNext(policy, id, s, step).db;
            Inv(db) && id in db.items && SameSale(db.items[id], start)
  {
    var ops := StepIsARun(policy, id, s, step);
    RunFromKeepsInv(s.db, ops);
    ItemsOnlyClimb(s.db, ops, id);
  }

  lemma StillNoError(policy: BackoffPolicy, id: nat, start: ItemRow, s: Polling, step: WaitStep)
    requires NoErrorYet(id, start, s) && ValidPolicy(start.policy) && ValidMoney(Money(start.sell, start.currency))
    ensures var s' := WaitNext(policy, id, s, step);
            && (forall w :: w in s'.held ==> SameSale(s'.held[w].row, start))
            && (forall i :: 0 <= i < |s'.polls| ==> s'.polls[i].outcome != ErrorOutcome)
  {
    if step.Decide? && step.worker in s.held && s.now <= step.clock.now {
      PollsErrOnlyOnInvalidPolicies(s.db, id, s.held[step.worker].row, step.answer, policy, step.clock);
    }
  }

  /** No poll of an item with a valid policy errs, in any run from a reachable database. */
  lemma {:induction false} ValidPoliciesNeverErr(policy: BackoffPolicy, id: nat, s: Polling, steps: seq<WaitStep>)
    requires s.held == map[] && s.polls == [] && Inv(s.db) && id in s.db.items && ValidPolicy(s.db.items[id].policy)
    ensures NoErrorYet(id, s.db.items[id], PollRun(policy, id, s, steps))
    ensures forall i :: 0 <= i < |PollRun(policy, id, s, steps).polls| ==> PollRun(policy, id, s, steps).polls[i].outcome != ErrorOutcome
  {
    if steps != [] {
      var init, step := steps[..|steps| - 1], steps[|steps| - 1];
      ValidPoliciesNeverErr(policy, id, s, init);
      assert ItemInv(s.db, id);
      NewDbIsAsSound(policy, id, s.db.items[id], PollRun(policy, id, s, init), step);
      StillNoError(policy, id, s.db.items[id], PollRun(policy, id, s, init), step);
    }
  }

  lemma {:induction false} AllAreCounted(polls: seq<Poll>)
    requires forall i :: 0 <= i < |polls| ==> polls[i].outcome != ErrorOutcome
    ensures |Counted(polls)| == |polls|
  {
    if polls != [] {
      AllAreCounted(polls[..|polls| - 1]);
    }
  }

  // ---------------------------------------------------------------------------
  // Every wait ends

  /**
   While reads and decisions on an item do not overlap, a wait takes at most n + 1 polls when n delays
   exceed the age limit, whoever writes the rest of the item meanwhile; the (n + 1)-th is past the limit.
   On a reachable database and with a valid policy these are all its polls; otherwise those that do not err.
   */
  lemma SerialWaitsEnd(policy: BackoffPolicy, id: nat, s: Polling, steps: seq<WaitStep>, n: nat)
    requires Unpolled(id, s) && s.db.items[id].pollAttempts == 0
    requires WaitRun(policy, id, s, steps) && OneAtATime(policy, id, s, steps)
    requires DelaySum(policy, n) > policy.maxPendingAgeMs
    ensures var counted := Counted(PollRun(policy, id, s, steps).polls);
            |counted| <= n + 1 && (|counted| == n + 1 ==> Expired(policy, counted[n].row, counted[n].decidedAt))
    ensures Inv(s.db) && ValidPolicy(s.db.items[id].policy) ==>
              |PollRun(policy, id, s, steps).polls| == |Counted(PollRun(policy, id, s, steps).polls)| <= n + 1
  {
    SerialRunsKeep(policy, id, s, steps);
    EveryWaitEnds(policy, Counted(PollRun(policy, id, s, steps).polls), n);
    if Inv(s.db) && ValidPolicy(s.db.items[id].policy) {
      ValidPoliciesNeverErr(policy, id, s, steps);
      AllAreCounted(PollRun(policy, id, s, steps).polls);
    }
  }

  /** With positive base and cap and factor at least one there is such an n, whatever the wait. */
  lemma WaitsAreBounded(policy: BackoffPolicy, id: nat, s: Polling, steps: seq<WaitStep>)
    requires policy.baseMs > 0 && policy.capMs > 0 && policy.factor >= 1.0
    requires Unpolled(id, s) && s.db.items[id].pollAttempts == 0
    requires WaitRun(policy, id, s, steps) && OneAtATime(policy, id, s, steps)
    ensures |Counted(PollRun(policy, id, s, steps).polls)| <= RoundsFrom(policy, 0) + 1
    ensures Inv(s.db) && ValidPolicy(s.db.items[id].policy) ==> |PollRun(policy, id, s, steps).polls| <= RoundsFrom(policy, 0) + 1
  {
    SerialWaitsEnd(policy, id, s, steps, RoundsFrom(policy, 0));
  }

  lemma DefaultPolicyPollsAtMostEightTimes(id: nat, s: Polling, steps: seq<WaitStep>)
    requires Unpolled(id, s) && s.db.items[id].pollAttempts == 0
    requires WaitRun(DEFAULT_PENDING_BACKOFF, id, s, steps) && OneAtATime(DEFAULT_PENDING_BACKOFF, id, s, steps)
    ensures |Counted(PollRun(DEFAULT_PENDING_BACKOFF, id, s, steps).polls)| <= 8
    ensures Inv(s.db) && ValidPolicy(s.db.items[id].policy) ==> |PollRun(DEFAULT_PENDING_BACKOFF, id, s, steps).polls| <= 8
  {
    DefaultDelays();
    SerialWaitsEnd(DEFAULT_PENDING_BACKOFF, id, s, steps, 7);
  }

  // ---------------------------------------------------------------------------
  // The bound is attained

  /** The item as k punctual deferrals leave it. */
  function AfterDeferrals(policy: BackoffPolicy, item: ItemRow, k: nat): ItemRow {
    if k == 0 then item else item.(pollAttempts := k, nextPollAt := Some(WaitStartOf(item) + DelaySum(policy, k)))
  }

  /** A wait at its very start, due at once. */
  predicate JustBegun(id: nat, s: Polling) {
    && Unpolled(id, s)
    && var item := s.db.items[id];
       && item.pollAttempts == 0 && item.supplierReference.Some? && item.escalatedAt.None? && WaitStartOf(item) == s.now
       && (item.nextPollAt.Some? ==> item.nextPollAt.value <= s.now)
  }

  /** A step taken in a wait one poll at a time extends such a run. */
  lemma RunGrows(policy: BackoffPolicy, id: nat, s: Polling, steps: seq<WaitStep>, step: WaitStep)
    requires WaitRun(policy, id, s, steps) && OneAtATime(policy, id, s, steps)
    requires StaysInWait(id, PollRun(policy, id, s, steps), step)
    requires step.Read? ==> PollRun(policy, id, s, steps).held == map[]
    ensures WaitRun(policy, id, s, steps + [step]) && OneAtATime(policy, id, s, steps + [step])
  {
    assert (steps + [step])[..|steps + [step]| - 1] == steps;
  }

  /** One punctual read and failed retrieve. */
  lemma PunctualRound(policy: BackoffPolicy, id: nat, s: Polling, at: int)
    requires s.held == map[] && id in s.db.items && at >= s.now && Waiting(s.db.items[id]) && Due(policy, s.db.items[id], at)
    requires s.db.items[id].supplierReference.Some?
    ensures var item := s.db.items[id];
            var s1 := WaitNext(policy, id, s, Read(0, at));
            var s2 := WaitNext(policy, id, s1, Decide(0, RetrieveFailed, PollClock(at, at, 0)));
            && s1 == s.(held := map[0 := Snapshot(item, at)], now := at)
            && s2.held == map[] && s2.now == at && id in s2.db.items
            && s2.polls == s.polls + [Poll(PollStep(item, at, at), if Expired(policy, item, at) then WasEscalated else RetrieveFailedOutcome)]
            && (if Expired(policy, item, at) then s2.db.items[id].escalatedAt.Some?
                else s2.db.items[id] == item.(pollAttempts := item.pollAttempts + 1, nextPollAt := Some(at + BackoffDelayMs(policy, item.pollAttempts))))
  {
    var s1 := WaitNext(policy, id, s, Read(0, at));
    assert s1.held - {0} == map[];
  }

  /** A run that can be extended by one more punctual poll. */
  ghost predicate Resting(policy: BackoffPolicy, id: nat, s: Polling, steps: seq<WaitStep>) {
    var s' := PollRun(policy, id, s, steps);
    && WaitRun(policy, id, s, steps) && OneAtATime(policy, id, s, steps)
    && s'.held == map[] && Open(s'.polls) && id in s'.db.items
  }

  /** After k polls it rests, the item as `row` and the clock not past `at`. */
  ghost predicate RestsOn(policy: BackoffPolicy, id: nat, s: Polling, steps: seq<WaitStep>, k: nat, row: ItemRow, at: int) {
    var s' := PollRun(policy, id, s, steps);
    Resting(policy, id, s, steps) && |Counted(s'.polls)| == k && s'.db.items[id] == row && s'.now <= at
  }

  function DeferredRow(policy: BackoffPolicy, row: ItemRow, at: int): ItemRow {
    row.(pollAttempts := row.pollAttempts + 1, nextPollAt := Some(at + BackoffDelayMs(policy, row.pollAttempts)))
  }

  lemma RoundExtendsTheRun(policy: BackoffPolicy, id: nat, s: Polling, steps: seq<WaitStep>, k: nat, row: ItemRow, at: int)
    returns (longer: seq<WaitStep>)
    requires RestsOn(policy, id, s, steps, k, row, at)
    requires Waiting(row) && Due(policy, row, at) && row.supplierReference.Some?
    ensures var s' := PollRun(policy, id, s, longer);
            && WaitRun(policy, id, s, longer) && OneAtATime(policy, id, s, longer) && |Counted(s'.polls)| == k + 1
            && id in s'.db.items && (Expired(policy, row, at) ==> s'.db.items[id].escalatedAt.Some?)
    ensures !Expired(policy, row, at) ==> RestsOn(policy, id, s, longer, k + 1, DeferredRow(policy, row, at), at)
  {
    var mid := PollRun(policy, id, s, steps);
    var read, decide := Read(0, at), Decide(0, RetrieveFailed, PollClock(at, at, 0));
    var poll := Poll(PollStep(row, at, at), if Expired(policy, row, at) then WasEscalated else RetrieveFailedOutcome);
    PunctualRound(policy, id, mid, at);
    RunGrows(policy, id, s, steps, read);
    PollRunOneMore(policy, id, s, steps, read);
    RunGrows(policy, id, s, steps + [read], decide);
    PollRunOneMore(policy, id, s, steps + [read], decide);
    CountedOneMore(mid.polls, poll);
    OpenOneMore(mid.polls, poll);
    longer := steps + [read] + [decide];
  }

  lemma PunctualPollIsDue(policy: BackoffPolicy, item: ItemRow, k: nat)
    requires Waiting(item) && item.escalatedAt.None? && (item.nextPollAt.Some? ==> item.nextPollAt.value <= WaitStartOf(item))
    requires item.pollAttempts == 0 && policy.baseMs > 0 && policy.capMs > 0 && policy.factor >= 1.0
    ensures var row, at := AfterDeferrals(policy, item, k), WaitStartOf(item) + DelaySum(policy, k);
            && Waiting(row) && Due(policy, row, at) && row.supplierReference == item.supplierReference
            && (Expired(policy, row, at) <==> DelaySum(policy, k) > policy.maxPendingAgeMs)
            && DeferredRow(policy, row, at) == AfterDeferrals(policy, item, k + 1)
            && DelaySum(policy, k) <= DelaySum(policy, k + 1)
  {
    DelayIsPositive(policy, k);
  }

  lemma RestsLater(policy: BackoffPolicy, id: nat, s: Polling, steps: seq<WaitStep>, k: nat, row: ItemRow, at: int, later: int)
    requires RestsOn(policy, id, s, steps, k, row, at) && at <= later
    ensures RestsOn(policy, id, s, steps, k, row, later)
  {
  }

  lemma NothingPolledYet(policy: BackoffPolicy, id: nat, s: Polling)
    requires JustBegun(id, s)
    ensures RestsOn(policy, id, s, [], 0, s.db.items[id], s.now)
  {
  }

  lemma DelaysGrow(policy: BackoffPolicy, k: nat)
    requires policy.baseMs > 0 && policy.capMs > 0 && policy.factor >= 1.0
    ensures DelaySum(policy, k) <= DelaySum(policy, k + 1)
  {
    DelayIsPositive(policy, k);
  }

  /** One more poll of a row due at `at`, whatever it is and whenever that is. */
  lemma RestsOnceMore(policy: BackoffPolicy, id: nat, s: Polling, init: seq<WaitStep>, k: nat, row: ItemRow, at: int, next: ItemRow, later: int)
    returns (steps: seq<WaitStep>)
    requires RestsOn(policy, id, s, init, k, row, at)
    requires Waiting(row) && Due(policy, row, at) && row.supplierReference.Some? && !Expired(policy, row, at)
    requires next == DeferredRow(policy, row, at) && at <= later
    ensures RestsOn(policy, id, s, steps, k + 1, next, later)
  {
    steps := RoundExtendsTheRun(policy, id, s, init, k, row, at);
    RestsLater(policy, id, s, steps, k + 1, next, at, later);
  }

  lemma OneMorePunctual(policy: BackoffPolicy, id: nat, s: Polling, init: seq<WaitStep>, k: nat) returns (steps: seq<WaitStep>)
    requires policy.baseMs > 0 && policy.capMs > 0 && policy.factor >= 1.0 && JustBegun(id, s)
    requires DelaySum(policy, k) <= policy.maxPendingAgeMs
    requires RestsOn(policy, id, s, init, k, AfterDeferrals(policy, s.db.items[id], k), s.now + DelaySum(policy, k))
    ensures RestsOn(policy, id, s, steps, k + 1, AfterDeferrals(policy, s.db.items[id], k + 1), s.now + DelaySum(policy, k + 1))
  {
    PunctualPollIsDue(policy, s.db.items[id], k);
    steps := RestsOnceMore(policy, id, s, init, k, AfterDeferrals(policy, s.db.items[id], k), s.now + DelaySum(policy, k),
                           AfterDeferrals(policy, s.db.items[id], k + 1), s.now + DelaySum(policy, k + 1));
  }

  /** k punctual polls leave the wait due again at the k-th delay sum. */
  lemma {:induction false} PunctualPolls(policy: BackoffPolicy, id: nat, s: Polling, k: nat) returns (steps: seq<WaitStep>)
    requires policy.baseMs > 0 && policy.capMs > 0 && policy.factor >= 1.0 && JustBegun(id, s)
    requires k > 0 ==> DelaySum(policy, k - 1) <= policy.maxPendingAgeMs
    ensures RestsOn(policy, id, s, steps, k, AfterDeferrals(policy, s.db.items[id], k), s.now + DelaySum(policy, k))
  {
    if k == 0 {
      NothingPolledYet(policy, id, s);
      steps := [];
    } else {
      if k > 1 {
        DelaysGrow(policy, k - 2);
      }
      var init := PunctualPolls(policy, id, s, k - 1);
      steps := OneMorePunctual(policy, id, s, init, k - 1);
    }
  }

  /** The bound is attained from every fresh wait: when no retrieve succeeds, punctual polling polls exactly n + 1 times and escalates. */
  lemma TheBoundIsAttained(policy: BackoffPolicy, id: nat, s: Polling)
    requires policy.baseMs > 0 && policy.capMs > 0 && policy.factor >= 1.0 && JustBegun(id, s)
    ensures exists steps: seq<WaitStep> ::
              && WaitRun(policy, id, s, steps) && OneAtATime(policy, id, s, steps)
              && |Counted(PollRun(policy, id, s, steps).polls)| == RoundsFrom(policy, 0) + 1
              && id in PollRun(policy, id, s, steps).db.items && PollRun(policy, id, s, steps).db.items[id].escalatedAt.Some?
  {
    var n := RoundsFrom(policy, 0);
    var init := PunctualPolls(policy, id, s, n);
    PunctualPollIsDue(policy, s.db.items[id], n);
    var steps := RoundExtendsTheRun(policy, id, s, init, n, AfterDeferrals(policy, s.db.items[id], n), s.now + DelaySum(policy, n));
    assert WaitRun(policy, id, s, steps);
  }

  // ---------------------------------------------------------------------------
  // Overlapping polls

  /** No poll has settled the wait, and other writers leave its columns alone; sweeps may overlap. */
  ghost predicate Unsettled(polls: seq<Poll>) {
    forall i :: 0 <= i < |polls| ==> polls[i].outcome !in {TransitionedConfirmed, TransitionedCancelled}
  }

  ghost predicate KeptRun(policy: BackoffPolicy, id: nat, s: Polling, steps: seq<WaitStep>) {
    steps == [] ||
    (var init, step := steps[..|steps| - 1], steps[|steps| - 1];
     var mid := PollRun(policy, id, s, init);
     && KeptRun(policy, id, s, init) && Unsettled(mid.polls)
     && (step.Others? ==>
           id in mid.db.items && id in Apply(mid.db, step.op).items && SameWait(mid.db.items[id], Apply(mid.db, step.op).items[id])))
  }

  /** The item waits for the same thing since the same instant. */
  predicate SameAnchor(a: ItemRow, b: ItemRow) {
    WaitKindOf(a) == WaitKindOf(b) && WaitStartOf(a) == WaitStartOf(b)
  }

  ghost predicate AnchorsOk(policy: BackoffPolicy, id: nat, start: ItemRow, s: Polling) {
    && id in s.db.items && (Unsettled(s.polls) ==> SameAnchor(s.db.items[id], start))
    && (forall w :: w in s.held ==> SameAnchor(s.held[w].row, start))
    && (forall i :: 0 <= i < |s.polls| ==>
          && SameAnchor(s.polls[i].step.row, start)
          && (Defers(s.polls[i].outcome) ==> s.polls[i].step.decidedAt <= WaitStartOf(start) + policy.maxPendingAgeMs))
  }

  lemma UnsettledPollsKeepTheAnchor(db: Db, id: nat, row: ItemRow, answer: Answer, policy: BackoffPolicy, clock: PollClock)
    requires id in db.items && PollItem(db, id, row, answer, policy, clock).1 !in {TransitionedConfirmed, TransitionedCancelled}
    ensures var db' := PollItem(db, id, row, answer, policy, clock).0;
            id in db'.items && SameAnchor(db'.items[id], db.items[id])
  {
  }

  lemma DecidingKeepsAnchors(policy: BackoffPolicy, id: nat, start: ItemRow, s: Polling, worker: nat, answer: Answer, clock: PollClock)
    requires AnchorsOk(policy, id, start, s) && Unsettled(s.polls) && worker in s.held && s.now <= clock.now
    ensures AnchorsOk(policy, id, start, DoDecide(policy, id, s, worker, answer, clock))
  {
    var read := s.held[worker];
    var outcome := PollItem(s.db, id, read.row, answer, policy, clock).1;
    var poll := Poll(PollStep(read.row, read.readAt, clock.now), outcome);
    WhatAPollDoes(s.db, id, read.row, answer, policy, clock);
    if outcome !in {TransitionedConfirmed, TransitionedCancelled} {
      UnsettledPollsKeepTheAnchor(s.db, id, read.row, answer, policy, clock);
    } else {
      assert (s.polls + [poll])[|s.polls|] == poll;
    }
  }

  lemma {:induction false} KeptRunsKeepAnchors(policy: BackoffPolicy, id: nat, s: Polling, steps: seq<WaitStep>)
    requires Unpolled(id, s) && KeptRun(policy, id, s, steps)
    ensures AnchorsOk(policy, id, s.db.items[id], PollRun(policy, id, s, steps))
  {
    if steps != [] {
      var init, step := steps[..|steps| - 1], steps[|steps| - 1];
      KeptRunsKeepAnchors(policy, id, s, init);
      var mid := PollRun(policy, id, s, init);
      if step.Decide? && step.worker in mid.held && mid.now <= step.clock.now {
        DecidingKeepsAnchors(policy, id, s.db.items[id], mid, step.worker, step.answer, step.clock);
      }
    }
  }

  /**
   What survives overlapping sweeps is the age limit: however they overlap, no poll decided later than
   maxPendingAgeMs after the wait began puts the item off again.
   */
  lemma NoPollDefersPastTheAge(policy: BackoffPolicy, id: nat, s: Polling, steps: seq<WaitStep>, i: nat)
    requires Unpolled(id, s) && KeptRun(policy, id, s, steps) && i < |PollRun(policy, id, s, steps).polls|
    ensures var poll := PollRun(policy, id, s, steps).polls[i];
            Defers(poll.outcome) ==> poll.step.decidedAt <= WaitStartOf(s.db.items[id]) + policy.maxPendingAgeMs
  {
    KeptRunsKeepAnchors(policy, id, s, steps);
  }

  /** Workers m to n hold the row as it was before any of them decided. */
  ghost predicate AllHold(s: Polling, row: ItemRow, at: int, m: nat, n: nat) {
    && (forall w: nat :: w in s.held <==> m <= w < n)
    && (forall w: nat :: m <= w < n ==> s.held[w] == Snapshot(row, at))
  }

  lemma WaitRunGrows(policy: BackoffPolicy, id: nat, s: Polling, steps: seq<WaitStep>, step: WaitStep)
    requires WaitRun(policy, id, s, steps) && StaysInWait(id, PollRun(policy, id, s, steps), step)
    ensures WaitRun(policy, id, s, steps + [step])
    ensures PollRun(policy, id, s, steps + [step]) == WaitNext(policy, id, PollRun(policy, id, s, steps), step)
  {
    assert (steps + [step])[..|steps + [step]| - 1] == steps;
  }

  lemma OneMoreReader(policy: BackoffPolicy, id: nat, s: Polling, row: ItemRow, at: int, n: nat)
    requires id in s.db.items && s.db.items[id] == row && s.now <= at && Due(policy, row, at) && AllHold(s, row, at, 0, n)
    ensures var s' := WaitNext(policy, id, s, Read(n, at));
            s'.db == s.db && s'.polls == s.polls && s'.now == at && AllHold(s', row, at, 0, n + 1)
  {
  }

  ghost predicate ReadByMany(policy: BackoffPolicy, id: nat, s: Polling, steps: seq<WaitStep>, at: int, n: nat)
    requires id in s.db.items
  {
    var s' := PollRun(policy, id, s, steps);
    WaitRun(policy, id, s, steps) && s'.db == s.db && s'.polls == [] && s'.now <= at && AllHold(s', s.db.items[id], at, 0, n)
  }

  lemma OneMoreReads(policy: BackoffPolicy, id: nat, s: Polling, steps: seq<WaitStep>, at: int, n: nat)
    requires id in s.db.items && Due(policy, s.db.items[id], at) && ReadByMany(policy, id, s, steps, at, n)
    ensures ReadByMany(policy, id, s, steps + [Read(n, at)], at, n + 1)
  {
    WaitRunGrows(policy, id, s, steps, Read(n, at));
    OneMoreReader(policy, id, PollRun(policy, id, s, steps), s.db.items[id], at, n);
  }

  lemma NobodyHasRead(policy: BackoffPolicy, id: nat, s: Polling, at: int)
    requires Unpolled(id, s) && at >= s.now
    ensures ReadByMany(policy, id, s, [], at, 0)
  {
  }

  lemma {:induction false} ManyReads(policy: BackoffPolicy, id: nat, s: Polling, at: int, n: nat) returns (steps: seq<WaitStep>)
    requires Unpolled(id, s) && at >= s.now && Due(policy, s.db.items[id], at)
    ensures ReadByMany(policy, id, s, steps, at, n)
  {
    if n == 0 {
      NobodyHasRead(policy, id, s, at);
      steps := [];
    } else {
      var init := ManyReads(policy, id, s, at, n - 1);
      OneMoreReads(policy, id, s, init, at, n - 1);
      steps := init + [Read(n - 1, at)];
    }
  }

  /** m of n overlapping polls have failed to retrieve: together they counted one attempt. */
  ghost predicate SharedAttempt(policy: BackoffPolicy, id: nat, row: ItemRow, s: Polling, at: int, m: nat, n: nat) {
    && AllHold(s, row, at, m, n) && Open(s.polls) && |Counted(s.polls)| == m && s.now <= at
    && id in s.db.items
    && s.db.items[id] == if m == 0 then row else row.(pollAttempts := row.pollAttempts + 1, nextPollAt := Some(at + BackoffDelayMs(policy, row.pollAttempts)))
  }

  /** One of them deciding, as far as the database is concerned. */
  lemma SharedDecision(policy: BackoffPolicy, id: nat, row: ItemRow, db: Db, at: int)
    requires id in db.items && row.supplierReference.Some? && row.escalatedAt.None? && Waiting(row) && !Expired(policy, row, at)
    requires db.items[id] == row
             || db.items[id] == row.(pollAttempts := row.pollAttempts + 1, nextPollAt := Some(at + BackoffDelayMs(policy, row.pollAttempts)))
    ensures var (db', outcome) := PollItem(db, id, row, RetrieveFailed, policy, PollClock(at, at, 0));
            && outcome == RetrieveFailedOutcome && id in db'.items
            && db'.items[id] == row.(pollAttempts := row.pollAttempts + 1, nextPollAt := Some(at + BackoffDelayMs(policy, row.pollAttempts)))
  {
  }

  lemma OneLessHolds(policy: BackoffPolicy, id: nat, row: ItemRow, s: Polling, at: int, m: nat, n: nat, db: Db)
    requires SharedAttempt(policy, id, row, s, at, m, n) && m < n
    requires id in db.items
    requires db.items[id] == row.(pollAttempts := row.pollAttempts + 1, nextPollAt := Some(at + BackoffDelayMs(policy, row.pollAttempts)))
    ensures m in s.held && s.held[m] == Snapshot(row, at)
    ensures SharedAttempt(policy, id, row, Decided(s, m, db, RetrieveFailedOutcome, at), at, m + 1, n)
  {
    var poll := Poll(PollStep(row, at, at), RetrieveFailedOutcome);
    CountedOneMore(s.polls, poll);
    OpenOneMore(s.polls, poll);
  }

  lemma OneMoreShares(policy: BackoffPolicy, id: nat, row: ItemRow, s: Polling, at: int, m: nat, n: nat)
    requires SharedAttempt(policy, id, row, s, at, m, n) && m < n && !Expired(policy, row, at)
    requires row.supplierReference.Some? && row.escalatedAt.None? && Waiting(row)
    ensures SharedAttempt(policy, id, row, WaitNext(policy, id, s, Decide(m, RetrieveFailed, PollClock(at, at, 0))), at, m + 1, n)
  {
    SharedDecision(policy, id, row, s.db, at);
    OneLessHolds(policy, id, row, s, at, m, n, PollItem(s.db, id, row, RetrieveFailed, policy, PollClock(at, at, 0)).0);
  }

  lemma SharedRunGrows(policy: BackoffPolicy, id: nat, s: Polling, steps: seq<WaitStep>, at: int, m: nat, n: nat)
    requires id in s.db.items && WaitRun(policy, id, s, steps) && m < n && !Expired(policy, s.db.items[id], at)
    requires Waiting(s.db.items[id]) && s.db.items[id].supplierReference.Some? && s.db.items[id].escalatedAt.None?
    requires SharedAttempt(policy, id, s.db.items[id], PollRun(policy, id, s, steps), at, m, n)
    ensures var longer := steps + [Decide(m, RetrieveFailed, PollClock(at, at, 0))];
            WaitRun(policy, id, s, longer) && SharedAttempt(policy, id, s.db.items[id], PollRun(policy, id, s, longer), at, m + 1, n)
  {
    OneMoreShares(policy, id, s.db.items[id], PollRun(policy, id, s, steps), at, m, n);
    WaitRunGrows(policy, id, s, steps, Decide(m, RetrieveFailed, PollClock(at, at, 0)));
  }

  lemma {:induction false} ManyShare(policy: BackoffPolicy, id: nat, s: Polling, at: int, m: nat, n: nat) returns (steps: seq<WaitStep>)
    requires Unpolled(id, s) && at >= s.now && Due(policy, s.db.items[id], at) && !Expired(policy, s.db.items[id], at)
    requires s.db.items[id].supplierReference.Some? && m <= n
    ensures WaitRun(policy, id, s, steps)
    ensures SharedAttempt(policy, id, s.db.items[id], PollRun(policy, id, s, steps), at, m, n)
  {
    if m == 0 {
      steps := ManyReads(policy, id, s, at, n);
    } else {
      var init := ManyShare(policy, id, s, at, m - 1, n);
      SharedRunGrows(policy, id, s, init, at, m - 1, n);
      steps := init + [Decide(m - 1, RetrieveFailed, PollClock(at, at, 0))];
    }
  }

  /** Overlapping sweeps have no bound on polls: from any wait due within its age limit, any number of them count as one attempt. */
  lemma OverlappingPollsShareAnAttempt(policy: BackoffPolicy, id: nat, s: Polling, at: int, n: nat)
    requires Unpolled(id, s) && at >= s.now && Due(policy, s.db.items[id], at) && !Expired(policy, s.db.items[id], at)
    requires s.db.items[id].supplierReference.Some?
    ensures exists steps: seq<WaitStep> ::
              var s' := PollRun(policy, id, s, steps);
              && WaitRun(policy, id, s, steps) && |Counted(s'.polls)| == n && Open(s'.polls)
              && id in s'.db.items && s'.db.items[id].pollAttempts <= s.db.items[id].pollAttempts + 1
  {
    var steps := ManyShare(policy, id, s, at, n, n);
    assert WaitRun(policy, id, s, steps) && |Counted(PollRun(policy, id, s, steps).polls)| == n;
  }

  // ---------------------------------------------------------------------------
  // What overlap costs

  /** The step is `worker` taking the item up. */
  predicate Takes(policy: BackoffPolicy, id: nat, s: Polling, step: WaitStep, worker: nat) {
    step.Read? && step.worker == worker && worker !in s.held && worker in WaitNext(policy, id, s, step).held
  }

  /** The step decides a poll that counts. */
  predicate Counts(policy: BackoffPolicy, id: nat, s: Polling, step: WaitStep) {
    && step.Decide? && step.worker in s.held && s.now <= step.clock.now
    && PollItem(s.db, id, s.held[step.worker].row, step.answer, policy, step.clock).1 != ErrorOutcome
  }

  /** For each worker, how many polls had counted when it last took the item up. */
  function TakenAfter(policy: BackoffPolicy, id: nat, s: Polling, steps: seq<WaitStep>): map<nat, nat> {
    if steps == [] then map[]
    else
      var init, step := steps[..|steps| - 1], steps[|steps| - 1];
      var mid, taken := PollRun(policy, id, s, init), TakenAfter(policy, id, s, init);
      if step.Read? && Takes(policy, id, mid, step, step.worker) then taken[step.worker := |Counted(mid.polls)|] else taken
  }

  /** For each poll that counts, how many had counted when its row was read; the k-th one overlaps another unless that is k. */
  function ReadAfter(policy: BackoffPolicy, id: nat, s: Polling, steps: seq<WaitStep>): seq<nat> {
    if steps == [] then []
    else
      var init, step := steps[..|steps| - 1], steps[|steps| - 1];
      var taken := TakenAfter(policy, id, s, init);
      if Counts(policy, id, PollRun(policy, id, s, init), step) && step.worker in taken
      then ReadAfter(policy, id, s, init) + [taken[step.worker]]
      else ReadAfter(policy, id, s, init)
  }

  /** The attempt count that the first m polls left. */
  function AttemptsAfter(counted: seq<PollStep>, m: nat): int
    requires m <= |counted|
  {
    if m == 0 then 0 else counted[m - 1].row.pollAttempts + 1
  }

  /** Each poll read the count that the polls before its read had left. */
  ghost predicate ReadsAreCounts(counted: seq<PollStep>, after: seq<nat>) {
    && |after| == |counted|
    && forall k {:trigger after[k]} :: 0 <= k < |counted| ==> after[k] <= k && counted[k].row.pollAttempts == AttemptsAfter(counted, after[k])
  }

  ghost predicate AttemptsOk(id: nat, s: Polling, taken: map<nat, nat>, after: seq<nat>) {
    var counted := Counted(s.polls);
    && ReadsAreCounts(counted, after) && id in s.db.items
    && (forall w :: w in s.held ==> w in taken && taken[w] <= |counted| && s.held[w].row.pollAttempts == AttemptsAfter(counted, taken[w]))
    && (Open(s.polls) && s.db.items[id].escalatedAt.None? ==> s.db.items[id].pollAttempts == AttemptsAfter(counted, |counted|))
  }

  lemma OneMoreRead(counted: seq<PollStep>, after: seq<nat>, step: PollStep, m: nat)
    requires ReadsAreCounts(counted, after) && m <= |counted| && step.row.pollAttempts == AttemptsAfter(counted, m)
    ensures ReadsAreCounts(counted + [step], after + [m])
    ensures forall j: nat :: j <= |counted| ==> AttemptsAfter(counted + [step], j) == AttemptsAfter(counted, j)
    ensures AttemptsAfter(counted + [step], |counted| + 1) == step.row.pollAttempts + 1
  {
    var longer := counted + [step];
    forall k | 0 <= k < |longer|
      ensures (after + [m])[k] <= k && longer[k].row.pollAttempts == AttemptsAfter(longer, (after + [m])[k])
    {
      if k < |counted| {
        assert longer[k] == counted[k] && (after + [m])[k] == after[k];
      }
    }
  }

  /** What a decision leaves of the item's attempt count. */
  lemma DecidedAttempts(db: Db, id: nat, row: ItemRow, answer: Answer, policy: BackoffPolicy, clock: PollClock)
    requires id in db.items
    ensures var (db', outcome) := PollItem(db, id, row, answer, policy, clock);
            && id in db'.items && (outcome == ErrorOutcome ==> db' == db)
            && (Defers(outcome) && db'.items[id].escalatedAt.None? ==> db'.items[id].pollAttempts == row.pollAttempts + 1)
  {
  }

  /** The duties of the other workers stay right as one more poll counts. */
  lemma OthersStillRight(s: Polling, counted: seq<PollStep>, longer: seq<PollStep>, taken: map<nat, nat>, worker: nat)
    requires |counted| <= |longer| && forall j: nat :: j <= |counted| ==> AttemptsAfter(longer, j) == AttemptsAfter(counted, j)
    requires forall w :: w in s.held ==> w in taken && taken[w] <= |counted| && s.held[w].row.pollAttempts == AttemptsAfter(counted, taken[w])
    ensures forall w :: w in s.held - {worker} ==> w in taken && taken[w] <= |longer| && s.held[w].row.pollAttempts == AttemptsAfter(longer, taken[w])
  {
  }

  lemma ErringCounts(id: nat, s: Polling, taken: map<nat, nat>, after: seq<nat>, worker: nat, now: int)
    requires AttemptsOk(id, s, taken, after) && Open(s.polls) && worker in s.held
    ensures AttemptsOk(id, Decided(s, worker, s.db, ErrorOutcome, now), taken, after)
  {
    var poll := Poll(PollStep(s.held[worker].row, s.held[worker].readAt, now), ErrorOutcome);
    CountedOneMore(s.polls, poll);
    OthersStillRight(s, Counted(s.polls), Counted(s.polls), taken, worker);
  }

  lemma DecisionCounts(id: nat, s: Polling, taken: map<nat, nat>, after: seq<nat>, worker: nat, db: Db, outcome: Outcome, now: int)
    requires AttemptsOk(id, s, taken, after) && worker in s.held && id in db.items && outcome != ErrorOutcome
    requires Defers(outcome) && db.items[id].escalatedAt.None? ==> db.items[id].pollAttempts == s.held[worker].row.pollAttempts + 1
    ensures worker in taken && AttemptsOk(id, Decided(s, worker, db, outcome, now), taken, after + [taken[worker]])
  {
    var counted, step := Counted(s.polls), PollStep(s.held[worker].row, s.held[worker].readAt, now);
    CountedOneMore(s.polls, Poll(step, outcome));
    OpenOneMore(s.polls, Poll(step, outcome));
    OneMoreRead(counted, after, step, taken[worker]);
    OthersStillRight(s, counted, counted + [step], taken, worker);
  }

  lemma ReadingCounts(policy: BackoffPolicy, id: nat, s: Polling, taken: map<nat, nat>, after: seq<nat>, worker: nat, at: int)
    requires AttemptsOk(id, s, taken, after) && Open(s.polls)
    ensures AttemptsOk(id, DoRead(policy, id, s, worker, at),
                       if Takes(policy, id, s, Read(worker, at), worker) then taken[worker := |Counted(s.polls)|] else taken, after)
  {
  }

  lemma OthersCount(id: nat, s: Polling, taken: map<nat, nat>, after: seq<nat>, op: Op)
    requires AttemptsOk(id, s, taken, after) && StaysInWait(id, s, Others(op))
    ensures AttemptsOk(id, s.(db := Apply(s.db, op)), taken, after)
  {
    OneOpClimbs(s.db, op, id);
    NewDbCounts(id, s, taken, after, Apply(s.db, op));
  }

  lemma NewDbCounts(id: nat, s: Polling, taken: map<nat, nat>, after: seq<nat>, db: Db)
    requires AttemptsOk(id, s, taken, after) && id in db.items && SameWait(s.db.items[id], db.items[id])
    requires s.db.items[id].escalatedAt.Some? ==> db.items[id].escalatedAt.Some?
    ensures AttemptsOk(id, s.(db := db), taken, after)
  {
  }

  lemma CrashingCounts(id: nat, s: Polling, taken: map<nat, nat>, after: seq<nat>, worker: nat)
    requires AttemptsOk(id, s, taken, after)
    ensures AttemptsOk(id, s.(held := s.held - {worker}), taken, after)
  {
  }

  lemma {:induction false} WaitRunsCount(policy: BackoffPolicy, id: nat, s: Polling, steps: seq<WaitStep>)
    requires Unpolled(id, s) && s.db.items[id].pollAttempts == 0 && WaitRun(policy, id, s, steps)
    ensures AttemptsOk(id, PollRun(policy, id, s, steps), TakenAfter(policy, id, s, steps), ReadAfter(policy, id, s, steps))
  {
    if steps != [] {
      var init, step := steps[..|steps| - 1], steps[|steps| - 1];
      WaitRunsCount(policy, id, s, init);
      var mid, taken, after := PollRun(policy, id, s, init), TakenAfter(policy, id, s, init), ReadAfter(policy, id, s, init);
      match step {
        case Others(op) => OthersCount(id, mid, taken, after, op);
        case Read(worker, at) => ReadingCounts(policy, id, mid, taken, after, worker, at);
        case Crash(worker) => CrashingCounts(id, mid, taken, after, worker);
        case Decide(worker, answer, clock) =>
          if worker in mid.held && mid.now <= clock.now {
            var (db', outcome) := PollItem(mid.db, id, mid.held[worker].row, answer, policy, clock);
            DecidedAttempts(mid.db, id, mid.held[worker].row, answer, policy, clock);
            if outcome == ErrorOutcome {
              ErringCounts(id, mid, taken, after, worker, clock.now);
            } else {
              DecisionCounts(id, mid, taken, after, worker, db', outcome, clock.now);
            }
          }
      }
    }
  }

  /** Up to the k-th, each poll read its row after exactly the polls before it had decided. */
  ghost predicate NoneOverlaps(after: seq<nat>, k: nat)
    requires k < |after|
  {
    forall j :: 0 <= j <= k ==> after[j] == j
  }

  lemma {:induction false} CountsLag(counted: seq<PollStep>, after: seq<nat>, k: nat)
    requires ReadsAreCounts(counted, after) && k < |counted|
    ensures 0 <= counted[k].row.pollAttempts <= k
    ensures counted[k].row.pollAttempts == k <==> NoneOverlaps(after, k)
    decreases k
  {
    var m := after[k];
    if m == 0 {
      assert counted[k].row.pollAttempts == 0;
    } else {
      assert counted[k].row.pollAttempts == counted[m - 1].row.pollAttempts + 1;
      CountsLag(counted, after, m - 1);
      if m == k {
        assert NoneOverlaps(after, k) <==> NoneOverlaps(after, k - 1);
      }
    }
  }

  /**
   However sweeps overlap, the k-th poll that counts in a wait read an attempt count of at most k, and
   of exactly k if and only if neither it nor any poll before it was read before the one before it had
   decided. Overlap is what makes the count, and so the backoff, lag.
   */
  lemma CountsAreExactWithoutOverlap(policy: BackoffPolicy, id: nat, s: Polling, steps: seq<WaitStep>, k: nat)
    requires Unpolled(id, s) && s.db.items[id].pollAttempts == 0 && WaitRun(policy, id, s, steps)
    requires k < |Counted(PollRun(policy, id, s, steps).polls)|
    ensures var counted, after := Counted(PollRun(policy, id, s, steps).polls), ReadAfter(policy, id, s, steps);
            && |after| == |counted| && after[k] <= k && 0 <= counted[k].row.pollAttempts <= k
            && (counted[k].row.pollAttempts == k <==> NoneOverlaps(after, k))
  {
    WaitRunsCount(policy, id, s, steps);
    CountsLag(Counted(PollRun(policy, id, s, steps).polls), ReadAfter(policy, id, s, steps), k);
  }

  // ---------------------------------------------------------------------------
  // Reachable examples

  /** A wait at its very beginning is reachable, so the bound is attained by a reachable run. */
  lemma AReachableWait()
    ensures JustBegun(0, Polling(Run(EMPTY_DB, WAITING_HISTORY), map[], [], 2))
    ensures Due(DEFAULT_PENDING_BACKOFF, Run(EMPTY_DB, WAITING_HISTORY).items[0], 2)
    ensures !Expired(DEFAULT_PENDING_BACKOFF, Run(EMPTY_DB, WAITING_HISTORY).items[0], 2)
  {
    WaitingAfterHistory();
  }

  /** And so is every excess: under the default policy overlapping sweeps poll a wait any number of times. */
  lemma OverlappingSweepsExceedAnyBound(n: nat)
    ensures exists steps: seq<WaitStep> ::
              var s := Polling(Run(EMPTY_DB, WAITING_HISTORY), map[], [], 2);
              var s' := PollRun(DEFAULT_PENDING_BACKOFF, 0, s, steps);
              WaitRun(DEFAULT_PENDING_BACKOFF, 0, s, steps) && |Counted(s'.polls)| == n && Open(s'.polls)
  {
    AReachableWait();
    OverlappingPollsShareAnAttempt(DEFAULT_PENDING_BACKOFF, 0, Polling(Run(EMPTY_DB, WAITING_HISTORY), map[], [], 2), 2, n);
  }

  // ---------------------------------------------------------------------------
  // What a stale row does

  lemma FreePenaltyPostsNothing(amounts: Amounts, group: nat, id: nat)
    requires amounts.penalty.None?
    ensures Entries(PENALTY_LINES, amounts, group, id) == []
  {
    var p := PENALTY_LINES;
    var p1, p2, p3 := p[..1], p[..2], p[..3];
    assert p1[..0] == [] && p2[..1] == p1 && p3[..2] == p2 && p[..3] == p3 && |p| == 4;
    assert Entries(p1, amounts, group, id) == [];
    assert Entries(p2, amounts, group, id) == [];
    assert Entries(p3, amounts, group, id) == [];
  }

  /** Settling the waiting booking from its row before the request posts nothing, though 700 is owed. */
  lemma StaleSettlement(db: Db)
    requires 0 in db.items && db.items[0] == WAITING_ROW && db.journal == []
    ensures var requested := Apply(db, RequestCancel(0, 5));
            var (db', outcome) := PollItem(requested, 0, WAITING_ROW, Reported(SupplierCancelled, "R1"), DEFAULT_PENDING_BACKOFF, PollClock(6, 6, 3));
            && 0 in requested.items && Owed(requested.items[0]) == 700
            && outcome == TransitionedCancelled && PostedPenalty(db'.audit, 0) == None && db'.journal == []
  {
    assert InForce(WAITING_ROW.policy.rules, 5) == Some(FEE);
    FreePenaltyPostsNothing(Amounts(Money(1000, "SAR"), Money(900, "SAR"), None), 3, 0);
  }

  /** A request landing between the sweep's read and the settlement goes uncharged: a reachable run. */
  lemma LateRequestGoesUncharged()
    ensures var read := Run(EMPTY_DB, WAITING_HISTORY);
            var requested := Run(EMPTY_DB, WAITING_HISTORY + [RequestCancel(0, 5)]);
            && 0 in read.items && Due(DEFAULT_PENDING_BACKOFF, read.items[0], 4)
            && var (db', outcome) := PollItem(requested, 0, read.items[0], Reported(SupplierCancelled, "R1"),
                                              DEFAULT_PENDING_BACKOFF, PollClock(6, 6, 3));
               && 0 in requested.items && Owed(requested.items[0]) == 700
               && outcome == TransitionedCancelled && PostedPenalty(db'.audit, 0) == None && db'.journal == []
  {
    WaitingAfterHistory();
    RunAppend(EMPTY_DB, WAITING_HISTORY, RequestCancel(0, 5));
    StaleSettlement(Run(EMPTY_DB, WAITING_HISTORY));
  }

  lemma ConfirmedThenRequested(db: Db)
    requires 0 in db.items && db.items[0] == WAITING_ROW
    ensures var db1, db2 := Apply(db, CONFIRMATION), Apply(Apply(db, CONFIRMATION), RequestCancel(0, 5));
            && 0 in db1.items && db1.items[0] == WAITING_ROW.(state := ItemState.Confirmed, updatedAt := 4, nextPollAt := None)
            && 0 in db2.items
            && db2.items[0] == db1.items[0].(cancellationRequestedAt := Some(5), nextPollAt := Some(5), pollAttempts := 0, updatedAt := 5)
  {
  }

  /**
   A stale deferral reschedules an item that has left its wait, and pushes out the first poll of a
   cancellation wait that began in the meantime: a reachable run of each.
   */
  lemma StaleDeferralsReschedule()
    ensures var read := Run(EMPTY_DB, WAITING_HISTORY);
            var confirmed := Run(EMPTY_DB, WAITING_HISTORY + [CONFIRMATION]);
            var requested := Run(EMPTY_DB, WAITING_HISTORY + [CONFIRMATION] + [RequestCancel(0, 5)]);
            && 0 in read.items && 0 in confirmed.items && 0 in requested.items
            && !Waiting(confirmed.items[0]) && Due(DEFAULT_PENDING_BACKOFF, requested.items[0], 5)
            && var a := PollItem(confirmed, 0, read.items[0], RetrieveFailed, DEFAULT_PENDING_BACKOFF, PollClock(6, 6, 0)).0;
               var b := PollItem(requested, 0, read.items[0], RetrieveFailed, DEFAULT_PENDING_BACKOFF, PollClock(6, 6, 0)).0;
               && 0 in a.items && a.items[0] == confirmed.items[0].(pollAttempts := 1, nextPollAt := Some(30006))
               && 0 in b.items && b.items[0].pollAttempts == 1
               && forall now :: Due(DEFAULT_PENDING_BACKOFF, b.items[0], now) <==> 30006 <= now
  {
    WaitingAfterHistory();
    ConfirmedThenRequested(Run(EMPTY_DB, WAITING_HISTORY));
    RunAppend(EMPTY_DB, WAITING_HISTORY, CONFIRMATION);
    RunAppend(EMPTY_DB, WAITING_HISTORY + [CONFIRMATION], RequestCancel(0, 5));
    assert Power(2.0, 0) == 1.0;
    assert BackoffDelayMs(DEFAULT_PENDING_BACKOFF, 0) == 30000;
  }

  // ---------------------------------------------------------------------------
  // Polls that err

  /** The supplier reports a cancellation that the policy of the row read must price. */
  predicate NeedsPenalty(row: ItemRow, answer: Answer) {
    && row.supplierReference.Some? && answer.Reported? && answer.status == SupplierCancelled
    && (WaitKindOf(row) == Cancellation || (WaitKindOf(row) == Confirmation && row.cancellationRequestedAt.Some?))
  }

  lemma TransitionsErrOnlyByConflict(db: Db, id: nat, to: ItemState, ctx: TransitionContext, settled: Outcome)
    requires Inv(db) && id in db.items && settled != ErrorOutcome
    requires (ctx.expectedFrom == PendingConfirmation && to == ItemState.Confirmed)
             || (ctx.expectedFrom in {PendingConfirmation, ItemState.Confirmed} && to == Cancelled && ctx.penalty.Some?)
    requires ctx.penalty.Some? && ctx.penalty.value.Some? ==> ValidMoney(ctx.penalty.value.value)
    ensures PendingPoller.Settle(db, id, to, ctx, settled).1 != ErrorOutcome
  {
    assert ItemInv(db, id);
  }

  lemma PenaltiesAreValid(item: ItemRow, at: int)
    requires ValidPolicy(item.policy) && ValidMoney(Money(item.sell, item.currency))
    ensures PenaltyFor(item, at).Success? && ValidMoney(PenaltyFor(item, at).value)
  {
    InForceIsTheLatest(item.policy.rules, at);
  }

  lemma ConfirmationErrs(db: Db, id: nat, row: ItemRow, answer: Answer, policy: BackoffPolicy, clock: PollClock)
    requires Inv(db) && id in db.items && ValidMoney(Money(row.sell, row.currency)) && answer.Reported?
    ensures SettleConfirmationWait(db, id, row, answer, policy, clock).1 == ErrorOutcome
            <==> answer.status == SupplierCancelled && row.cancellationRequestedAt.Some? && !ValidPolicy(row.policy)
  {
    match answer.status {
      case SupplierConfirmed =>
        var rearm := if row.cancellationRequestedAt.Some? then Some(Some(clock.now)) else None;
        TransitionsErrOnlyByConflict(db, id, ItemState.Confirmed,
          TransitionContext(PendingConfirmation, Patch(Some(answer.reference), None, rearm, None), None, clock.runnerNow, clock.group),
          TransitionedConfirmed);
      case SupplierCancelled =>
        if row.cancellationRequestedAt.None? {
          TransitionsErrOnlyByConflict(db, id, Cancelled,
            TransitionContext(PendingConfirmation, NO_PATCH, Some(None), clock.runnerNow, clock.group), TransitionedCancelled);
        } else if ValidPolicy(row.policy) {
          PenaltiesAreValid(row, row.cancellationRequestedAt.value);
          var penalty := PenaltyFor(row, row.cancellationRequestedAt.value).value;
          TransitionsErrOnlyByConflict(db, id, Cancelled,
            TransitionContext(PendingConfirmation, NO_PATCH, Some(Some(penalty)), clock.runnerNow, clock.group), TransitionedCancelled);
        }
      case SupplierPending =>
    }
  }

  lemma CancellationErrs(db: Db, id: nat, row: ItemRow, answer: Answer, policy: BackoffPolicy, clock: PollClock)
    requires Inv(db) && id in db.items && ValidMoney(Money(row.sell, row.currency)) && answer.Reported?
    ensures SettleCancellationWait(db, id, row, answer, policy, clock).1 == ErrorOutcome
            <==> answer.status == SupplierCancelled && !ValidPolicy(row.policy)
  {
    if answer.status == SupplierCancelled && ValidPolicy(row.policy) {
      var requestedAt := if row.cancellationRequestedAt.Some? then row.cancellationRequestedAt.value else clock.now;
      PenaltiesAreValid(row, requestedAt);
      TransitionsErrOnlyByConflict(db, id, Cancelled,
        TransitionContext(ItemState.Confirmed, NO_PATCH, Some(Some(PenaltyFor(row, requestedAt).value)), clock.runnerNow, clock.group),
        TransitionedCancelled);
    }
  }

  /** On any reachable database a poll errs exactly when it needs a penalty from an invalid stored policy. */
  lemma PollsErrOnlyOnInvalidPolicies(db: Db, id: nat, row: ItemRow, answer: Answer, policy: BackoffPolicy, clock: PollClock)
    requires Inv(db) && id in db.items && ValidMoney(Money(row.sell, row.currency))
    ensures PollItem(db, id, row, answer, policy, clock).1 == ErrorOutcome <==> NeedsPenalty(row, answer) && !ValidPolicy(row.policy)
  {
    if WaitKindOf(row) != Reservation && row.supplierReference.Some? && answer.Reported? && ValidPolicy(row.policy) {
      if WaitKindOf(row) == Confirmation {
        ConfirmationErrs(db, id, row, answer, policy, clock);
      } else {
        CancellationErrs(db, id, row, answer, policy, clock);
      }
    } else if WaitKindOf(row) == Confirmation && answer.Reported? {
      ConfirmationErrs(db, id, row, answer, policy, clock);
    }
  }

  lemma OneErringPoll(policy: BackoffPolicy, id: nat, s: Polling, at: int, clock: PollClock)
    requires s.held == map[] && id in s.db.items && at >= s.now && clock.now == at && Due(policy, s.db.items[id], at)
    requires NeedsPenalty(s.db.items[id], Reported(SupplierCancelled, "")) && !ValidPolicy(s.db.items[id].policy)
    ensures var s1 := WaitNext(policy, id, s, Read(0, at));
            var s2 := WaitNext(policy, id, s1, Decide(0, Reported(SupplierCancelled, ""), clock));
            && s1.held == map[0 := Snapshot(s.db.items[id], at)] && s1.db == s.db && s1.polls == s.polls
            && s2 == Polling(s.db, map[], s.polls + [Poll(PollStep(s.db.items[id], at, at), ErrorOutcome)], at)
  {
    var s1 := WaitNext(policy, id, s, Read(0, at));
    assert s1.held - {0} == map[];
  }

  /**
   Such polls do not age the wait: whatever the age limit, any number of them, one after another, leave
   the database as it was and the item due.
   */
  lemma {:induction false} InvalidPoliciesErrForever(policy: BackoffPolicy, id: nat, s: Polling, at: int, k: nat) returns (steps: seq<WaitStep>)
    requires Unpolled(id, s) && at >= s.now && Due(policy, s.db.items[id], at)
    requires NeedsPenalty(s.db.items[id], Reported(SupplierCancelled, "")) && !ValidPolicy(s.db.items[id].policy)
    ensures var s' := PollRun(policy, id, s, steps);
            && Resting(policy, id, s, steps) && |s'.polls| == k && Counted(s'.polls) == [] && s'.db == s.db && s'.now <= at
  {
    if k == 0 {
      steps := [];
    } else {
      var init := InvalidPoliciesErrForever(policy, id, s, at, k - 1);
      var mid := PollRun(policy, id, s, init);
      var read, decide := Read(0, at), Decide(0, Reported(SupplierCancelled, ""), PollClock(at, at, 0));
      OneErringPoll(policy, id, mid, at, PollClock(at, at, 0));
      ErringRoundExtendsTheRun(policy, id, s, init, mid, read, decide, Poll(PollStep(s.db.items[id], at, at), ErrorOutcome));
      steps := init + [read] + [decide];
    }
  }

  lemma ErringRoundExtendsTheRun(policy: BackoffPolicy, id: nat, s: Polling, steps: seq<WaitStep>, mid: Polling, read: WaitStep, decide: WaitStep, poll: Poll)
    requires Resting(policy, id, s, steps) && mid == PollRun(policy, id, s, steps)
    requires read.Read? && decide.Decide? && poll.outcome == ErrorOutcome
    requires var s1 := WaitNext(policy, id, mid, read);
             && s1.polls == mid.polls && s1.db == mid.db
             && WaitNext(policy, id, s1, decide).polls == mid.polls + [poll]
             && WaitNext(policy, id, s1, decide).db == mid.db && WaitNext(policy, id, s1, decide).held == map[]
    ensures Resting(policy, id, s, steps + [read] + [decide])
    ensures var s' := PollRun(policy, id, s, steps + [read] + [decide]);
            s' == WaitNext(policy, id, WaitNext(policy, id, mid, read), decide) && Counted(s'.polls) == Counted(mid.polls)
  {
    RunGrows(policy, id, s, steps, read);
    PollRunOneMore(policy, id, s, steps, read);
    RunGrows(policy, id, s, steps + [read], decide);
    PollRunOneMore(policy, id, s, steps + [read], decide);
    CountedOneMore(mid.polls, poll);
    OpenOneMore(mid.polls, poll);
  }

  const OUT_OF_ORDER := Policy(false, [Rule(Instant("5", 5), FEE), Rule(Instant("0", 0), FEE)])

  /** A caller of the runner that prices nothing can leave such a wait: the request on an item sold under an unordered policy. */
  lemma AReachableInvalidWait(policy: BackoffPolicy)
    ensures var s := Polling(Run(EMPTY_DB, WaitingUnder(OUT_OF_ORDER) + [RequestCancel(0, 5)]), map[], [], 5);
            && Unpolled(0, s) && s.db.items[0].pollAttempts == 0
            && (forall at :: Due(policy, s.db.items[0], at) <==> 5 <= at)
            && NeedsPenalty(s.db.items[0], Reported(SupplierCancelled, "")) && !ValidPolicy(s.db.items[0].policy)
  {
    WaitingUnderPolicy(OUT_OF_ORDER);
    RunAppend(EMPTY_DB, WaitingUnder(OUT_OF_ORDER), RequestCancel(0, 5));
    assert OUT_OF_ORDER.rules[0].fromUtc.ms > OUT_OF_ORDER.rules[1].fromUtc.ms;
  }

  /** So it happens: at any instant, however late, any number of polls of that wait err and leave it due. */
  lemma AReachableWaitErrsForever(policy: BackoffPolicy, at: int, k: nat)
    requires at >= 5
    ensures exists steps: seq<WaitStep> ::
              var s := Polling(Run(EMPTY_DB, WaitingUnder(OUT_OF_ORDER) + [RequestCancel(0, 5)]), map[], [], 5);
              var s' := PollRun(policy, 0, s, steps);
              && WaitRun(policy, 0, s, steps) && OneAtATime(policy, 0, s, steps)
              && |s'.polls| == k && Counted(s'.polls) == [] && s'.db == s.db
              && 0 in s'.db.items && Due(policy, s'.db.items[0], at)
  {
    AReachableInvalidWait(policy);
    var s := Polling(Run(EMPTY_DB, WaitingUnder(OUT_OF_ORDER) + [RequestCancel(0, 5)]), map[], [], 5);
    var steps := InvalidPoliciesErrForever(policy, 0, s, at, k);
    assert WaitRun(policy, 0, s, steps) && OneAtATime(policy, 0, s, steps);
  }
}
