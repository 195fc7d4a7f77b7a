/**
 What a supplier's answer does to a booking (apps/api/src/hotel-booking/booking.service.ts), told over
 whole executions of the protocol: the answers are kept beside the calls, and each item's trail of
 transitions is compared with the answer to the one call made for it.
 */
module BookingOutcomes {
  import opened BookingProtocol
  import opened BookingStates
  import opened ItemRuns
  import opened Ledger
  import opened PendingPoller
  import opened RunnerLaws
  import opened TransitionRunner
  import opened Wrappers

  // ---------------------------------------------------------------------------
  // An execution is a run

  lemma ActionCommits(setup: Setup, s: State, pid: nat, action: Action) returns (ops: seq<Op>)
    requires pid in s.procs
    ensures |ops| <= 1 && Act(setup, s, pid, action).db == Run(s.db, ops)
  {
    ops := [];
    var pc, task := s.procs[pid].pc, s.procs[pid].task;
    match action {
      case CreateBooking(itemId, at) =>
        if pc.Creating? && task.Booking? && pc.ticket.row.policySnapshot.Some? {
          ops := [Create(RequestOf(task.input, pc.ticket), itemId, at)];
          OneStepRun(s.db, ops[0]);
        }
      case Reserve(at, group) =>
        if pc.Reserving? {
          ops := [Move(pc.itemId, ItemState.Reserved, TransitionContext(Quoted, NO_PATCH, None, at, group))];
          OneStepRun(s.db, ops[0]);
        }
      case SendBook(dispatch) =>
        if pc.Calling? && task.Booking? && dispatch == NoContext {
          ops := [SettleOp(pc.itemId, BookFailed, PollClock(s.now, s.now, 0))];
          OneStepRun(s.db, ops[0]);
        }
      case ReceiveBook(answer, clock) =>
        if pc.Answering? {
          ops := [SettleOp(pc.itemId, answer, clock)];
          OneStepRun(s.db, ops[0]);
        }
      case _ =>
    }
  }

  lemma StepCommits(setup: Setup, s: State, step: Step) returns (ops: seq<Op>)
    ensures |ops| <= 1 && Do(setup, s, step).db == Run(s.db, ops)
  {
    ops := [];
    if step.By? && step.pid in s.procs && !s.procs[step.pid].pc.Finished? {
      ops := ActionCommits(setup, s, step.pid, step.action);
    } else if step.Other? && OtherOp(step.op) {
      ops := [step.op];
      OneStepRun(s.db, step.op);
    }
  }

  /** The bookings of an execution are those of some list of operations, so what every run keeps every execution keeps. */
  lemma {:induction false} ExecutionIsARun(setup: Setup, steps: seq<Step>) returns (ops: seq<Op>)
    ensures |ops| <= |steps| && Execute(setup, steps).db == Run(EMPTY_DB, ops)
  {
    ops := [];
    if steps != [] {
      var init := steps[..|steps| - 1];
      ops := ExecutionIsARun(setup, init);
      var more := StepCommits(setup, Execute(setup, init), steps[|steps| - 1]);
      RunsCompose(EMPTY_DB, ops, more);
      ops := ops + more;
    }
  }

  lemma ExecutionsKeepTheBooks(setup: Setup, steps: seq<Step>)
    ensures ProtocolInv(setup, Execute(setup, steps)) && Inv(Execute(setup, steps).db)
  {
    ExecutionKeepsInv(setup, steps);
    var ops := ExecutionIsARun(setup, steps);
    RunKeepsInv(ops);
  }

  // ---------------------------------------------------------------------------
  // Who moves an item

  function Path(s: State, id: nat): seq<Edge> {
    OutboxPath(s.db.outbox, id)
  }

  const RESERVING := Edge(Quoted, ItemState.Reserved)

  /** Where an answer takes the item it was given for. */
  function Destination(answer: BookAnswer): ItemState {
    if answer.BookAnswered? && answer.status == SupplierConfirmed then ItemState.Confirmed
    else if answer.BookAnswered? && answer.status == SupplierPending then PendingConfirmation
    else Failed
  }

  /** `e` leads on from where the item is, and the step is the one that may take it. */
  predicate MovedBy(s: State, step: Step, id: nat, e: Edge) {
    && id in s.db.items && e.from == s.db.items[id].state
    && match step
       case By(pid, action) =>
         && pid in s.procs
         && (match action
             case Reserve(_, _) => s.procs[pid].pc.Reserving? && s.procs[pid].pc.itemId == id && e == RESERVING
             case SendBook(_) => s.procs[pid].pc.Calling? && s.procs[pid].pc.itemId == id && e == Edge(ItemState.Reserved, Failed)
             case ReceiveBook(answer, _) =>
               s.procs[pid].pc.Answering? && s.procs[pid].pc.itemId == id && e == Edge(ItemState.Reserved, Destination(answer))
             case _ => false)
       case Other(_) => e.from in {PendingConfirmation, ItemState.Confirmed}
       case _ => false
  }

  /** The step leaves the item's path alone, or extends it by an edge it may take. */
  ghost predicate PathEffect(s: State, s': State, step: Step, id: nat) {
    Path(s', id) == Path(s, id) || exists e :: MovedBy(s, step, id, e) && Path(s', id) == Path(s, id) + [e]
  }

  lemma ReservePath(s: State, pid: nat, at: int, group: nat, id: nat)
    requires pid in s.procs
    ensures PathEffect(s, DoReserve(s, pid, at, group), By(pid, Reserve(at, group)), id)
  {
    var pc := s.procs[pid].pc;
    if pc.Reserving? {
      OneEventPerTransition(s.db, Move(pc.itemId, ItemState.Reserved, TransitionContext(Quoted, NO_PATCH, None, at, group)), id);
      assert Path(DoReserve(s, pid, at, group), id) != Path(s, id) ==> MovedBy(s, By(pid, Reserve(at, group)), id, RESERVING);
    }
  }

  lemma SendPath(s: State, pid: nat, dispatch: Dispatch, id: nat)
    requires pid in s.procs
    ensures PathEffect(s, DoSend(s, pid, dispatch), By(pid, SendBook(dispatch)), id)
  {
    var pc := s.procs[pid].pc;
    if pc.Calling? && s.procs[pid].task.Booking? && dispatch == NoContext {
      OneEventPerTransition(s.db, SettleOp(pc.itemId, BookFailed, PollClock(s.now, s.now, 0)), id);
      assert Path(DoSend(s, pid, dispatch), id) != Path(s, id) ==>
               MovedBy(s, By(pid, SendBook(dispatch)), id, Edge(ItemState.Reserved, Failed));
    }
  }

  lemma ReceivePath(s: State, pid: nat, answer: BookAnswer, clock: PollClock, id: nat)
    requires pid in s.procs
    ensures PathEffect(s, DoReceive(s, pid, answer, clock), By(pid, ReceiveBook(answer, clock)), id)
  {
    var pc := s.procs[pid].pc;
    if pc.Answering? {
      OneEventPerTransition(s.db, SettleOp(pc.itemId, answer, clock), id);
      assert Path(DoReceive(s, pid, answer, clock), id) != Path(s, id) ==>
               MovedBy(s, By(pid, ReceiveBook(answer, clock)), id, Edge(ItemState.Reserved, Destination(answer)));
    }
  }

  lemma CreatePath(s: State, pid: nat, itemId: nat, at: int, id: nat)
    requires pid in s.procs
    ensures Path(DoCreate(s, pid, itemId, at), id) == Path(s, id)
  {
    var pc, task := s.procs[pid].pc, s.procs[pid].task;
    if pc.Creating? && task.Booking? && pc.ticket.row.policySnapshot.Some? {
      OneEventPerTransition(s.db, Create(RequestOf(task.input, pc.ticket), itemId, at), id);
    }
  }

  lemma ActionPath(setup: Setup, s: State, pid: nat, action: Action, id: nat)
    requires pid in s.procs
    ensures PathEffect(s, Act(setup, s, pid, action), By(pid, action), id)
  {
    match action {
      case CreateBooking(itemId, at) => CreatePath(s, pid, itemId, at, id);
      case Reserve(at, group) => ReservePath(s, pid, at, group, id);
      case SendBook(dispatch) => SendPath(s, pid, dispatch, id);
      case ReceiveBook(answer, clock) => ReceivePath(s, pid, answer, clock, id);
      case FinishCheck => FinishKeepsBookings(s, pid);
      case _ =>
    }
  }

  /** Finishing a check ends the process and leaves bookings and calls alone; any other process it leaves as it is. */
  lemma FinishKeepsBookings(s: State, pid: nat)
    requires pid in s.procs
    ensures var s' := DoFinishCheck(s, pid);
            && s'.db == s.db && s'.calls == s.calls && OneMoves(s, s', pid)
            && var pc := s'.procs[pid].pc; pc == s.procs[pid].pc || pc.Finished?
  {
    var pc := s.procs[pid].pc;
    if pc.Replacing? {
      var s' := DoFinishCheck(s, pid);
      var finished := s'.procs[pid];
      assert s'.procs == s.procs[pid := finished];
    } else if !pc.Marking? && !pc.Withdrawing? {
      assert DoFinishCheck(s, pid) == s;
    }
  }

  /** One process has moved, and the others are where they were. */
  predicate OneMoves(s: State, s': State, pid: nat)
    requires pid in s.procs
  {
    && pid in s'.procs && s'.procs[pid].task == s.procs[pid].task && s'.procs.Keys == s.procs.Keys
    && forall other :: other in s.procs && other != pid ==> s'.procs[other] == s.procs[other]
  }

  lemma StepPath(setup: Setup, s: State, step: Step, id: nat)
    ensures PathEffect(s, Do(setup, s, step), step, id)
  {
    if step.By? && step.pid in s.procs && !s.procs[step.pid].pc.Finished? {
      ActionPath(setup, s, step.pid, step.action, id);
    } else if step.Other? && OtherOp(step.op) {
      OneEventPerTransition(s.db, step.op, id);
      if Path(Do(setup, s, step), id) != Path(s, id) {
        assert MovedBy(s, step, id, Edge(step.op.ctx.expectedFrom, step.op.to));
      }
    }
  }

  /** A process that created the booking of an item. */
  ghost predicate Owns(s: State, pid: nat, id: nat) {
    exists r :: r in s.createdBy && s.createdBy[r] == pid && r in s.db.bookings && s.db.bookings[r].itemId == id
  }

  lemma OneOwner(setup: Setup, s: State, p: nat, q: nat, id: nat)
    requires ProtocolInv(setup, s) && Owns(s, p, id) && Owns(s, q, id)
    ensures p == q
  {
  }

  lemma CallersOwn(setup: Setup, s: State, k: nat)
    requires ProtocolInv(setup, s) && k < |s.calls|
    ensures Owns(s, s.calls[k].pid, s.calls[k].itemId) && s.calls[k].itemId in s.db.items
  {
    assert CallOk(setup, s, s.calls[k]);
  }

  /** The process holds an item it has created. */
  predicate Holds(s: State, pid: nat, id: nat) {
    && pid in s.procs
    && (var pc := s.procs[pid].pc; (pc.Reserving? || pc.Calling? || pc.Answering?) && pc.itemId == id)
  }

  lemma HoldersOwn(setup: Setup, s: State, pid: nat, id: nat)
    requires ProtocolInv(setup, s) && Holds(s, pid, id)
    ensures Owns(s, pid, id) && id in s.db.items
  {
    ProcOf(setup, s, pid);
    if s.procs[pid].pc.Answering? {
      CallersOwn(setup, s, s.procs[pid].pc.call);
    }
  }

  // ---------------------------------------------------------------------------
  // The answers, beside the calls

  /** The answer a step delivers to the call its process waits for. */
  function NextAnswers(s: State, answers: map<nat, BookAnswer>, step: Step): map<nat, BookAnswer> {
    if step.By? && step.action.ReceiveBook? && step.pid in s.procs && s.procs[step.pid].pc.Answering?
    then answers[s.procs[step.pid].pc.call := step.action.answer]
    else answers
  }

  /** The answers an execution has delivered, by the number of the call. */
  function Answers(setup: Setup, steps: seq<Step>): map<nat, BookAnswer> {
    if steps == [] then map[]
    else NextAnswers(Execute(setup, steps[..|steps| - 1]), Answers(setup, steps[..|steps| - 1]), steps[|steps| - 1])
  }

  ghost predicate Called(s: State, id: nat) {
    exists k :: 0 <= k < |s.calls| && s.calls[k].itemId == id
  }

  /** A call's item is reserved until the answer, and goes where the answer takes it. */
  predicate CallStory(s: State, answers: map<nat, BookAnswer>, k: nat)
    requires k < |s.calls|
  {
    var path := Path(s, s.calls[k].itemId);
    if k in answers then |path| >= 2 && path[0] == RESERVING && path[1] == Edge(ItemState.Reserved, Destination(answers[k]))
    else path == [RESERVING]
  }

  /** An item the supplier was not called for gets no further than reserved, unless it fails there. */
  predicate UncalledStory(s: State, id: nat) {
    Path(s, id) <= [RESERVING, Edge(ItemState.Reserved, Failed)]
  }

  predicate ProcStory(s: State, answers: map<nat, BookAnswer>, pid: nat)
    requires pid in s.procs
  {
    match s.procs[pid].pc
    case Reserving(_, id) => Path(s, id) == []
    case Calling(_, id) => Path(s, id) == [RESERVING]
    case Answering(_, call) => call !in answers
    case _ => true
  }

  ghost predicate Story(s: State, answers: map<nat, BookAnswer>) {
    && (forall pid :: pid in s.procs ==> ProcStory(s, answers, pid))
    && (forall k: nat :: k < |s.calls| ==> CallStory(s, answers, k))
    && (forall id :: id in s.db.items ==> Called(s, id) || UncalledStory(s, id))
    && (forall k :: k in answers ==> k < |s.calls|)
  }

  /** The states of an item that has not left the paths of an uncalled one. */
  lemma EarlyStates(db: Db, id: nat)
    requires Inv(db) && id in db.items
    ensures OutboxPath(db.outbox, id) == [] ==> db.items[id].state == Quoted
    ensures OutboxPath(db.outbox, id) == [RESERVING] ==> db.items[id].state == ItemState.Reserved
    ensures OutboxPath(db.outbox, id) == [RESERVING, Edge(ItemState.Reserved, Failed)] ==> db.items[id].state == Failed
  {
    assert ItemInv(db, id);
    var path := OutboxPath(db.outbox, id);
    if path == [RESERVING] {
      assert path[..0] == [];
    }
    if path == [RESERVING, Edge(ItemState.Reserved, Failed)] {
      assert path[..1] == [RESERVING] && path[..1][..0] == [];
    }
  }

  /** An answer to a reserved item settles it. */
  lemma AnswerMoves(s: State, pid: nat, answer: BookAnswer, clock: PollClock)
    requires Inv(s.db) && pid in s.procs && s.procs[pid].pc.Answering?
    requires var id := s.procs[pid].pc.itemId; id in s.db.items && s.db.items[id].state == ItemState.Reserved
    ensures var id := s.procs[pid].pc.itemId;
            Path(DoReceive(s, pid, answer, clock), id) == Path(s, id) + [Edge(ItemState.Reserved, Destination(answer))]
  {
    var id := s.procs[pid].pc.itemId;
    var op := SettleOp(id, answer, clock);
    TransitionSucceedsIff(s.db, id, op.to, op.ctx);
    OneEventPerTransition(s.db, op, id);
  }

  /** The step that answers call k. */
  predicate AnswersCall(s: State, step: Step, k: nat) {
    step.By? && step.action.ReceiveBook? && step.pid in s.procs && s.procs[step.pid].pc.Answering? && s.procs[step.pid].pc.call == k
  }

  /** Whoever moves an item that is not waiting yet holds it. */
  lemma MoversHold(setup: Setup, s: State, step: Step, id: nat, e: Edge)
    requires ProtocolInv(setup, s) && MovedBy(s, step, id, e) && e.from !in {PendingConfirmation, ItemState.Confirmed}
    ensures step.By? && Holds(s, step.pid, id) && Owns(s, step.pid, id)
  {
    HoldersOwn(setup, s, step.pid, id);
  }

  /** The one process that holds a called item is the one that waits for the answer. */
  lemma CalledItemsAwait(setup: Setup, s: State, k: nat, pid: nat)
    requires ProtocolInv(setup, s) && k < |s.calls| && Holds(s, pid, s.calls[k].itemId)
    ensures s.procs[pid].pc.Answering? && s.procs[pid].pc.call == k
  {
    HoldersOwn(setup, s, pid, s.calls[k].itemId);
    CallersOwn(setup, s, k);
    OneOwner(setup, s, pid, s.calls[k].pid, s.calls[k].itemId);
    ProcOf(setup, s, pid);
  }

  lemma UnansweredStays(setup: Setup, s: State, s': State, step: Step, k: nat)
    requires ProtocolInv(setup, s) && k < |s.calls| && !AnswersCall(s, step, k)
    requires var id := s.calls[k].itemId; id in s.db.items && s.db.items[id].state == ItemState.Reserved && PathEffect(s, s', step, id)
    ensures Path(s', s.calls[k].itemId) == Path(s, s.calls[k].itemId)
  {
    var id := s.calls[k].itemId;
    if Path(s', id) != Path(s, id) {
      var e :| MovedBy(s, step, id, e);
      MoversHold(setup, s, step, id, e);
      CalledItemsAwait(setup, s, k, step.pid);
    }
  }

  lemma AnsweredGoes(setup: Setup, s: State, step: Step, k: nat)
    requires Inv(s.db) && AnswersCall(s, step, k)
    requires var id := s.procs[step.pid].pc.itemId; id in s.db.items && s.db.items[id].state == ItemState.Reserved
    ensures var id := s.procs[step.pid].pc.itemId;
            Path(Do(setup, s, step), id) == Path(s, id) + [Edge(ItemState.Reserved, Destination(step.action.answer))]
  {
    AnswerMoves(s, step.pid, step.action.answer, step.action.clock);
  }

  /** What a step shows of a call: its item's path, and the answer delivered to it. */
  ghost predicate CallEffect(s: State, s': State, answers: map<nat, BookAnswer>, step: Step, k: nat)
    requires k < |s.calls|
  {
    var id := s.calls[k].itemId;
    && k < |s'.calls| && s'.calls[k] == s.calls[k] && PathEffect(s, s', step, id)
    && (AnswersCall(s, step, k) ==> k !in answers && Path(s', id) == Path(s, id) + [Edge(ItemState.Reserved, Destination(step.action.answer))])
  }

  lemma CallStoryKeeps(setup: Setup, s: State, s': State, answers: map<nat, BookAnswer>, step: Step, k: nat)
    requires ProtocolInv(setup, s) && Inv(s.db) && k < |s.calls| && CallStory(s, answers, k) && CallEffect(s, s', answers, step, k)
    ensures CallStory(s', NextAnswers(s, answers, step), k)
  {
    if k !in answers && !AnswersCall(s, step, k) {
      CallersOwn(setup, s, k);
      EarlyStates(s.db, s.calls[k].itemId);
      UnansweredStays(setup, s, s', step, k);
    }
  }

  lemma UncalledPaths(s: State, id: nat)
    requires UncalledStory(s, id)
    ensures Path(s, id) == [] || Path(s, id) == [RESERVING] || Path(s, id) == [RESERVING, Edge(ItemState.Reserved, Failed)]
  {
    var whole := [RESERVING, Edge(ItemState.Reserved, Failed)];
    assert Path(s, id) == whole[..|Path(s, id)|];
  }

  /** Whoever moves an uncalled item reserves it, or fails it instead of calling. */
  lemma UncalledMoves(setup: Setup, s: State, answers: map<nat, BookAnswer>, step: Step, id: nat, e: Edge)
    requires ProtocolInv(setup, s) && MovedBy(s, step, id, e) && e.from !in {PendingConfirmation, ItemState.Confirmed} && !Called(s, id)
    requires step.By? && step.pid in s.procs ==> ProcStory(s, answers, step.pid)
    ensures (Path(s, id) == [] && e == RESERVING) || (Path(s, id) == [RESERVING] && e == Edge(ItemState.Reserved, Failed))
  {
    MoversHold(setup, s, step, id, e);
    if s.procs[step.pid].pc.Answering? {
      ProcOf(setup, s, step.pid);
    }
  }

  /** An uncalled item's path goes on as an uncalled item's. */
  lemma UncalledKeeps(setup: Setup, s: State, s': State, answers: map<nat, BookAnswer>, step: Step, id: nat)
    requires ProtocolInv(setup, s) && Inv(s.db) && id in s.db.items && UncalledStory(s, id) && PathEffect(s, s', step, id) && !Called(s, id)
    requires step.By? && step.pid in s.procs ==> ProcStory(s, answers, step.pid)
    ensures UncalledStory(s', id)
  {
    UncalledPaths(s, id);
    EarlyStates(s.db, id);
    if Path(s', id) != Path(s, id) {
      var e :| MovedBy(s, step, id, e) && Path(s', id) == Path(s, id) + [e];
      UncalledMoves(setup, s, answers, step, id, e);
    }
  }

  /** A process that stays where it was keeps its item where it was: nobody else moves it. */
  lemma HeldStays(setup: Setup, s: State, s': State, step: Step, pid: nat, id: nat)
    requires ProtocolInv(setup, s) && Holds(s, pid, id) && PathEffect(s, s', step, id) && (step.By? ==> step.pid != pid)
    requires id in s.db.items && s.db.items[id].state !in {PendingConfirmation, ItemState.Confirmed}
    ensures Path(s', id) == Path(s, id)
  {
    if Path(s', id) != Path(s, id) {
      var e :| MovedBy(s, step, id, e);
      MoversHold(setup, s, step, id, e);
      HoldersOwn(setup, s, pid, id);
      OneOwner(setup, s, pid, step.pid, id);
    }
  }

  /** Nobody else's answer is for the call a process waits for. */
  lemma OwnAnswer(setup: Setup, s: State, step: Step, pid: nat)
    requires ProtocolInv(setup, s) && pid in s.procs && s.procs[pid].pc.Answering? && AnswersCall(s, step, s.procs[pid].pc.call)
    ensures step.pid == pid
  {
    ProcOf(setup, s, pid);
    ProcOf(setup, s, step.pid);
  }

  lemma HolderKeeps(setup: Setup, s: State, s': State, answers: map<nat, BookAnswer>, step: Step, pid: nat)
    requires ProtocolInv(setup, s) && Inv(s.db) && pid in s.procs && pid in s'.procs && s'.procs[pid].pc == s.procs[pid].pc
    requires ProcStory(s, answers, pid) && (step.By? ==> step.pid != pid)
    requires var pc := s.procs[pid].pc; pc.Reserving? || pc.Calling? ==> PathEffect(s, s', step, pc.itemId)
    ensures ProcStory(s', NextAnswers(s, answers, step), pid)
  {
    var pc := s.procs[pid].pc;
    if pc.Reserving? || pc.Calling? {
      HoldersOwn(setup, s, pid, pc.itemId);
      EarlyStates(s.db, pc.itemId);
      HeldStays(setup, s, s', step, pid, pc.itemId);
    } else if pc.Answering? && AnswersCall(s, step, pc.call) {
      OwnAnswer(setup, s, step, pid);
    }
  }

  /** What a process holds after its own step. */
  lemma MoverKeeps(setup: Setup, s: State, answers: map<nat, BookAnswer>, pid: nat, action: Action)
    requires HistoryOk(s) && Inv(s.db) && pid in s.procs && ProcOk(setup, s, pid) && ProcStory(s, answers, pid)
    requires forall k :: k in answers ==> k < |s.calls|
    ensures var s' := Act(setup, s, pid, action);
            pid in s'.procs && ProcStory(s', NextAnswers(s, answers, By(pid, action)), pid)
  {
    match action {
      case CreateBooking(itemId, at) => CreatorHolds(setup, s, answers, pid, itemId, at);
      case Reserve(at, group) => ReserverHolds(s, answers, pid, at, group);
      case ReceiveBook(answer, clock) =>
      case _ => QuietHolds(setup, s, answers, pid, action);
    }
  }

  lemma SenderHolds(s: State, answers: map<nat, BookAnswer>, pid: nat, dispatch: Dispatch)
    requires pid in s.procs && ProcStory(s, answers, pid) && forall k :: k in answers ==> k < |s.calls|
    ensures pid in DoSend(s, pid, dispatch).procs && ProcStory(DoSend(s, pid, dispatch), answers, pid)
  {
  }

  predicate HoldsOn(s: State, s': State, pid: nat)
    requires pid in s.procs
  {
    && s'.db == s.db && pid in s'.procs
    && var pc := s'.procs[pid].pc;
       pc == s.procs[pid].pc || (!pc.Reserving? && !pc.Calling? && !pc.Answering?)
  }

  lemma DecideHoldsOn(setup: Setup, s: State, pid: nat)
    requires pid in s.procs
    ensures HoldsOn(s, DoDecide(setup, s, pid), pid)
  {
  }

  lemma LookHoldsOn(s: State, pid: nat, checked: CheckAnswer)
    requires pid in s.procs
    ensures HoldsOn(s, DoLook(s, pid), pid) && HoldsOn(s, DoRead(s, pid), pid) && HoldsOn(s, DoReceiveCheck(s, pid, checked), pid)
  {
  }

  /** Every other step of a process leaves it holding what it held, or nothing. */
  lemma QuietPc(setup: Setup, s: State, pid: nat, action: Action)
    requires pid in s.procs && !action.CreateBooking? && !action.Reserve? && !action.SendBook? && !action.ReceiveBook?
    ensures HoldsOn(s, Act(setup, s, pid, action), pid)
  {
    match action {
      case Look => LookHoldsOn(s, pid, CheckFailed);
      case ReadOffer => LookHoldsOn(s, pid, CheckFailed);
      case Decide => DecideHoldsOn(setup, s, pid);
      case ReceiveCheck(checked) => LookHoldsOn(s, pid, checked);
      case FinishCheck => FinishKeepsBookings(s, pid);
      case _ =>
    }
  }

  lemma QuietHolds(setup: Setup, s: State, answers: map<nat, BookAnswer>, pid: nat, action: Action)
    requires pid in s.procs && ProcStory(s, answers, pid) && !action.CreateBooking? && !action.Reserve? && !action.ReceiveBook?
    requires forall k :: k in answers ==> k < |s.calls|
    ensures pid in Act(setup, s, pid, action).procs && ProcStory(Act(setup, s, pid, action), answers, pid)
  {
    if action.SendBook? {
      SenderHolds(s, answers, pid, action.dispatch);
    } else {
      QuietPc(setup, s, pid, action);
    }
  }

  lemma ReserverHolds(s: State, answers: map<nat, BookAnswer>, pid: nat, at: int, group: nat)
    requires pid in s.procs && ProcStory(s, answers, pid)
    ensures pid in DoReserve(s, pid, at, group).procs && ProcStory(DoReserve(s, pid, at, group), answers, pid)
  {
    var pc := s.procs[pid].pc;
    if pc.Reserving? {
      OneEventPerTransition(s.db, Move(pc.itemId, ItemState.Reserved, TransitionContext(Quoted, NO_PATCH, None, at, group)), pc.itemId);
    }
  }

  lemma CreatorHolds(setup: Setup, s: State, answers: map<nat, BookAnswer>, pid: nat, itemId: nat, at: int)
    requires HistoryOk(s) && Inv(s.db) && pid in s.procs && ProcOk(setup, s, pid) && ProcStory(s, answers, pid)
    ensures pid in DoCreate(s, pid, itemId, at).procs && ProcStory(DoCreate(s, pid, itemId, at), answers, pid)
  {
    if AboutToCreate(s, pid, itemId, at) {
      CreatedBookingIsOk(setup, s, pid, itemId, at);
      assert ItemInv(s.db, itemId);
      OneEventPerTransition(s.db, Create(RequestOf(s.procs[pid].task.input, s.procs[pid].pc.ticket), itemId, at), itemId);
    } else {
      RefusedCreate(s, pid, itemId, at);
    }
  }

  lemma CreateMovesOne(s: State, pid: nat, itemId: nat, at: int)
    requires pid in s.procs
    ensures OneMoves(s, DoCreate(s, pid, itemId, at), pid)
  {
  }

  /** One process acts: the others are where they were. */
  lemma ActShape(setup: Setup, s: State, pid: nat, action: Action)
    requires pid in s.procs
    ensures OneMoves(s, Act(setup, s, pid, action), pid)
  {
    match action {
      case CreateBooking(itemId, at) => CreateMovesOne(s, pid, itemId, at);
      case FinishCheck => FinishKeepsBookings(s, pid);
      case _ =>
    }
  }

  /** A client reference has 1 to 64 characters. */
  predicate ValidReference(task: Task) {
    task.Booking? ==> 1 <= |task.input.clientReference| <= 64
  }

  /** Processes keep their tasks, all but one stay where they are, and a new one starts at its beginning or refused. */
  ghost predicate ProcsEffect(s: State, s': State, step: Step) {
    && (forall pid :: pid in s'.procs && pid !in s.procs ==>
          var pc := s'.procs[pid].pc; ((pc.Looking? || pc.Reading?) && ValidReference(s'.procs[pid].task)) || (pc.Finished? && pc.reply.Refused?))
    && (forall pid :: pid in s.procs ==> pid in s'.procs && s'.procs[pid].task == s.procs[pid].task)
    && (forall pid :: pid in s.procs ==>
          s'.procs[pid] == s.procs[pid] || (step.By? && step.pid == pid && !s.procs[pid].pc.Finished?))
  }

  lemma DoShape(setup: Setup, s: State, step: Step)
    ensures ProcsEffect(s, Do(setup, s, step), step)
  {
    if step.By? && step.pid in s.procs && !s.procs[step.pid].pc.Finished? {
      ActShape(setup, s, step.pid, step.action);
    }
  }

  /** The step sends the call of a process that was about to. */
  predicate Sends(s: State, step: Step) {
    && step.By? && step.action == SendBook(Sent) && step.pid in s.procs && s.procs[step.pid].pc.Calling? && s.procs[step.pid].task.Booking?
  }

  predicate CallsEffect(s: State, s': State, step: Step) {
    s'.calls == s.calls || (Sends(s, step) && s'.calls == s.calls + [CallOf(s, step.pid)] && s'.db == s.db)
  }

  lemma ActCalls(setup: Setup, s: State, pid: nat, action: Action)
    requires pid in s.procs
    ensures CallsEffect(s, Act(setup, s, pid, action), By(pid, action))
  {
    match action {
      case FinishCheck => FinishKeepsBookings(s, pid);
      case _ =>
    }
  }

  lemma DoCalls(setup: Setup, s: State, step: Step)
    ensures CallsEffect(s, Do(setup, s, step), step)
  {
    if step.By? && step.pid in s.procs && !s.procs[step.pid].pc.Finished? {
      ActCalls(setup, s, step.pid, step.action);
    }
  }

  lemma CallsKeep(setup: Setup, s: State, answers: map<nat, BookAnswer>, step: Step, k: nat)
    requires ProtocolInv(setup, s) && Inv(s.db) && Story(s, answers) && k < |Do(setup, s, step).calls|
    ensures CallStory(Do(setup, s, step), NextAnswers(s, answers, step), k)
  {
    var s' := Do(setup, s, step);
    DoCalls(setup, s, step);
    if k < |s.calls| {
      OldCallKeeps(setup, s, s', answers, step, k);
    } else {
      assert ProcStory(s, answers, step.pid);
    }
  }

  lemma OldCallKeeps(setup: Setup, s: State, s': State, answers: map<nat, BookAnswer>, step: Step, k: nat)
    requires ProtocolInv(setup, s) && Inv(s.db) && Story(s, answers) && k < |s.calls| && CallsEffect(s, s', step) && s' == Do(setup, s, step)
    ensures CallStory(s', NextAnswers(s, answers, step), k)
  {
    assert CallStory(s, answers, k);
    StepPath(setup, s, step, s.calls[k].itemId);
    if AnswersCall(s, step, k) {
      assert ProcStory(s, answers, step.pid);
      ProcOf(setup, s, step.pid);
      CallersOwn(setup, s, k);
      EarlyStates(s.db, s.calls[k].itemId);
      AnsweredGoes(setup, s, step, k);
    }
    CallStoryKeeps(setup, s, s', answers, step, k);
  }

  lemma NewItemHasNoPath(s: State, s': State, step: Step, id: nat)
    requires Inv(s.db) && id !in s.db.items && PathEffect(s, s', step, id)
    ensures UncalledStory(s', id)
  {
    assert ItemInv(s.db, id);
  }

  lemma CalledStays(s: State, s': State, step: Step, id: nat)
    requires Called(s, id) && CallsEffect(s, s', step)
    ensures Called(s', id)
  {
    var k :| 0 <= k < |s.calls| && s.calls[k].itemId == id;
    assert s'.calls[k].itemId == id;
  }

  lemma ItemKeeps(setup: Setup, s: State, s': State, answers: map<nat, BookAnswer>, step: Step, id: nat)
    requires ProtocolInv(setup, s) && Inv(s.db) && Story(s, answers) && CallsEffect(s, s', step) && PathEffect(s, s', step, id)
    ensures Called(s', id) || UncalledStory(s', id)
  {
    if id !in s.db.items {
      NewItemHasNoPath(s, s', step, id);
    } else if Called(s, id) {
      CalledStays(s, s', step, id);
    } else {
      UncalledKeeps(setup, s, s', answers, step, id);
    }
  }

  lemma ProcKeeps(setup: Setup, s: State, s': State, answers: map<nat, BookAnswer>, step: Step, pid: nat)
    requires ProtocolInv(setup, s) && Inv(s.db) && Story(s, answers) && ProcsEffect(s, s', step) && pid in s'.procs
    requires !(step.By? && step.pid == pid)
    requires pid in s.procs && (s.procs[pid].pc.Reserving? || s.procs[pid].pc.Calling?) ==> PathEffect(s, s', step, s.procs[pid].pc.itemId)
    ensures ProcStory(s', NextAnswers(s, answers, step), pid)
  {
    if pid in s.procs {
      assert ProcStory(s, answers, pid);
      HolderKeeps(setup, s, s', answers, step, pid);
    }
  }

  lemma ProcsKeep(setup: Setup, s: State, answers: map<nat, BookAnswer>, step: Step, pid: nat)
    requires ProtocolInv(setup, s) && Inv(s.db) && Story(s, answers) && pid in Do(setup, s, step).procs
    ensures ProcStory(Do(setup, s, step), NextAnswers(s, answers, step), pid)
  {
    DoShape(setup, s, step);
    if step.By? && step.pid == pid {
      ProcOf(setup, s, pid);
      assert ProcStory(s, answers, pid);
      MoverKeeps(setup, s, answers, pid, step.action);
    } else {
      if pid in s.procs && (s.procs[pid].pc.Reserving? || s.procs[pid].pc.Calling?) {
        StepPath(setup, s, step, s.procs[pid].pc.itemId);
      }
      ProcKeeps(setup, s, Do(setup, s, step), answers, step, pid);
    }
  }

  lemma AnswersAreOfCalls(setup: Setup, s: State, answers: map<nat, BookAnswer>, step: Step, k: nat)
    requires ProtocolInv(setup, s) && Story(s, answers) && k in NextAnswers(s, answers, step)
    ensures k < |s.calls|
  {
    if k !in answers {
      ProcOf(setup, s, step.pid);
    }
  }

  lemma StepKeepsStory(setup: Setup, s: State, answers: map<nat, BookAnswer>, step: Step)
    requires ProtocolInv(setup, s) && Inv(s.db) && Story(s, answers)
    ensures Story(Do(setup, s, step), NextAnswers(s, answers, step))
  {
    var s', answers' := Do(setup, s, step), NextAnswers(s, answers, step);
    DoCalls(setup, s, step);
    forall pid | pid in s'.procs ensures ProcStory(s', answers', pid) {
      ProcsKeep(setup, s, answers, step, pid);
    }
    forall k: nat | k < |s'.calls| ensures CallStory(s', answers', k) {
      CallsKeep(setup, s, answers, step, k);
    }
    forall id | id in s'.db.items ensures Called(s', id) || UncalledStory(s', id) {
      StepPath(setup, s, step, id);
      ItemKeeps(setup, s, s', answers, step, id);
    }
    forall k | k in answers' ensures k < |s'.calls| {
      AnswersAreOfCalls(setup, s, answers, step, k);
    }
  }

  lemma {:induction false} ExecutionsKeepTheStory(setup: Setup, steps: seq<Step>)
    ensures Story(Execute(setup, steps), Answers(setup, steps))
  {
    if steps != [] {
      var init := steps[..|steps| - 1];
      ExecutionsKeepTheStory(setup, init);
      ExecutionsKeepTheBooks(setup, init);
      StepKeepsStory(setup, Execute(setup, init), Answers(setup, init), steps[|steps| - 1]);
    }
  }

  // ---------------------------------------------------------------------------
  // The promises

  /** The answers of a supplier that take a reserved item to a state: a confirmation, a pending answer, or a failure or cancellation. */
  predicate AnswerFor(answer: BookAnswer, to: ItemState) {
    match to
    case Confirmed => answer.BookAnswered? && answer.status == SupplierConfirmed
    case PendingConfirmation => answer.BookAnswered? && answer.status == SupplierPending
    case Failed => answer.BookFailed? || answer.status == SupplierCancelled
    case _ => false
  }

  lemma StoryOfCall(s: State, answers: map<nat, BookAnswer>, k: nat)
    requires Story(s, answers) && k < |s.calls|
    ensures CallStory(s, answers, k)
  {
  }

  lemma StoryOfItem(s: State, answers: map<nat, BookAnswer>, id: nat)
    requires Story(s, answers) && id in s.db.items && !Called(s, id)
    ensures UncalledStory(s, id)
  {
  }

  lemma StoryOfProc(s: State, answers: map<nat, BookAnswer>, pid: nat)
    requires Story(s, answers) && pid in s.procs
    ensures ProcStory(s, answers, pid)
  {
  }

  /** What a call and its item show: reserved until answered, then gone the way of the answer. */
  ghost predicate Decided(s: State, answers: map<nat, BookAnswer>, k: nat)
    requires k < |s.calls|
  {
    var id := s.calls[k].itemId;
    var path := OutboxPath(s.db.outbox, id);
    && id in s.db.items
    && (k !in answers ==> s.db.items[id].state == ItemState.Reserved && path == [Edge(Quoted, ItemState.Reserved)])
    && (k in answers ==>
          |path| >= 2 && path[0] == Edge(Quoted, ItemState.Reserved) && path[1].from == ItemState.Reserved && AnswerFor(answers[k], path[1].to))
  }

  lemma CallDecides(setup: Setup, s: State, answers: map<nat, BookAnswer>, k: nat)
    requires k < |s.calls| && s.calls[k].itemId in s.db.items && Inv(s.db) && CallStory(s, answers, k)
    ensures Decided(s, answers, k)
  {
    EarlyStates(s.db, s.calls[k].itemId);
  }

  /**
   In every execution the supplier's answer decides what becomes of the item it was called for: unanswered,
   it stays reserved; answered, its second transition is the one out of reserved that the answer stands for.
   */
  lemma AnswersDecideTheirItems(setup: Setup, steps: seq<Step>, k: nat)
    requires k < |Execute(setup, steps).calls|
    ensures Decided(Execute(setup, steps), Answers(setup, steps), k)
  {
    ExecutionsKeepTheBooks(setup, steps);
    ExecutionsKeepTheStory(setup, steps);
    CallersOwn(setup, Execute(setup, steps), k);
    StoryOfCall(Execute(setup, steps), Answers(setup, steps), k);
    CallDecides(setup, Execute(setup, steps), Answers(setup, steps), k);
  }

  /** A path is replayed in steps, so its edges connect and none but the first leaves quoted. */
  lemma {:induction false} EdgesConnect(path: seq<Edge>, i: nat)
    requires Replay(path).Some? && 0 < i < |path|
    ensures path[i].from == path[i - 1].to
  {
    var init := path[..|path| - 1];
    if i < |path| - 1 {
      EdgesConnect(init, i);
    } else {
      assert init[..i - 1] == path[..i - 1] && init[|init| - 1] == path[i - 1];
    }
  }

  /** Only the second edge of a path leaves reserved. */
  lemma ReservedIsLeftOnce(path: seq<Edge>, i: nat)
    requires Replay(path).Some? && i < |path| && path[i].from == ItemState.Reserved && |path| >= 2 && path[0] == RESERVING
    ensures i == 1
  {
    if i > 1 {
      EdgesConnect(path, i);
      EachStateEnteredOnce(path, 0, i - 1);
    }
  }

  /** The call for an item and its answer, if the answer is one for that state. */
  ghost predicate AnsweredFor(s: State, answers: map<nat, BookAnswer>, id: nat, to: ItemState) {
    exists k :: 0 <= k < |s.calls| && s.calls[k].itemId == id && k in answers && AnswerFor(answers[k], to)
  }

  lemma TakenEdgeIsAnswered(s: State, answers: map<nat, BookAnswer>, k: nat, to: ItemState, i: nat)
    requires k < |s.calls| && Decided(s, answers, k)
    requires var path := OutboxPath(s.db.outbox, s.calls[k].itemId);
             Replay(path).Some? && i < |path| && path[i] == Edge(ItemState.Reserved, to)
    ensures AnsweredFor(s, answers, s.calls[k].itemId, to)
  {
    if k in answers {
      ReservedIsLeftOnce(OutboxPath(s.db.outbox, s.calls[k].itemId), i);
    }
  }

  lemma AnswerTakesItsEdge(s: State, answers: map<nat, BookAnswer>, k: nat, to: ItemState)
    requires k < |s.calls| && k in answers && AnswerFor(answers[k], to) && Decided(s, answers, k)
    ensures Edge(ItemState.Reserved, to) in OutboxPath(s.db.outbox, s.calls[k].itemId)
  {
    var path := OutboxPath(s.db.outbox, s.calls[k].itemId);
    assert path[1] == Edge(ItemState.Reserved, to);
  }

  lemma AnsweredEdgeIsTaken(setup: Setup, steps: seq<Step>, id: nat, to: ItemState)
    requires AnsweredFor(Execute(setup, steps), Answers(setup, steps), id, to)
    ensures Edge(ItemState.Reserved, to) in OutboxPath(Execute(setup, steps).db.outbox, id)
  {
    var s, answers := Execute(setup, steps), Answers(setup, steps);
    var k :| 0 <= k < |s.calls| && s.calls[k].itemId == id && k in answers && AnswerFor(answers[k], to);
    AnswersDecideTheirItems(setup, steps, k);
    AnswerTakesItsEdge(s, answers, k, to);
  }

  lemma UncalledEdges(s: State, answers: map<nat, BookAnswer>, id: nat)
    requires Story(s, answers) && id in s.db.items && !Called(s, id)
    ensures forall to :: Edge(ItemState.Reserved, to) in OutboxPath(s.db.outbox, id) ==> to == Failed
  {
    StoryOfItem(s, answers, id);
    UncalledPaths(s, id);
  }

  /**
   Every edge an item takes out of reserved to confirmed or pending stands for a call made for that item
   whose recorded answer was that; and every such answer is in the trail. An item fails from reserved
   because its call failed or was answered with a cancellation, or because no call was made.
   */
  lemma EdgesStandForAnswers(setup: Setup, steps: seq<Step>, id: nat, to: ItemState)
    requires id in Execute(setup, steps).db.items
    ensures var s, answers := Execute(setup, steps), Answers(setup, steps);
            var taken := Edge(ItemState.Reserved, to) in OutboxPath(s.db.outbox, id);
            && (AnsweredFor(s, answers, id, to) ==> taken)
            && (taken ==> AnsweredFor(s, answers, id, to) || (to == Failed && !Called(s, id)))
  {
    var s, answers := Execute(setup, steps), Answers(setup, steps);
    var path := OutboxPath(s.db.outbox, id);
    if AnsweredFor(s, answers, id, to) {
      AnsweredEdgeIsTaken(setup, steps, id, to);
    }
    if i: nat :| i < |path| && path[i] == Edge(ItemState.Reserved, to) {
      if k :| 0 <= k < |s.calls| && s.calls[k].itemId == id {
        var ops := ExecutionIsARun(setup, steps);
        TrailsReplayToTheState(ops, id);
        AnswersDecideTheirItems(setup, steps, k);
        TakenEdgeIsAnswered(s, answers, k, to, i);
      } else {
        ExecutionsKeepTheStory(setup, steps);
        UncalledEdges(s, answers, id);
      }
    }
  }

  /** What an answer leaves of the item: its state and reference, and the schedule of a pending one. */
  predicate SettledBy(item: ItemRow, before: ItemRow, answer: BookAnswer, clock: PollClock) {
    && AnswerFor(answer, item.state)
    && item.supplierReference == (if answer.BookAnswered? then Some(answer.reference) else before.supplierReference)
    && (item.state == PendingConfirmation ==>
          item.pendingSince == Some(clock.now) && item.nextPollAt == Some(clock.now + 30000) && item.pollAttempts == 0)
    && (item.state != PendingConfirmation ==> item.pendingSince == before.pendingSince && item.nextPollAt.None?)
    && item.cancellationRequestedAt == before.cancellationRequestedAt && item.escalatedAt == before.escalatedAt
  }

  /** The answered call's reply to its caller. */
  predicate RepliesWith(reply: Reply, id: nat, answer: BookAnswer, state: ItemState) {
    reply == if answer.BookFailed? then Refused(SupplierFailed) else Booked(id, state)
  }

  /** The balances of a confirmed item: its sell price owed by the agency and earned, its net spent and owed to the supplier. */
  ghost predicate Recognized(db: Db, id: nat)
    requires id in db.items
  {
    forall account, currency ::
      Balance(db.journal, id, account, currency)
      == AccountSign(account) * (if currency != db.items[id].currency then 0
                                 else if account in {AgencyReceivable, Sales} then db.items[id].sell else db.items[id].net)
  }

  lemma ConfirmedIsRecognized(db: Db, id: nat)
    requires Inv(db) && id in db.items
    ensures db.items[id].state == ItemState.Confirmed ==> Recognized(db, id)
  {
    assert ItemInv(db, id);
    if db.items[id].state == ItemState.Confirmed {
      forall account, currency
        ensures Balance(db.journal, id, account, currency)
                == AccountSign(account) * (if currency != db.items[id].currency then 0
                                           else if account in {AgencyReceivable, Sales} then db.items[id].sell else db.items[id].net)
      {
        assert ItemRuns.Settled(db, id, account, currency);
      }
    }
  }

  /** The whole effect of an answer on a reserved item, its books and its caller. */
  ghost predicate AnswerSettled(s: State, s': State, pid: nat, id: nat, answer: BookAnswer, clock: PollClock) {
    && id in s.db.items && s.db.items[id].state == ItemState.Reserved
    && id in s'.db.items && SettledBy(s'.db.items[id], s.db.items[id], answer, clock)
    && pid in s'.procs && s'.procs[pid].pc.Finished? && RepliesWith(s'.procs[pid].pc.reply, id, answer, s'.db.items[id].state)
    && (s'.db.items[id].state == ItemState.Confirmed ==> Recognized(s'.db, id))
    && (s'.db.items[id].state != ItemState.Confirmed ==> s'.db.journal == s.db.journal)
    && s'.db.bookings == s.db.bookings && (forall other :: other in s.db.items && other != id ==> other in s'.db.items && s'.db.items[other] == s.db.items[other])
  }

  lemma AnswerSettles(s: State, pid: nat, answer: BookAnswer, clock: PollClock)
    requires Inv(s.db) && pid in s.procs && s.procs[pid].pc.Answering?
    requires var id := s.procs[pid].pc.itemId; id in s.db.items && s.db.items[id].state == ItemState.Reserved
    ensures AnswerSettled(s, DoReceive(s, pid, answer, clock), pid, s.procs[pid].pc.itemId, answer, clock)
  {
    var id := s.procs[pid].pc.itemId;
    var op := SettleOp(id, answer, clock);
    TransitionSucceedsIff(s.db, id, op.to, op.ctx);
    TransitionWrites(s.db, id, op.to, op.ctx);
    if op.to != ItemState.Confirmed {
      OthersPostNothing(s.db, id, op.to, op.ctx);
    }
    StepKeepsInv(s.db, op);
    ConfirmedIsRecognized(Apply(s.db, op), id);
  }

  lemma AwaitingItemIsReserved(setup: Setup, s: State, answers: map<nat, BookAnswer>, pid: nat)
    requires ProtocolInv(setup, s) && Inv(s.db) && Story(s, answers) && pid in s.procs && s.procs[pid].pc.Answering?
    ensures var id := s.procs[pid].pc.itemId; id in s.db.items && s.db.items[id].state == ItemState.Reserved
  {
    HoldersOwn(setup, s, pid, s.procs[pid].pc.itemId);
    ProcOf(setup, s, pid);
    StoryOfProc(s, answers, pid);
    StoryOfCall(s, answers, s.procs[pid].pc.call);
    EarlyStates(s.db, s.procs[pid].pc.itemId);
  }

  lemma AwaitingInExecutions(setup: Setup, steps: seq<Step>, pid: nat)
    requires var s := Execute(setup, steps); pid in s.procs && s.procs[pid].pc.Answering?
    ensures var s := Execute(setup, steps);
            var id := s.procs[pid].pc.itemId;
            Inv(s.db) && id in s.db.items && s.db.items[id].state == ItemState.Reserved
  {
    ExecutionsKeepTheBooks(setup, steps);
    ExecutionsKeepTheStory(setup, steps);
    AwaitingItemIsReserved(setup, Execute(setup, steps), Answers(setup, steps), pid);
  }

  /**
   When a supplier answers in a reachable state, the item is still reserved and ends confirmed exactly if
   the answer is a confirmation, pending exactly if it is pending, and failed exactly if the call failed
   or the booking was cancelled. The answer's reference is kept, a pending item is due thirty seconds on,
   sell and net are posted exactly on confirmation, and the caller is told the state the item has.
   */
  lemma AnswersSettleBookings(setup: Setup, steps: seq<Step>, pid: nat, answer: BookAnswer, clock: PollClock)
    requires var s := Execute(setup, steps); pid in s.procs && s.procs[pid].pc.Answering?
    ensures var s := Execute(setup, steps);
            AnswerSettled(s, Do(setup, s, By(pid, ReceiveBook(answer, clock))), pid, s.procs[pid].pc.itemId, answer, clock)
  {
    AwaitingInExecutions(setup, steps, pid);
    AnswerSettles(Execute(setup, steps), pid, answer, clock);
  }

  /** A booking left pending is polled from thirty seconds on, and not before. */
  lemma PendingBookingsAreDue(setup: Setup, steps: seq<Step>, pid: nat, reference: string, clock: PollClock, policy: BackoffPolicy, now: int)
    requires var s := Execute(setup, steps); pid in s.procs && s.procs[pid].pc.Answering?
    ensures var s := Execute(setup, steps);
            var s', id := Do(setup, s, By(pid, ReceiveBook(BookAnswered(SupplierPending, reference), clock))), s.procs[pid].pc.itemId;
            && id in s'.db.items
            && (Due(policy, s'.db.items[id], now) <==> clock.now + 30000 <= now && s'.db.items[id].escalatedAt.None?)
  {
    AnswersSettleBookings(setup, steps, pid, BookAnswered(SupplierPending, reference), clock);
  }
}
