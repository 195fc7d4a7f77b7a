/**
 Runs of the booking engine. Every writer goes through the runner, one transaction at a time, so any
 interleaving of callers, workers, crashes and retries commits some sequence of the operations below;
 what holds after every sequence holds in every reachable state.
 */
module ItemRuns {
  import opened BookingStates
  import opened Ledger
  import opened Money
  import opened TransitionRunner
  import opened Wrappers

  datatype Op =
    | Create(input: CreateInput, itemId: nat, now: int)
    | Move(itemId: nat, to: ItemState, ctx: TransitionContext)
    | RequestCancel(itemId: nat, requestedAt: int)
    | EscalateItem(itemId: nat, now: int)
    | RecordPoll(itemId: nat, attempts: int, nextPollAt: int)
    | Stamp(eventId: nat, at: int)

  function Apply(db: Db, op: Op): Db {
    match op
    case Create(input, itemId, now) => CreateHotelBooking(db, input, itemId, now).0
    case Move(itemId, to, ctx) => Transition(db, itemId, to, ctx).0
    case RequestCancel(itemId, requestedAt) => MarkCancellationRequested(db, itemId, requestedAt).0
    case EscalateItem(itemId, now) => Escalate(db, itemId, now).0
    case RecordPoll(itemId, attempts, nextPollAt) => RecordPollAttempt(db, itemId, attempts, nextPollAt)
    case Stamp(eventId, at) => StampPublished(db, eventId, at)
  }

  function Run(db: Db, ops: seq<Op>): Db {
    if ops == [] then db else Apply(Run(db, ops[..|ops| - 1]), ops[|ops| - 1])
  }

  lemma RunAppend(db: Db, ops: seq<Op>, op: Op)
    ensures Run(db, ops + [op]) == Apply(Run(db, ops), op)
  {
    assert (ops + [op])[..|ops + [op]| - 1] == ops;
  }

  lemma OneStepRun(db: Db, op: Op)
    ensures Run(db, [op]) == Apply(db, op)
  {
    RunAppend(db, [], op);
    assert [] + [op] == [op];
  }

  lemma {:induction false} RunsCompose(db: Db, a: seq<Op>, b: seq<Op>)
    ensures Run(db, a + b) == Run(Run(db, a), b)
  {
    if b == [] {
      assert a + b == a;
    } else {
      var init, last := b[..|b| - 1], b[|b| - 1];
      assert a + b == a + init + [last];
      RunsCompose(db, a, init);
      RunAppend(db, a + init, last);
    }
  }

  // ---------------------------------------------------------------------------
  // Replaying the outbox

  datatype Edge = Edge(from: ItemState, to: ItemState)

  /** One item's transitions, as the outbox recorded them. */
  function OutboxPath(outbox: seq<OutboxEvent>, itemId: nat): seq<Edge> {
    if outbox == [] then []
    else
      var e := outbox[|outbox| - 1];
      var init := OutboxPath(outbox[..|outbox| - 1], itemId);
      if e.itemId == itemId && e.change.Moved? then init + [Edge(e.change.from, e.change.to)] else init
  }

  /** One item's transitions, as the audit trail recorded them. */
  function AuditPath(audit: seq<AuditEvent>, itemId: nat): seq<Edge> {
    if audit == [] then []
    else
      var e := audit[|audit| - 1];
      var init := AuditPath(audit[..|audit| - 1], itemId);
      if e.itemId == itemId && e.change.Moved? then init + [Edge(e.change.from, e.change.to)] else init
  }

  /** Executable: legal in the state machine and given a financial meaning. */
  predicate Executable(e: Edge) {
    CanTransition(e.from, e.to) && PostingTemplate(e.from, e.to).Some?
  }

  /** Following a path from quoted; None when some step is not executable or does not connect. */
  function Replay(path: seq<Edge>): Option<ItemState> {
    if path == [] then Some(Quoted)
    else
      var e := path[|path| - 1];
      match Replay(path[..|path| - 1])
      case None => None
      case Some(state) => if state == e.from && Executable(e) then Some(e.to) else None
  }

  /** The penalty of the item's cancelling transition, None when free. */
  function PostedPenalty(audit: seq<AuditEvent>, itemId: nat): Option<Money> {
    if audit == [] then None
    else
      var e := audit[|audit| - 1];
      if e.itemId == itemId && e.change.Moved? && e.change.to == Cancelled then e.penalty
      else PostedPenalty(audit[..|audit| - 1], itemId)
  }

  /** What a posted penalty comes to, nothing when free. */
  function Charged(penalty: Option<Money>): int {
    if penalty.Some? then penalty.value.amount else 0
  }

  // ---------------------------------------------------------------------------
  // The invariant

  /** What an item must hold on an account in a currency, given only its row and posted penalty. */
  function ExpectedBalance(item: ItemRow, penalty: Option<Money>, account: Account, currency: string): int {
    match item.state
    case Confirmed =>
      AccountSign(account) * In(ConfirmedOn(account, Money(item.sell, item.currency), Money(item.net, item.currency)), currency)
    case Cancelled => AccountSign(account) * (if penalty.Some? then In(penalty.value, currency) else 0)
    case _ => 0
  }

  ghost predicate Settled(db: Db, itemId: nat, account: Account, currency: string)
    requires itemId in db.items
  {
    Balance(db.journal, itemId, account, currency)
    == ExpectedBalance(db.items[itemId], PostedPenalty(db.audit, itemId), account, currency)
  }

  /** Per item: history and balances; and nothing is recorded for items that do not exist. */
  ghost predicate ItemInv(db: Db, id: nat) {
    if id in db.items then
      && Replay(OutboxPath(db.outbox, id)) == Some(db.items[id].state)
      && AuditPath(db.audit, id) == OutboxPath(db.outbox, id)
      && ValidMoney(Money(db.items[id].sell, db.items[id].currency))
      && ValidMoney(Money(db.items[id].net, db.items[id].currency))
      && forall account, currency :: Settled(db, id, account, currency)
    else
      && OutboxPath(db.outbox, id) == [] && AuditPath(db.audit, id) == []
      && forall account, currency :: Balance(db.journal, id, account, currency) == 0
  }

  ghost predicate Inv(db: Db) {
    && (forall id: nat :: ItemInv(db, id))
    && (forall group: nat, currency: string :: GroupTotal(db.journal, group, currency) == 0)
  }

  // ---------------------------------------------------------------------------
  // Appending to the trails

  lemma PathsExtend(outbox: seq<OutboxEvent>, audit: seq<AuditEvent>, e: OutboxEvent, a: AuditEvent, id: nat)
    ensures OutboxPath(outbox + [e], id)
            == OutboxPath(outbox, id) + (if e.itemId == id && e.change.Moved? then [Edge(e.change.from, e.change.to)] else [])
    ensures AuditPath(audit + [a], id)
            == AuditPath(audit, id) + (if a.itemId == id && a.change.Moved? then [Edge(a.change.from, a.change.to)] else [])
    ensures PostedPenalty(audit + [a], id)
            == if a.itemId == id && a.change.Moved? && a.change.to == Cancelled then a.penalty else PostedPenalty(audit, id)
  {
    assert (outbox + [e])[..|outbox|] == outbox && (audit + [a])[..|audit|] == audit;
  }

  lemma ReplayExtends(path: seq<Edge>, e: Edge)
    ensures Replay(path + [e])
            == match Replay(path) case None => None case Some(s) => if s == e.from && Executable(e) then Some(e.to) else None
  {
    assert (path + [e])[..|path|] == path;
  }

  lemma {:induction false} StampKeepsPaths(outbox: seq<OutboxEvent>, i: nat, at: int, id: nat)
    requires i < |outbox|
    ensures OutboxPath(outbox[i := outbox[i].(publishedAt := Some(at))], id) == OutboxPath(outbox, id)
  {
    var stamped := outbox[i := outbox[i].(publishedAt := Some(at))];
    var n := |outbox| - 1;
    if i == n {
      assert stamped[..n] == outbox[..n];
    } else {
      assert stamped[..n] == outbox[..n][i := outbox[i].(publishedAt := Some(at))];
      StampKeepsPaths(outbox[..n], i, at, id);
    }
  }

  // ---------------------------------------------------------------------------
  // Each operation keeps the invariant

  /** An operation that posts nothing and moves no state keeps the invariant of item `id`. */
  lemma QuietStepKeeps(db: Db, db': Db, id: nat)
    requires ItemInv(db, id)
    requires db'.journal == db.journal
    requires OutboxPath(db'.outbox, id) == OutboxPath(db.outbox, id) && AuditPath(db'.audit, id) == AuditPath(db.audit, id)
    requires PostedPenalty(db'.audit, id) == PostedPenalty(db.audit, id)
    requires id in db'.items <==> id in db.items
    requires id in db.items ==>
               var r, r' := db.items[id], db'.items[id];
               r'.state == r.state && r'.sell == r.sell && r'.net == r.net && r'.currency == r.currency
    ensures ItemInv(db', id)
  {
    if id in db.items {
      forall account, currency ensures Settled(db', id, account, currency) {
        assert Settled(db, id, account, currency);
      }
    }
  }

  lemma RequestCancelKeeps(db: Db, op: Op, id: nat)
    requires ItemInv(db, id) && op.RequestCancel?
    ensures ItemInv(Apply(db, op), id)
  {
    var db' := Apply(db, op);
    if db' != db {
      PathsExtend(db.outbox, db.audit, OutboxEvent(op.itemId, CancellationRequested, op.requestedAt, None),
                  AuditEvent(op.itemId, CancellationRequested, None, None), id);
      QuietStepKeeps(db, db', id);
    }
  }

  lemma EscalateKeeps(db: Db, op: Op, id: nat)
    requires ItemInv(db, id) && op.EscalateItem?
    ensures ItemInv(Apply(db, op), id)
  {
    var db' := Apply(db, op);
    if db' != db {
      PathsExtend(db.outbox, db.audit, OutboxEvent(op.itemId, Escalated, op.now, None),
                  AuditEvent(op.itemId, Escalated, None, None), id);
      QuietStepKeeps(db, db', id);
    }
  }

  lemma RecordPollKeeps(db: Db, op: Op, id: nat)
    requires ItemInv(db, id) && op.RecordPoll?
    ensures ItemInv(Apply(db, op), id)
  {
    QuietStepKeeps(db, Apply(db, op), id);
  }

  lemma StampKeeps(db: Db, op: Op, id: nat)
    requires ItemInv(db, id) && op.Stamp?
    ensures ItemInv(Apply(db, op), id)
  {
    var db' := Apply(db, op);
    if db' != db {
      StampKeepsPaths(db.outbox, op.eventId, op.at, id);
      QuietStepKeeps(db, db', id);
    }
  }

  lemma CreateKeeps(db: Db, op: Op, id: nat)
    requires ItemInv(db, id) && op.Create?
    ensures ItemInv(Apply(db, op), id)
  {
    var db' := Apply(db, op);
    if db' != db {
      PathsExtend(db.outbox, db.audit, OutboxEvent(op.itemId, BookingCreated, op.now, None),
                  AuditEvent(op.itemId, BookingCreated, None, None), id);
      if id != op.itemId {
        QuietStepKeeps(db, db', id);
      } else {
        assert db'.items[id].state == Quoted && db'.journal == db.journal;
        forall account, currency ensures Settled(db', id, account, currency) {
          assert Balance(db.journal, id, account, currency) == 0;
        }
      }
    }
  }

  /** Committing one edge takes the item from the balances of its old state to those of the new one. */
  lemma EdgeSettles(from: ItemState, to: ItemState, item: ItemRow, amounts: Amounts, penalty: Option<Money>, account: Account, currency: string)
    requires item.state == from && Executable(Edge(from, to))
    requires amounts.sell == Money(item.sell, item.currency) && amounts.net == Money(item.net, item.currency)
    ensures ExpectedBalance(item, penalty, account, currency) + LineTotal(PostingTemplate(from, to).value, amounts, account, currency)
            == ExpectedBalance(item.(state := to), amounts.penalty, account, currency)
  {
    EdgeTotals(amounts, account, currency);
  }

  /** The entries a successful transition posts. */
  function PostedBy(db: Db, op: Op): seq<JournalEntry>
    requires op.Move? && Transition(db, op.itemId, op.to, op.ctx).1.Success?
  {
    var item := db.items[op.itemId];
    PostTransitionEntries(PostingTemplate(op.ctx.expectedFrom, op.to).value, Money(item.sell, item.currency),
                          Money(item.net, item.currency), op.ctx.penalty, op.ctx.group, op.itemId).value.entries
  }

  function AmountsOf(db: Db, op: Op): Amounts
    requires op.Move? && op.itemId in db.items
  {
    var item := db.items[op.itemId];
    Amounts(Money(item.sell, item.currency), Money(item.net, item.currency), if op.ctx.penalty.Some? then op.ctx.penalty.value else None)
  }

  /** Whether or not the template has lines, what is posted is exactly its lines' entries. */
  lemma PostedAreTheLines(db: Db, op: Op)
    requires op.Move? && Transition(db, op.itemId, op.to, op.ctx).1.Success?
    ensures op.itemId in db.items && Executable(Edge(op.ctx.expectedFrom, op.to)) && db.items[op.itemId].state == op.ctx.expectedFrom
    ensures PostedBy(db, op) == Entries(PostingTemplate(op.ctx.expectedFrom, op.to).value, AmountsOf(db, op), op.ctx.group, op.itemId)
    ensures var db' := Apply(db, op);
            && db'.journal == db.journal + PostedBy(db, op)
            && db'.items == db.items[op.itemId := Patched(db.items[op.itemId], op.to, op.ctx)]
            && db'.bookings == db.bookings
            && (exists group :: db'.audit == db.audit + [AuditEvent(op.itemId, Moved(op.ctx.expectedFrom, op.to), group, AmountsOf(db, op).penalty)])
            && db'.outbox == db.outbox + [OutboxEvent(op.itemId, Moved(op.ctx.expectedFrom, op.to), op.ctx.now, None)]
  {
  }

  lemma PostingOnItem(db: Db, op: Op, id: nat, account: Account, currency: string)
    requires op.Move? && Transition(db, op.itemId, op.to, op.ctx).1.Success?
    ensures Balance(Apply(db, op).journal, id, account, currency)
            == Balance(db.journal, id, account, currency)
               + if id == op.itemId then LineTotal(PostingTemplate(op.ctx.expectedFrom, op.to).value, AmountsOf(db, op), account, currency) else 0
  {
    PostedAreTheLines(db, op);
    BalanceConcat(db.journal, PostedBy(db, op), id, account, currency);
    EntriesCarryTheLines(PostingTemplate(op.ctx.expectedFrom, op.to).value, AmountsOf(db, op), op.ctx.group, op.itemId, id, account, currency);
  }

  /** What a successful transition appends to the trails of item `id`. */
  lemma MoveTrails(db: Db, op: Op, id: nat)
    requires op.Move? && Transition(db, op.itemId, op.to, op.ctx).1.Success?
    ensures var db', moved := Apply(db, op), op.itemId == id;
            && OutboxPath(db'.outbox, id) == OutboxPath(db.outbox, id) + (if moved then [Edge(op.ctx.expectedFrom, op.to)] else [])
            && AuditPath(db'.audit, id) == AuditPath(db.audit, id) + (if moved then [Edge(op.ctx.expectedFrom, op.to)] else [])
            && PostedPenalty(db'.audit, id)
               == if moved && op.to == Cancelled then AmountsOf(db, op).penalty else PostedPenalty(db.audit, id)
  {
    PostedAreTheLines(db, op);
    var db' := Apply(db, op);
    var group :| db'.audit == db.audit + [AuditEvent(op.itemId, Moved(op.ctx.expectedFrom, op.to), group, AmountsOf(db, op).penalty)];
    PathsExtend(db.outbox, db.audit, OutboxEvent(op.itemId, Moved(op.ctx.expectedFrom, op.to), op.ctx.now, None),
                AuditEvent(op.itemId, Moved(op.ctx.expectedFrom, op.to), group, AmountsOf(db, op).penalty), id);
  }

  lemma MoveSettles(db: Db, op: Op, account: Account, currency: string)
    requires op.Move? && Transition(db, op.itemId, op.to, op.ctx).1.Success? && ItemInv(db, op.itemId)
    ensures Settled(Apply(db, op), op.itemId, account, currency)
  {
    PostedAreTheLines(db, op);
    MoveTrails(db, op, op.itemId);
    assert Settled(db, op.itemId, account, currency);
    PostingOnItem(db, op, op.itemId, account, currency);
    EdgeSettles(op.ctx.expectedFrom, op.to, db.items[op.itemId], AmountsOf(db, op), PostedPenalty(db.audit, op.itemId), account, currency);
  }

  lemma MoveKeepsOwn(db: Db, op: Op)
    requires op.Move? && ItemInv(db, op.itemId)
    ensures ItemInv(Apply(db, op), op.itemId)
  {
    if Transition(db, op.itemId, op.to, op.ctx).1.Success? {
      PostedAreTheLines(db, op);
      MoveTrails(db, op, op.itemId);
      ReplayExtends(OutboxPath(db.outbox, op.itemId), Edge(op.ctx.expectedFrom, op.to));
      forall account, currency ensures Settled(Apply(db, op), op.itemId, account, currency) {
        MoveSettles(db, op, account, currency);
      }
    }
  }

  lemma MoveKeepsOther(db: Db, op: Op, id: nat)
    requires ItemInv(db, id) && op.Move? && id != op.itemId
    ensures ItemInv(Apply(db, op), id)
  {
    if Transition(db, op.itemId, op.to, op.ctx).1.Success? {
      PostedAreTheLines(db, op);
      MoveTrails(db, op, id);
      var db' := Apply(db, op);
      forall account, currency ensures Balance(db'.journal, id, account, currency) == Balance(db.journal, id, account, currency) {
        PostingOnItem(db, op, id, account, currency);
      }
      if id in db.items {
        forall account, currency ensures Settled(db', id, account, currency) {
          assert Settled(db, id, account, currency);
        }
      }
    }
  }

  lemma StepKeepsGroups(db: Db, op: Op, group: nat, currency: string)
    requires GroupTotal(db.journal, group, currency) == 0
    ensures GroupTotal(Apply(db, op).journal, group, currency) == 0
  {
    if op.Move? && Transition(db, op.itemId, op.to, op.ctx).1.Success? {
      PostedAreTheLines(db, op);
      TableIsBalanced(op.ctx.expectedFrom, op.to);
      GroupTotalConcat(db.journal, PostedBy(db, op), group, currency);
      StaticCheckBalancesEveryGroup(PostingTemplate(op.ctx.expectedFrom, op.to).value, AmountsOf(db, op), op.ctx.group, op.itemId, group, currency);
    }
  }

  lemma StepKeepsInv(db: Db, op: Op)
    requires Inv(db)
    ensures Inv(Apply(db, op))
  {
    forall id: nat ensures ItemInv(Apply(db, op), id) {
      assert ItemInv(db, id);
      match op {
        case Create(_, _, _) => CreateKeeps(db, op, id);
        case Move(itemId, _, _) => if id == itemId { MoveKeepsOwn(db, op); } else { MoveKeepsOther(db, op, id); }
        case RequestCancel(_, _) => RequestCancelKeeps(db, op, id);
        case EscalateItem(_, _) => EscalateKeeps(db, op, id);
        case RecordPoll(_, _, _) => RecordPollKeeps(db, op, id);
        case Stamp(_, _) => StampKeeps(db, op, id);
      }
    }
    forall group: nat, currency: string ensures GroupTotal(Apply(db, op).journal, group, currency) == 0 {
      StepKeepsGroups(db, op, group, currency);
    }
  }

  lemma {:induction false} RunFromKeepsInv(db: Db, ops: seq<Op>)
    requires Inv(db)
    ensures Inv(Run(db, ops))
  {
    if ops != [] {
      RunFromKeepsInv(db, ops[..|ops| - 1]);
      StepKeepsInv(Run(db, ops[..|ops| - 1]), ops[|ops| - 1]);
    }
  }

  lemma RunKeepsInv(ops: seq<Op>)
    ensures Inv(Run(EMPTY_DB, ops))
  {
    RunFromKeepsInv(EMPTY_DB, ops);
  }

  // ---------------------------------------------------------------------------
  // The promises

  /**
   In every reachable state an item's balance on each account and currency depends only on its state,
   whatever path led there: nothing before confirmation or after failure, the sell and net amounts
   while confirmed, exactly the posted penalty once cancelled.
   */
  lemma {:induction false} BalancesDependOnStateOnly(ops: seq<Op>, id: nat, account: Account, currency: string)
    requires id in Run(EMPTY_DB, ops).items
    ensures var db := Run(EMPTY_DB, ops);
            Balance(db.journal, id, account, currency)
            == ExpectedBalance(db.items[id], PostedPenalty(db.audit, id), account, currency)
    ensures Run(EMPTY_DB, ops).items[id].state !in {Issued, AmendmentPending, Completed}
  {
    RunKeepsInv(ops);
    var db := Run(EMPTY_DB, ops);
    assert ItemInv(db, id);
    assert Settled(db, id, account, currency);
    ReplayReachesTemplatedStates(OutboxPath(db.outbox, id));
  }

  lemma {:induction false} ReplayReachesTemplatedStates(path: seq<Edge>)
    requires Replay(path).Some?
    ensures Replay(path).value !in {Issued, AmendmentPending, Completed}
  {
    if path != [] {
      ReplayReachesTemplatedStates(path[..|path| - 1]);
    }
  }

  /** Debits equal credits in every group of every reachable journal, so the ledger check finds nothing. */
  lemma LedgerIsAlwaysBalanced(ops: seq<Op>)
    ensures UnbalancedTransactionGroups(Run(EMPTY_DB, ops).journal) == {}
  {
    RunKeepsInv(ops);
    var journal := Run(EMPTY_DB, ops).journal;
    forall i | 0 <= i < |journal| ensures GroupTotal(journal, journal[i].group, journal[i].currency) == 0 {
    }
  }

  /**
   The outbox and the audit trail tell the same story, one event per transition, and replaying either
   from quoted along executable edges ends in the item's current state.
   */
  lemma {:induction false} TrailsReplayToTheState(ops: seq<Op>, id: nat)
    requires id in Run(EMPTY_DB, ops).items
    ensures var db := Run(EMPTY_DB, ops);
            && Replay(OutboxPath(db.outbox, id)) == Some(db.items[id].state)
            && AuditPath(db.audit, id) == OutboxPath(db.outbox, id)
  {
    RunKeepsInv(ops);
    assert ItemInv(Run(EMPTY_DB, ops), id);
  }

  /** An operation adds at most one edge to an item's trail: the one it committed. */
  lemma OneEventPerTransition(db: Db, op: Op, id: nat)
    ensures OutboxPath(Apply(db, op).outbox, id)
            == OutboxPath(db.outbox, id)
               + if op.Move? && op.itemId == id && Transition(db, id, op.to, op.ctx).1.Success? then [Edge(op.ctx.expectedFrom, op.to)] else []
  {
    var db' := Apply(db, op);
    if op.Stamp? {
      if db' != db {
        StampKeepsPaths(db.outbox, op.eventId, op.at, id);
      }
    } else if |db'.outbox| > |db.outbox| {
      var e := db'.outbox[|db.outbox|];
      assert db'.outbox == db.outbox + [e];
      PathsExtend(db.outbox, [], e, AuditEvent(0, BookingCreated, None, None), id);
    } else {
      assert db'.outbox == db.outbox;
    }
  }

  /** Executable edges only climb, so no state is entered twice. */
  function Rank(s: ItemState): nat {
    match s
    case Quoted => 0
    case Reserved => 1
    case PendingConfirmation => 2
    case Confirmed => 3
    case _ => 4
  }

  /**
   What an item can have become between two looks at it: it is where it was or further up, its supplier
   reference, its request and its escalation stay recorded, and the terms of the booking are fixed.
   */
  predicate ClimbsTo(item: ItemRow, later: ItemRow) {
    && (later.state == item.state || Rank(later.state) > Rank(item.state))
    && (item.cancellationRequestedAt.Some? ==> later.cancellationRequestedAt.Some?)
    && (item.escalatedAt.Some? ==> later.escalatedAt == item.escalatedAt)
    && (item.supplierReference.Some? ==> later.supplierReference.Some?)
    && later.policy == item.policy && later.currency == item.currency && later.offerId == item.offerId && later.createdAt == item.createdAt
    && later.sell == item.sell && later.net == item.net
  }

  lemma OneOpClimbs(db: Db, op: Op, id: nat)
    requires id in db.items
    ensures id in Apply(db, op).items && ClimbsTo(db.items[id], Apply(db, op).items[id])
  {
  }

  lemma {:induction false} ItemsOnlyClimb(db: Db, ops: seq<Op>, id: nat)
    requires id in db.items
    ensures id in Run(db, ops).items && ClimbsTo(db.items[id], Run(db, ops).items[id])
  {
    if ops != [] {
      ItemsOnlyClimb(db, ops[..|ops| - 1], id);
      OneOpClimbs(Run(db, ops[..|ops| - 1]), ops[|ops| - 1], id);
    }
  }

  lemma {:induction false} PathsClimb(path: seq<Edge>, i: nat)
    requires Replay(path).Some? && i < |path|
    ensures 0 < Rank(path[i].to) <= Rank(Replay(path).value)
    ensures i < |path| - 1 ==> Rank(path[i].to) < Rank(Replay(path).value)
  {
    var init := path[..|path| - 1];
    if i < |path| - 1 {
      PathsClimb(init, i);
    }
  }

  lemma {:induction false} EachStateEnteredOnce(path: seq<Edge>, i: nat, j: nat)
    requires Replay(path).Some? && i < j < |path|
    ensures path[i].to != path[j].to
    decreases |path|
  {
    var init := path[..|path| - 1];
    if j == |path| - 1 {
      PathsClimb(path, i);
    } else {
      EachStateEnteredOnce(init, i, j);
    }
  }

  /** The positions of an item's entries into a state. */
  predicate EntersAt(outbox: seq<OutboxEvent>, itemId: nat, to: ItemState, k: nat) {
    k < |outbox| && outbox[k].itemId == itemId && outbox[k].change.Moved? && outbox[k].change.to == to
  }

  lemma {:induction false} EntryIsOnThePath(outbox: seq<OutboxEvent>, itemId: nat, to: ItemState, k: nat) returns (i: nat)
    requires EntersAt(outbox, itemId, to, k)
    ensures i < |OutboxPath(outbox, itemId)| && OutboxPath(outbox, itemId)[i].to == to
    ensures i == |OutboxPath(outbox[..k], itemId)|
    ensures OutboxPath(outbox[..k + 1], itemId) == OutboxPath(outbox[..k], itemId) + [Edge(outbox[k].change.from, to)]
    ensures OutboxPath(outbox[..k + 1], itemId) <= OutboxPath(outbox, itemId)
  {
    var n := |outbox| - 1;
    assert outbox[..k + 1][..k] == outbox[..k];
    if k == n {
      assert outbox[..n + 1] == outbox;
      i := |OutboxPath(outbox[..k], itemId)|;
    } else {
      assert outbox[..n][..k] == outbox[..k] && outbox[..n][..k + 1] == outbox[..k + 1];
      i := EntryIsOnThePath(outbox[..n], itemId, to, k);
    }
  }

  lemma {:induction false} PathsOfPrefixes(outbox: seq<OutboxEvent>, itemId: nat, a: nat, b: nat)
    requires a <= b <= |outbox|
    ensures |OutboxPath(outbox[..a], itemId)| <= |OutboxPath(outbox[..b], itemId)|
  {
    if a < b {
      assert outbox[..b][..b - 1] == outbox[..b - 1];
      PathsOfPrefixes(outbox, itemId, a, b - 1);
    }
  }

  /** An item enters no state twice; in particular its outbox holds at most one confirmed event. */
  lemma StateEnteredAtMostOnce(ops: seq<Op>, id: nat, to: ItemState, j: nat, k: nat)
    requires id in Run(EMPTY_DB, ops).items
    requires EntersAt(Run(EMPTY_DB, ops).outbox, id, to, j) && EntersAt(Run(EMPTY_DB, ops).outbox, id, to, k)
    ensures j == k
  {
    var outbox := Run(EMPTY_DB, ops).outbox;
    TrailsReplayToTheState(ops, id);
    if j != k {
      var a, b := if j < k then j else k, if j < k then k else j;
      var i1 := EntryIsOnThePath(outbox, id, to, a);
      var i2 := EntryIsOnThePath(outbox, id, to, b);
      PathsOfPrefixes(outbox, id, a + 1, b);
      EachStateEnteredOnce(OutboxPath(outbox, id), i1, i2);
    }
  }
}
