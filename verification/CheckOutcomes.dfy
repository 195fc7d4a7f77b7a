/**
 What checking an offer comes to (apps/api/src/offers/check.service.ts), told over whole executions: the
 supplier's answers to check are kept by process, and a call that reports an offer as checked is compared
 with the answer it got.
 */
module CheckOutcomes {
  import opened BookingProtocol
  import opened BookingOutcomes
  import opened CancellationPolicies
  import opened Money
  import opened OfferStore
  import opened Wrappers

  /** An answer to check, with the offer as it was read and the clock when it came. */
  datatype CheckRecord = CheckRecord(ticket: Ticket, answer: CheckAnswer, at: int)

  /** The answer a step delivers to the check its process waits for. */
  function NextChecks(s: State, checks: map<nat, CheckRecord>, step: Step): map<nat, CheckRecord> {
    if step.By? && step.action.ReceiveCheck? && step.pid in s.procs && s.procs[step.pid].pc.Asking?
    then checks[step.pid := CheckRecord(s.procs[step.pid].pc.ticket, step.action.checked, s.now)]
    else checks
  }

  /** The answers an execution has delivered to checks, by process. */
  function Checks(setup: Setup, steps: seq<Step>): map<nat, CheckRecord> {
    if steps == [] then map[]
    else NextChecks(Execute(setup, steps[..|steps| - 1]), Checks(setup, steps[..|steps| - 1]), steps[|steps| - 1])
  }

  // ---------------------------------------------------------------------------
  // What an answer says of an offer

  /** The offer is on record on the terms the check read. */
  predicate OnRecord(offers: Offers, ticket: Ticket) {
    ticket.offerId in offers && SameTerms(ticket.row, offers[ticket.offerId]) && ticket.row.details.Some?
  }

  /** The supplier still sells the offer as stored: at its net, on its terms, under its token. */
  predicate Agrees(c: CheckRecord)
    requires c.ticket.row.details.Some?
  {
    && c.answer.CheckAnswered? && c.answer.net == c.ticket.row.details.value.supplierNet
    && c.answer.policy == c.ticket.row.policySnapshot && c.answer.supplierOfferToken == c.ticket.row.details.value.supplierOfferToken
  }

  /** A replacement carries what the supplier answered, for the same property, nationality, guests and agency. */
  predicate Carries(details: Details, policy: Option<Policy>, c: CheckRecord)
    requires c.ticket.row.details.Some?
  {
    var stored := c.ticket.row.details.value;
    && c.answer.CheckAnswered?
    && policy == c.answer.policy && details.supplierNet == c.answer.net && details.supplierOfferToken == c.answer.supplierOfferToken
    && details.canonicalPropertyId == stored.canonicalPropertyId && details.nationality == stored.nationality
    && details.guestsPerRoom == stored.guestsPerRoom && details.subTenant == stored.subTenant
  }

  /** The offer a check reports: the one asked about exactly if the supplier agrees, else one that carries its answer. */
  predicate Reports(offers: Offers, c: CheckRecord, id: nat) {
    && OnRecord(offers, c.ticket) && c.answer.CheckAnswered?
    && (id == c.ticket.offerId <==> Agrees(c))
    && (id != c.ticket.offerId ==> id in offers && offers[id].details.Some? && Carries(offers[id].details.value, offers[id].policySnapshot, c))
  }

  predicate CheckStory(s: State, checks: map<nat, CheckRecord>, pid: nat)
    requires pid in s.procs
  {
    match s.procs[pid].pc
    case Asking(ticket) => OnRecord(s.offers, ticket)
    case Marking(id) => pid in checks && OnRecord(s.offers, checks[pid].ticket) && checks[pid].ticket.offerId == id && Agrees(checks[pid])
    case Withdrawing(id) => pid in checks && checks[pid].ticket.offerId == id && checks[pid].answer == NoLongerSold
    case Replacing(id, record) =>
      && pid in checks && OnRecord(s.offers, checks[pid].ticket) && checks[pid].ticket.offerId == id
      && !Agrees(checks[pid]) && Carries(record.details, record.policySnapshot, checks[pid]) && record.checkedAt == Some(checks[pid].at)
    case Finished(reply) => reply.CheckedAs? ==> pid in checks && Reports(s.offers, checks[pid], reply.offerId)
    case _ => true
  }

  /** Offers keep their terms. */
  predicate TermsKept(offers: Offers, offers': Offers) {
    forall id :: id in offers ==> id in offers' && SameTerms(offers[id], offers'[id])
  }

  lemma StoryOutlives(s: State, s': State, checks: map<nat, CheckRecord>, checks': map<nat, CheckRecord>, pid: nat)
    requires pid in s.procs && pid in s'.procs && s'.procs[pid].pc == s.procs[pid].pc && TermsKept(s.offers, s'.offers)
    requires pid in checks ==> pid in checks' && checks'[pid] == checks[pid]
    requires CheckStory(s, checks, pid)
    ensures CheckStory(s', checks', pid)
  {
  }

  lemma FinishKeepsTerms(s: State, pid: nat)
    requires pid in s.procs
    ensures TermsKept(s.offers, DoFinishCheck(s, pid).offers)
  {
    match s.procs[pid].pc {
      case Replacing(offerId, record) => SupersedeKeepsTerms(s.offers, offerId, record, s.now);
      case _ =>
    }
  }

  lemma SupersedeKeepsTerms(offers: Offers, id: nat, record: NewOfferRecord, now: int)
    ensures TermsKept(offers, Supersede(offers, id, record, now).0)
  {
  }

  lemma ActKeepsTerms(setup: Setup, s: State, pid: nat, action: Action)
    requires pid in s.procs
    ensures TermsKept(s.offers, Act(setup, s, pid, action).offers)
  {
    match action {
      case FinishCheck => FinishKeepsTerms(s, pid);
      case _ =>
    }
  }

  lemma StepKeepsTerms(setup: Setup, s: State, step: Step)
    ensures TermsKept(s.offers, Do(setup, s, step).offers)
  {
    if step.By? && step.pid in s.procs && !s.procs[step.pid].pc.Finished? {
      ActKeepsTerms(setup, s, step.pid, step.action);
    }
  }

  // ---------------------------------------------------------------------------
  // A process's own step

  lemma VerifiedIsOnRecord(setup: Setup, s: State, task: Task, row: Option<StoredOffer>)
    requires ReadOk(s, task, row) && VerifyOfferToken(setup, task, row, s.now).Success?
    ensures OnRecord(s.offers, VerifyOfferToken(setup, task, row, s.now).value)
  {
  }

  lemma DecidedIsOnRecord(setup: Setup, s: State, checks: map<nat, CheckRecord>, pid: nat)
    requires pid in s.procs && CheckStory(s, checks, pid)
    requires s.procs[pid].pc.Deciding? ==> ReadOk(s, s.procs[pid].task, s.procs[pid].pc.row)
    ensures pid in DoDecide(setup, s, pid).procs && CheckStory(DoDecide(setup, s, pid), checks, pid)
  {
    var proc := s.procs[pid];
    if proc.pc.Deciding? && VerifyOfferToken(setup, proc.task, proc.pc.row, s.now).Success? {
      VerifiedIsOnRecord(setup, s, proc.task, proc.pc.row);
    }
  }

  lemma AnswerIsKept(s: State, checks: map<nat, CheckRecord>, pid: nat, answer: CheckAnswer)
    requires pid in s.procs && CheckStory(s, checks, pid)
    ensures pid in DoReceiveCheck(s, pid, answer).procs
    ensures CheckStory(DoReceiveCheck(s, pid, answer), NextChecks(s, checks, By(pid, ReceiveCheck(answer))), pid)
  {
  }

  lemma MarkedOffersAgree(s: State, checks: map<nat, CheckRecord>, pid: nat)
    requires pid in s.procs && CheckStory(s, checks, pid) && !s.procs[pid].pc.Replacing?
    ensures pid in DoFinishCheck(s, pid).procs && CheckStory(DoFinishCheck(s, pid), checks, pid)
  {
  }

  /** A trade that succeeds keeps what is on record, and puts the record there under a new id. */
  lemma TradeReports(offers: Offers, c: CheckRecord, record: NewOfferRecord, now: int)
    requires OnRecord(offers, c.ticket) && !Agrees(c) && Carries(record.details, record.policySnapshot, c)
    requires Supersede(offers, c.ticket.offerId, record, now).1 == Success(true)
    ensures Reports(Supersede(offers, c.ticket.offerId, record, now).0, c, record.id)
  {
    SupersedeOutcome(offers, c.ticket.offerId, record, now);
  }

  lemma ReplacementsCarryTheAnswer(s: State, checks: map<nat, CheckRecord>, pid: nat)
    requires pid in s.procs && CheckStory(s, checks, pid) && s.procs[pid].pc.Replacing?
    ensures pid in DoFinishCheck(s, pid).procs && CheckStory(DoFinishCheck(s, pid), checks, pid)
  {
    var pc := s.procs[pid].pc;
    if Supersede(s.offers, pc.offerId, pc.record, s.now).1 == Success(true) {
      TradeReports(s.offers, checks[pid], pc.record, s.now);
    }
  }

  /** The process is where it was, or at a point that says nothing of a check. */
  predicate Silent(s: State, s': State, pid: nat)
    requires pid in s.procs
  {
    && pid in s'.procs
    && var pc := s'.procs[pid].pc;
       pc == s.procs[pid].pc
       || (!pc.Asking? && !pc.Marking? && !pc.Withdrawing? && !pc.Replacing? && !(pc.Finished? && pc.reply.CheckedAs?))
  }

  lemma BookingIsSilent(s: State, pid: nat, itemId: nat, at: int)
    requires pid in s.procs
    ensures Silent(s, DoCreate(s, pid, itemId, at), pid)
  {
  }

  lemma AnswerIsSilent(s: State, pid: nat, answer: BookAnswer, clock: PendingPoller.PollClock)
    requires pid in s.procs
    ensures Silent(s, DoReceive(s, pid, answer, clock), pid)
  {
  }

  lemma LookIsSilent(s: State, pid: nat)
    requires pid in s.procs
    ensures Silent(s, DoLook(s, pid), pid) && Silent(s, DoRead(s, pid), pid) && Silent(s, DoClaim(s, pid), pid)
  {
  }

  lemma ReserveIsSilent(s: State, pid: nat, at: int, group: nat, dispatch: Dispatch)
    requires pid in s.procs
    ensures Silent(s, DoReserve(s, pid, at, group), pid) && Silent(s, DoSend(s, pid, dispatch), pid)
  {
  }

  lemma OthersAreSilent(setup: Setup, s: State, pid: nat, action: Action)
    requires pid in s.procs && !action.Decide? && !action.ReceiveCheck? && !action.FinishCheck?
    ensures Silent(s, Act(setup, s, pid, action), pid)
  {
    match action {
      case Look => LookIsSilent(s, pid);
      case ReadOffer => LookIsSilent(s, pid);
      case ClaimOffer => LookIsSilent(s, pid);
      case CreateBooking(itemId, at) => BookingIsSilent(s, pid, itemId, at);
      case Reserve(at, group) => ReserveIsSilent(s, pid, at, group, Sent);
      case SendBook(dispatch) => ReserveIsSilent(s, pid, 0, 0, dispatch);
      case ReceiveBook(answer, clock) => AnswerIsSilent(s, pid, answer, clock);
      case Crash =>
    }
  }

  lemma SilentKeeps(s: State, s': State, checks: map<nat, CheckRecord>, pid: nat)
    requires pid in s.procs && Silent(s, s', pid) && TermsKept(s.offers, s'.offers) && CheckStory(s, checks, pid)
    ensures CheckStory(s', checks, pid)
  {
  }

  lemma ActorKeepsStory(setup: Setup, s: State, checks: map<nat, CheckRecord>, pid: nat, action: Action)
    requires HistoryOk(s) && pid in s.procs && ProcOk(setup, s, pid) && CheckStory(s, checks, pid)
    ensures var s' := Act(setup, s, pid, action);
            pid in s'.procs && CheckStory(s', NextChecks(s, checks, By(pid, action)), pid)
  {
    match action {
      case Decide => DecidedIsOnRecord(setup, s, checks, pid);
      case ReceiveCheck(answer) => AnswerIsKept(s, checks, pid, answer);
      case FinishCheck =>
        if s.procs[pid].pc.Replacing? {
          ReplacementsCarryTheAnswer(s, checks, pid);
        } else {
          MarkedOffersAgree(s, checks, pid);
        }
      case _ =>
        OthersAreSilent(setup, s, pid, action);
        ActKeepsTerms(setup, s, pid, action);
        SilentKeeps(s, Act(setup, s, pid, action), checks, pid);
    }
  }

  // ---------------------------------------------------------------------------
  // Executions

  ghost predicate CheckStories(s: State, checks: map<nat, CheckRecord>) {
    forall pid :: pid in s.procs ==> CheckStory(s, checks, pid)
  }

  lemma StepKeepsStories(setup: Setup, s: State, checks: map<nat, CheckRecord>, step: Step)
    requires ProtocolInv(setup, s) && CheckStories(s, checks)
    ensures CheckStories(Do(setup, s, step), NextChecks(s, checks, step))
  {
    var s', checks' := Do(setup, s, step), NextChecks(s, checks, step);
    DoShape(setup, s, step);
    StepKeepsTerms(setup, s, step);
    forall pid | pid in s'.procs ensures CheckStory(s', checks', pid) {
      if step.By? && step.pid == pid {
        ProcOf(setup, s, pid);
        if !s.procs[pid].pc.Finished? {
          ActorKeepsStory(setup, s, checks, pid, step.action);
        }
      } else if pid in s.procs {
        StoryOutlives(s, s', checks, checks', pid);
      }
    }
  }

  lemma {:induction false} ExecutionsKeepStories(setup: Setup, steps: seq<Step>)
    ensures CheckStories(Execute(setup, steps), Checks(setup, steps))
  {
    if steps != [] {
      var init := steps[..|steps| - 1];
      ExecutionsKeepStories(setup, init);
      ExecutionKeepsInv(setup, init);
      StepKeepsStories(setup, Execute(setup, init), Checks(setup, init), steps[|steps| - 1]);
    }
  }

  /**
   In every execution a call that reports an offer as checked got an answer from the supplier. It reports
   the offer asked about exactly if that answer agrees with its stored net, terms and supplier token;
   otherwise it reports another one on record, which carries the answer's net, terms and token for the
   same property, guests and agency. So no price the supplier has moved is reported as checked.
   */
  lemma CheckedOffersAgree(setup: Setup, steps: seq<Step>, pid: nat, id: nat)
    requires var s := Execute(setup, steps); pid in s.procs && s.procs[pid].pc == Finished(CheckedAs(id))
    ensures pid in Checks(setup, steps) && Reports(Execute(setup, steps).offers, Checks(setup, steps)[pid], id)
  {
    ExecutionsKeepStories(setup, steps);
    assert CheckStory(Execute(setup, steps), Checks(setup, steps), pid);
  }

  // ---------------------------------------------------------------------------
  // Whose check reaches the supplier

  /** The offer can be checked by this caller now: presented and signed as stored, in the caller's scope, and live. */
  predicate Checkable(setup: Setup, s: State, token: Option<Token>, scope: Option<Option<string>>) {
    && token.Some? && token.value.offerId in s.offers
    && var row := s.offers[token.value.offerId];
       && row.details.Some? && row.priceHash == token.value.signature && setup.verifies(token.value.offerId, row, token.value.signature)
       && (scope.Some? ==> row.details.value.subTenant == scope.value)
       && row.invalidatedAt.None? && s.now < row.expiresAt
  }

  /** A check that reads and decides now asks the supplier exactly if its offer can be checked; otherwise it is refused. */
  lemma CheckAsksIff(setup: Setup, s: State, pid: nat, token: Option<Token>, scope: Option<Option<string>>)
    requires pid in s.procs && s.procs[pid] == Proc(Checking(token, scope), Reading)
    ensures var s' := DoDecide(setup, DoRead(s, pid), pid);
            && pid in s'.procs && s' == To(s, pid, s'.procs[pid].pc)
            && (if Checkable(setup, s, token, scope) then s'.procs[pid].pc == Asking(Ticket(token.value.offerId, s.offers[token.value.offerId], s.now))
                else s'.procs[pid].pc.Finished? && s'.procs[pid].pc.reply.Refused?)
  {
    var read := DoRead(s, pid);
    assert read.procs[pid].task == Checking(token, scope) && read.now == s.now;
    var s' := DoDecide(setup, read, pid);
    assert s'.procs == s.procs[pid := s'.procs[pid]];
  }

  // ---------------------------------------------------------------------------
  // One undisturbed check

  /** The replacement can be stored: a fresh id, an expiry within the cap, and columns the table accepts. */
  predicate Storable(offers: Offers, repriced: NewOfferRecord, nationality: string, now: int) {
    && ValidNationality(nationality)
    && repriced.id !in offers && now < repriced.expiresAt <= now + MAX_OFFER_TTL_MS
    && repriced.net.amount >= 0 && repriced.sell.amount >= 0 && ValidCurrency(repriced.sell.currency)
  }

  predicate OthersKept(offers: Offers, offers': Offers, changed: set<nat>) {
    && (forall id :: id in offers && id !in changed ==> id in offers' && offers'[id] == offers[id])
    && (forall id :: id in offers' && id !in changed ==> id in offers)
  }

  /** What one answer leaves of a live offer, and what the caller is told. */
  predicate CheckSettled(offers: Offers, offers': Offers, c: CheckRecord, reply: Reply)
    requires c.ticket.row.details.Some?
  {
    var id := c.ticket.offerId;
    match c.answer
    case NoLongerSold => reply.Refused? && !Live(offers', id) && id in offers' && OthersKept(offers, offers', {id})
    case CheckFailed => reply.Refused? && offers' == offers
    case CheckAnswered(_, _, _, repriced) =>
      if Agrees(c) then
        reply == CheckedAs(id) && Live(offers', id) && offers'[id].checkedAt == Some(c.at) && OthersKept(offers, offers', {id})
      else if Storable(offers, repriced, c.ticket.row.details.value.nationality, c.at) then
        && reply == CheckedAs(repriced.id) && !Live(offers', id) && Live(offers', repriced.id) && OthersKept(offers, offers', {id, repriced.id})
        && offers'[repriced.id].checkedAt == Some(c.at) && offers'[repriced.id].details.Some?
        && Carries(offers'[repriced.id].details.value, offers'[repriced.id].policySnapshot, c)
      else reply.Refused? && offers' == offers
  }

  /** Superseding a live offer trades it for the record exactly if the table takes it under a fresh id. */
  lemma TradesForTheRecord(offers: Offers, id: nat, record: NewOfferRecord, now: int)
    requires Live(offers, id)
    ensures var (offers', r) := Supersede(offers, id, record, now);
            if record.id !in offers && TableAccepts(record, now)
            then && r == Success(true) && !Live(offers', id) && Live(offers', record.id) && OthersKept(offers, offers', {id, record.id})
                 && offers'[record.id] == StoredRow(record, now)
            else r.Failure?
  {
  }

  lemma DecisionIs(ticket: Ticket, answer: CheckAnswer, now: int)
    requires ticket.row.details.Some? && answer.CheckAnswered?
    ensures DecideCheck(ticket, answer, now)
            == if Agrees(CheckRecord(ticket, answer, now)) then Marking(ticket.offerId)
               else if now < answer.repriced.expiresAt <= now + MAX_OFFER_TTL_MS then Replacing(ticket.offerId, Successor(ticket.row, answer, now))
               else Finished(Refused(StoreFailed))
  {
  }

  lemma ReplacementSettles(s: State, pid: nat, ticket: Ticket, answer: CheckAnswer)
    requires pid in s.procs && OnRecord(s.offers, ticket) && LineagesInv(s.offers, s.lineages) && Live(s.offers, ticket.offerId)
    requires answer.CheckAnswered? && !Agrees(CheckRecord(ticket, answer, s.now))
    requires s.procs[pid].pc == Replacing(ticket.offerId, Successor(ticket.row, answer, s.now))
    requires s.now < answer.repriced.expiresAt <= s.now + MAX_OFFER_TTL_MS
    ensures var s' := DoFinishCheck(s, pid);
            && pid in s'.procs && s'.procs[pid].pc.Finished? && s'.db == s.db && s'.calls == s.calls
            && CheckSettled(s.offers, s'.offers, CheckRecord(ticket, answer, s.now), s'.procs[pid].pc.reply)
  {
    TradesForTheRecord(s.offers, ticket.offerId, Successor(ticket.row, answer, s.now), s.now);
  }

  lemma AnswerSettlesTheOffer(s: State, pid: nat, answer: CheckAnswer)
    requires pid in s.procs && s.procs[pid].pc.Asking? && OnRecord(s.offers, s.procs[pid].pc.ticket)
    requires LineagesInv(s.offers, s.lineages) && Live(s.offers, s.procs[pid].pc.ticket.offerId)
    ensures var s' := DoFinishCheck(DoReceiveCheck(s, pid, answer), pid);
            && pid in s'.procs && s'.procs[pid].pc.Finished? && s'.db == s.db && s'.calls == s.calls
            && CheckSettled(s.offers, s'.offers, CheckRecord(s.procs[pid].pc.ticket, answer, s.now), s'.procs[pid].pc.reply)
  {
    var ticket, s1 := s.procs[pid].pc.ticket, DoReceiveCheck(s, pid, answer);
    if answer.CheckAnswered? {
      DecisionIs(ticket, answer, s.now);
      if s1.procs[pid].pc.Replacing? {
        ReplacementSettles(s1, pid, ticket, answer);
      }
    }
  }

  lemma AskedOffersAreOnRecord(setup: Setup, steps: seq<Step>, pid: nat)
    requires var s := Execute(setup, steps); pid in s.procs && s.procs[pid].pc.Asking?
    ensures var s := Execute(setup, steps);
            LineagesInv(s.offers, s.lineages) && OnRecord(s.offers, s.procs[pid].pc.ticket)
  {
    ExecutionKeepsInv(setup, steps);
    ExecutionsKeepStories(setup, steps);
    assert CheckStory(Execute(setup, steps), Checks(setup, steps), pid);
  }

  /**
   In every execution a check whose answer comes while its offer is live does to the offer, undisturbed,
   what the supplier answered: withdrawn if it is no longer sold, left alone if the call failed, stamped as
   checked now if the answer agrees, and otherwise traded for one replacement, born checked, that carries
   the answer, unless that cannot be stored.
   */
  lemma UndisturbedCheckSettles(setup: Setup, steps: seq<Step>, pid: nat, answer: CheckAnswer)
    requires var s := Execute(setup, steps); pid in s.procs && s.procs[pid].pc.Asking? && Live(s.offers, s.procs[pid].pc.ticket.offerId)
    ensures var s := Execute(setup, steps);
            var s' := DoFinishCheck(DoReceiveCheck(s, pid, answer), pid);
            && OnRecord(s.offers, s.procs[pid].pc.ticket)
            && pid in s'.procs && s'.procs[pid].pc.Finished? && s'.db == s.db && s'.calls == s.calls
            && CheckSettled(s.offers, s'.offers, CheckRecord(s.procs[pid].pc.ticket, answer, s.now), s'.procs[pid].pc.reply)
  {
    AskedOffersAreOnRecord(setup, steps, pid);
    AnswerSettlesTheOffer(Execute(setup, steps), pid, answer);
  }
}
