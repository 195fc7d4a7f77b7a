# Verified model of the booking engine

A Dafny 4.11 model of the parts of this repository where money moves or where callers race: the booking
transition runner with its ledger, outbox and audit trail; the services, worker and delivery consumer
that drive it; the offer store and the booking gate; money, pricing and cancellation-policy arithmetic;
and three small algorithms (the availability cache key, base32, the circuit breaker with its retry
client). `dafny verify dfyconfig.toml` checks everything.

## How it is organised

| file | models |
|---|---|
| `Money`, `Allocation`, `DecimalText` | packages/domain/src/money.ts, the TBO adapter's amounts, the two printers of minor units |
| `CancellationPolicies` | penalty resolution, multi-room merging, the display timeline |
| `PricingRules`, `PriceResolution`, `PriceLaws` | rule selection and price resolution; the resolved price told without its stages |
| `BookingStates`, `Ledger`, `TransitionRunner` | the state machine, posting templates, every transaction on a booking item |
| `ItemRuns`, `RunnerLaws` | all runs of those transactions; what each writes and exactly when it refuses |
| `PendingPoller`, `PollOutcomes`, `PollRuns` | one poll; what each answer comes to; runs of sweeps that read, ask and decide while others commit |
| `BookingCancellation`, `CancellationOutcomes` | cancelling against concurrent writers; whom a call asks, and what it charges |
| `WaitingBooking` | a waiting booking reached from an empty database, where the reachable examples start |
| `OfferStore`, `BookingProtocol` | one-winner offer rows; bookings and checks as interleaved processes |
| `BookingOutcomes`, `BookingReplies`, `CheckOutcomes` | over those executions: what a supplier's answer does to a booking, what a caller is told, what a check reports |
| `Outbox` | at-least-once publication |
| `VoucherDelivery`, `DeliverySweeps`, `DeliveryAttempts` | voucher delivery: one sweep, racing sweeps, and how many attempts they take |
| `AvailabilityKey`, `Base32`, `SupplierTransport`, `BreakerLaws` | the cache key, the base32 codec, the breaker and retry client, when it opens and when a send stops |
| `Numbers`, `Sequences`, `Sorting`, `Text`, `Wrappers` | shared arithmetic, concatenation, stable sorting, string order, Option and Result |

Transactions and guarded updates are functions from one database value to the next; the classes carry the
same steps out statement by statement and are proved to commit exactly those values, rolling back on
refusal. Concurrency is the order of the steps: a claim about every reachable state is a claim about every
list of operations (`ItemRuns`), or about every list of process steps where callers hold stale snapshots
between steps (`BookingProtocol`, `PollRuns`, `VoucherDelivery`, `Outbox`, `SupplierTransport`). Methods that are
overtaken by other writers take what those writers commit as arbitrary arguments. Instants are integers,
supplier answers, clocks, ids and random jitter come from outside, and integers are unbounded with the
safe-integer range written out where the code checks it.

A method's contract ties it to the function that says what it commits or returns. What that function
comes to is then stated from the outside, in terms of the inputs, the rows and the answers alone:
`RunnerLaws` for the transactions, `PollOutcomes` for a poll, `CancellationOutcomes` for a cancel call,
`BookingOutcomes`, `BookingReplies` and `CheckOutcomes` for bookings and checks, `PriceLaws` for a price,
`BreakerLaws` for the breaker and the retry loop, `DeliverySweeps` for a delivery sweep.

## What was found

- `recordPollAttempt` is documented to touch only items still waiting (packages/booking-engine/src/runner.ts:503-508),
  but its guard is `escalatedAt` alone. `PendingPoller.OnlyEscalationStopsRescheduling` states exactly when it
  changes a row; `PollRuns.StaleDeferralsReschedule` has reachable runs in which a stale poll reschedules an item that
  left its wait and pushes out a cancellation wait that began since.
- A cancel request that lands between a sweep's read and a pending item's settlement as cancelled is not
  charged. `PendingPoller.PendingCancellationIsPricedFromTheRow` says exactly when the charge is the one owed,
  `PollRuns.LateRequestGoesUncharged` is a reachable run where it is not.
- A wait takes a bounded number of polls only while reads and decisions on the item do not overlap
  (`PollRuns.SerialWaitsEnd`): overlapping sweeps count as one attempt and can be any number
  (`PollRuns.OverlappingSweepsExceedAnyBound`). What holds under any overlap is that no poll decided later than the
  age limit puts the item off again (`PollRuns.NoPollDefersPastTheAge`).
- A poll that must price a cancellation from an invalid stored policy throws, exactly then
  (`PollRuns.PollsErrOnlyOnInvalidPolicies`), so with a valid policy no poll of any run does
  (`PollRuns.ValidPoliciesNeverErr`) and the bound is on all polls. Polls that throw never age or escalate the wait:
  `PollRuns.AReachableWaitErrsForever` has such runs. The runner stores the policy it is given and records a request
  without pricing it; `cancelBooking` prices first (`BookingCancellation.CallsPriceFirst`), so only another caller of the
  runner can bring such a wait about.
- Cancel calls that follow one another ask the supplier once, and once more for each time its call failed
  (`BookingCancellation.SerialCallsAskOnce`). Calls that overlap can each ask it: `BookingCancellation.SecondCallAsksIff`
  says exactly when, `BookingCancellation.ReachableCallsAllAsk` has any number of them do so.
- A failed voucher delivery writes the count its sweep read plus one, whatever the row has become. So `maxAttempts`
  failed processings settle a row if and only if no two of them overlapped
  (`DeliveryAttempts.SettledIffNoOverlap`); otherwise no number of them is sure to
  (`DeliveryAttempts.NoNumberOfFailuresSettles`), and one stale failure takes the count back to one and restarts the
  backoff (`DeliveryAttempts.StaleFailureRestartsTheCount`). The bounds on attempts and delay are those of
  processings without overlap (`DeliveryAttempts.NoOverlapIsSerial`).
- The in-memory offer store differs from the database store it stands in for: it lets through what the table's checks
  refuse, keeps a net currency the table replaces by the sell currency, and is not atomic, so that a rejected successor
  leaves the old offer withdrawn. `OfferStore.TwinsInsertAlike` and `OfferStore.TwinsSupersedeAlike` say exactly when
  the two agree.
- Base32 texts that decode are not all canonical; `Base32.ReencodesIffCanonical` says which are.
- A breaker that is open admits nothing before its cooldown unless a send admitted earlier reports success in the
  meantime, which makes it admit at once (`SupplierTransport.OpenRefusesUntilCooldown`, with a reachable run in
  `SupplierTransport.StaleSuccessAdmitsEarly`).

## Model

| member | source | states |
|---|---|---|
| `Ledger.AssertTemplatesBalanced` | packages/booking-engine/src/ledger/templates.ts:142-158 | the boot check accepts a table exactly when debits and credits cancel for each amount source in every template |
| `Ledger.TableIsBalanced` | packages/booking-engine/src/ledger/templates.ts:96-130 | every template the engine can post passes that check |
| `Ledger.StaticCheckBalancesEveryGroup` | packages/booking-engine/src/ledger/service.ts:66-125 | a template that passes the static check posts groups that sum to zero per currency, whatever the amounts |
| `Ledger.EdgeTotals` | packages/booking-engine/src/ledger/templates.ts:68-130 | confirming recognizes sell and net on the four accounts, cancelling a confirmed item undoes exactly that and charges the penalty |
| `Ledger.ReportsExactlyTheUnbalanced` | packages/booking-engine/src/ledger/service.ts:137-154 | the ledger check reports a group and currency exactly if its entries do not sum to zero |
| `TransitionRunner.BookingTransitionRunner.CreateBooking` | packages/booking-engine/src/runner.ts:154-260 | commits booking, quoted item, audit and outbox rows together, or nothing; a taken client reference returns the original |
| `TransitionRunner.BookingTransitionRunner.TransitionItem` | packages/booking-engine/src/runner.ts:268-392 | commits state, patch, journal, audit and outbox together, or rolls all of it back with the refusal |
| `TransitionRunner.BookingTransitionRunner.RequestCancellation` | packages/booking-engine/src/runner.ts:404-452 | records a request once, on waiting items only, with audit and outbox rows |
| `TransitionRunner.BookingTransitionRunner.EscalateItem` | packages/booking-engine/src/runner.ts:460-501 | escalates once; later calls change nothing |
| `TransitionRunner.BookingTransitionRunner.RecordPoll` | packages/booking-engine/src/runner.ts:509-521 | reschedules any item not escalated, and nothing else |
| `ItemRuns.StepKeepsInv` | packages/booking-engine/src/runner.ts:154-521 | every transaction keeps trails, balances and group totals consistent for every item |
| `ItemRuns.BalancesDependOnStateOnly` | packages/booking-engine/src/runner.ts:268-392 | in every reachable state an item's balance per account and currency is fixed by its state and posted penalty; untemplated states are never reached |
| `ItemRuns.LedgerIsAlwaysBalanced` | packages/booking-engine/src/ledger/service.ts:137-154 | the invariant check finds no unbalanced group in any reachable journal |
| `ItemRuns.TrailsReplayToTheState` | packages/booking-engine/src/runner.ts:345-379 | outbox and audit rows of an item agree and replay from quoted along executable edges to its current state |
| `ItemRuns.OneEventPerTransition` | packages/booking-engine/src/runner.ts:364-377 | an operation adds to an item's trail exactly the edge it committed, if it committed one |
| `ItemRuns.EachStateEnteredOnce` | packages/domain/src/booking.ts:38-50 | no replayable trail enters a state twice |
| `ItemRuns.StateEnteredAtMostOnce` | packages/booking-engine/src/runner.ts:364-377 | in every run an item has at most one outbox event per state, one confirmed event in particular |
| `RunnerLaws.TransitionSucceedsIff` | packages/booking-engine/src/runner.ts:268-392 | on every reachable database a transition succeeds exactly when the item is in the expected state, the edge is executable and the penalty fits; otherwise nothing changes, and a moved item is the only conflict |
| `RunnerLaws.ExecutableEdges` | packages/domain/src/booking.ts:38-50 | the eight edges an item can take |
| `RunnerLaws.TransitionWrites` | packages/booking-engine/src/runner.ts:300-379 | a successful transition stores every column its patch carries, the request instant and a newer supplier reference included, keeps those it leaves out, arms or disarms the poll, records itself once, and touches no other item |
| `RunnerLaws.OthersPostNothing` | packages/booking-engine/src/ledger/templates.ts:96-130 | only confirming and cancelling post |
| `RunnerLaws.RequestWrites` | packages/booking-engine/src/runner.ts:404-452 | a request is recorded exactly on a waiting or confirmed item without one, at its instant, with its poll due at once |
| `RunnerLaws.EscalationWrites` | packages/booking-engine/src/runner.ts:460-501 | an escalation is recorded exactly once, with its event, and nothing else about the item changes |
| `RunnerLaws.CreationWrites` | packages/booking-engine/src/runner.ts:154-260 | a booking is created exactly for sound, non-negative prices in one currency under a fresh reference and item, quoted on the terms asked for |
| `PendingPoller.PendingConfirmationPoller.Poll` | packages/booking-engine/src/pending.ts:185-235 | settles, defers or escalates from the row the sweep read, against the database as it is |
| `PendingPoller.PendingConfirmationPoller.ConfirmationAnswered` | packages/booking-engine/src/pending.ts:237-283 | the settlement of a confirmation wait, re-arming the poll when a cancellation is pending |
| `PendingPoller.PendingConfirmationPoller.CancellationAnswered` | packages/booking-engine/src/pending.ts:285-311 | the settlement of a cancellation wait at the recorded request |
| `PendingPoller.PendingConfirmationPoller.Defer` | packages/booking-engine/src/pending.ts:313-339 | past the age limit escalates, otherwise records one more attempt and the backed-off instant |
| `PendingPoller.EscalatedItemsAreNeverPolled` | packages/booking-engine/src/pending.ts:127-157 | once escalated, an item is in no later sweep whatever happens |
| `PendingPoller.RequestIsNeverLost` | packages/booking-engine/src/pending.ts:127-157 | a recorded request survives every run, and a waiting item with it is due from its next poll instant on (null means at once) |
| `PendingPoller.ConfirmingKeepsTheRequest` | packages/booking-engine/src/pending.ts:237-268 | a stale poll that confirms keeps the request and leaves the item due at once |
| `PendingPoller.OnlyEscalationStopsRescheduling` | packages/booking-engine/src/runner.ts:503-521 | exactly when recording a poll changes a row, and that it changes only the schedule |
| `PendingPoller.RequestInstantIsStable` | packages/booking-engine/src/pending.ts:285-311 | while an item stays in a waiting state its request instant is never rewritten |
| `PendingPoller.CancellationIsPricedAtTheRequest` | packages/booking-engine/src/pending.ts:285-311 | a settled cancellation wait posted exactly the policy's penalty at the current request instant, however stale the row read |
| `PendingPoller.PendingCancellationIsPricedFromTheRow` | packages/booking-engine/src/pending.ts:269-281 | a pending item settled as cancelled is charged what it owes exactly when the request was in the row read, or nothing is owed |
| `PollRuns.LateRequestGoesUncharged` | packages/booking-engine/src/pending.ts:269-275 | a reachable run in which a request landing after the read is owed 700 and charged nothing |
| `PendingPoller.DeferralContinuesTheWait` | packages/booking-engine/src/pending.ts:313-339 | an inconclusive poll of any row read, stale or not, escalates exactly past that row's age limit; otherwise it changes the schedule alone, and the wait goes on with one more attempt if the item is still in it |
| `PendingPoller.PollIsARun` | packages/booking-engine/src/pending.ts:185-339 | what one poll commits is at most one operation, so every-run claims cover polled databases |
| `PollOutcomes.ConclusivePolls` | packages/booking-engine/src/pending.ts:237-311 | a poll of a wait confirms exactly if the supplier confirmed a pending item, with its reference and a poll due at once if a cancellation is pending; cancels exactly if the supplier cancelled, charging the stored policy's penalty at the request; skips exactly if such an answer finds the item moved on; throws exactly if it cannot be priced |
| `PollOutcomes.InconclusivePolls` | packages/booking-engine/src/pending.ts:313-339 | every other poll of a wait escalates exactly past the age limit from where the wait began, and otherwise writes one more attempt and the next instant, backed off by base times factor to the attempts up to the cap |
| `PollOutcomes.StrandedItemsAreEscalated` | packages/booking-engine/src/pending.ts:185-217 | an item still quoted or reserved is due exactly once unchanged for the age limit, and goes to an operator; so does one without a supplier reference |
| `PollRuns.PollRunIsARun` | packages/booking-engine/src/pending.ts:159-235 | what overlapping sweeps and other writers leave is what some list of operations leaves |
| `PollRuns.SerialWaitsEnd` | packages/booking-engine/src/pending.ts:313-339 | over runs of reads, decisions and other writers: while reads and decisions on the item do not overlap, a wait others leave alone takes at most n+1 polls that do not err if n delays exceed the age limit, the last of those past it; on a reachable database with a valid stored policy these are all its polls |
| `PollRuns.ValidPoliciesNeverErr` | packages/booking-engine/src/pending.ts:105-108 | in every run, overlapping or not, from a reachable database, no poll of an item with a valid policy throws |
| `PollRuns.WaitsAreBounded` | packages/booking-engine/src/pending.ts:41-50 | with positive base and cap and factor at least one, the least such n exists and bounds every such run, all polls counted if the policy is valid |
| `PollRuns.TheBoundIsAttained` | packages/booking-engine/src/pending.ts:41-50 | from every fresh wait a run of failed retrieves polls exactly that often and escalates |
| `PollRuns.DefaultPolicyPollsAtMostEightTimes` | packages/booking-engine/src/pending.ts:41-46 | under the default backoff at most eight polls that do not err, and eight in all if the stored policy is valid |
| `PollRuns.CountsAreExactWithoutOverlap` | packages/booking-engine/src/pending.ts:313-339 | however sweeps overlap, the k-th poll that counts read an attempt count of at most k, and of k exactly when up to it each poll was read after the polls before it had decided |
| `PollRuns.OverlappingPollsShareAnAttempt` | packages/booking-engine/src/pending.ts:159-183 | from any wait that is due, any number of overlapping polls together count one attempt |
| `PollRuns.OverlappingSweepsExceedAnyBound` | packages/booking-engine/src/pending.ts:159-183 | a reachable run with any number of polls of one wait under the default policy |
| `PollRuns.NoPollDefersPastTheAge` | packages/booking-engine/src/pending.ts:313-339 | however sweeps overlap, no poll decided later than the age limit after the wait began puts the item off again |
| `PollRuns.StaleDeferralsReschedule` | packages/booking-engine/src/runner.ts:503-521 | reachable runs in which a stale deferral reschedules an item out of its wait and delays a newer cancellation wait |
| `PollRuns.PollsErrOnlyOnInvalidPolicies` | packages/booking-engine/src/pending.ts:105-108 | on any reachable database a poll throws exactly when it needs a penalty from an invalid stored policy; a lost race is the only other refusal |
| `PollRuns.InvalidPoliciesErrForever` | packages/booking-engine/src/pending.ts:165-183 | such polls, however many and however late, change nothing and leave the item due |
| `PollRuns.AReachableWaitErrsForever` | packages/booking-engine/src/pending.ts:165-183 | reachable runs in which any number of polls of one wait err, at any instant however late |
| `BookingCancellation.HotelBookingService.TryToSettle` | apps/api/src/hotel-booking/booking.service.ts:403-428 | one attempt against rows others move before its read and before its write |
| `BookingCancellation.HotelBookingService.SettleSupplierCancelled` | apps/api/src/hotel-booking/booking.service.ts:395-440 | the three-attempt loop and its escalation, for every schedule of other writers |
| `BookingCancellation.HotelBookingService.Cancel` | apps/api/src/hotel-booking/booking.service.ts:287-385 | the whole call with the number of supplier calls it makes |
| `BookingCancellation.AttemptsClimb` | apps/api/src/hotel-booking/booking.service.ts:403-428 | each conflict means the item moved up a level, so n conflicts need n levels |
| `BookingCancellation.ThreeAttemptsSuffice` | apps/api/src/hotel-booking/booking.service.ts:395-440 | the loop always ends cancelled, or gives up exactly when the item failed; it never runs out of attempts |
| `BookingCancellation.TwoAttemptsDoNotSuffice` | apps/api/src/hotel-booking/booking.service.ts:403-403 | a reachable run in which a call limited to two attempts gives up and escalates an item that is cancelled |
| `BookingCancellation.SupplierCancellationConverges` | apps/api/src/hotel-booking/booking.service.ts:338-347 | after the supplier says cancelled: item cancelled, or failed and escalated; no other ending |
| `BookingCancellation.AcceptedCancellationIsRecorded` | apps/api/src/hotel-booking/booking.service.ts:354-385 | a successful reply means the item is past cancelling or waits with the request recorded |
| `BookingCancellation.SupplierIsAskedToCancelOnce` | apps/api/src/hotel-booking/booking.service.ts:294-332 | after one successful call no later call reaches the supplier, whatever happens in between |
| `BookingCancellation.SerialCallsAskOnce` | apps/api/src/hotel-booking/booking.service.ts:287-385 | of calls that follow one another, with any commits in between, exactly those whose supplier call failed ask it, and at most one more, which settles the booking |
| `BookingCancellation.SecondCallAsksIff` | apps/api/src/hotel-booking/booking.service.ts:294-332 | a call that reads the booking while another is out asks the supplier exactly if the item is still cancellable without a request, priceable, and of the same agency |
| `BookingCancellation.OverlappingCallsAllAsk` | apps/api/src/hotel-booking/booking.service.ts:287-385 | from any booking a call would ask about, any number of overlapping calls all ask and succeed |
| `BookingCancellation.ReachableCallsAllAsk` | apps/api/src/hotel-booking/booking.service.ts:287-385 | and such a booking is reachable |
| `BookingCancellation.CallsPriceFirst` | apps/api/src/hotel-booking/booking.service.ts:312-315 | a call asks nothing and changes nothing unless the stored policy is valid |
| `BookingCancellation.CancelIsARun` | apps/api/src/hotel-booking/booking.service.ts:287-440 | what a call and those it met commit is some list of operations |
| `CancellationOutcomes.CallsThatAsk` | apps/api/src/hotel-booking/booking.service.ts:287-332 | a call asks the supplier once, exactly for the caller's own booking, waiting or confirmed with a supplier reference, without a request, priceable now; every other call changes nothing and is answered from the row, exactly how |
| `CancellationOutcomes.PreviewsShowThePolicy` | apps/api/src/hotel-booking/booking.service.ts:563-569 | a preview shows the penalty of the latest rule begun, nothing before the first, and what is left of the price; it fails exactly for an invalid policy or a refund out of range |
| `CancellationOutcomes.AttemptsCharge` | apps/api/src/hotel-booking/booking.service.ts:403-428 | when the loop settles the item itself, the posted charge is the penalty given, the request instant is recorded, and the four balances are plus or minus that penalty |
| `CancellationOutcomes.SettlingCallsCharge` | apps/api/src/hotel-booking/booking.service.ts:338-347 | when the call's own transition settles the cancellation, it has charged the penalty in force at its own instant on the row it read, which is what it previewed, posted, and left on the four balances, whatever others committed |
| `CancellationOutcomes.CancellationChargesItsPreview` | apps/api/src/hotel-booking/booking.service.ts:403-428 | unless somebody else cancels the item meanwhile, a call that succeeds has done so itself |
| `CancellationOutcomes.UndisturbedCallSettles` | apps/api/src/hotel-booking/booking.service.ts:326-440 | a call nobody disturbs succeeds and leaves the item cancelled and charged, or waiting with the request recorded now; a failed supplier call changes nothing |
| `CancellationOutcomes.RequestIsRecordedAtTheCall` | apps/api/src/hotel-booking/booking.service.ts:349-385 | while the supplier works on it the call always succeeds and reports the state it found; an item still waiting without a request has it recorded at the call's instant |
| `OfferStore.DrizzleOfferStore.InsertOffer` | apps/api/src/offers/offer-store.ts:174-177 | a new row, or a refusal that changes nothing: a value the table's checks forbid, or an id that is taken |
| `OfferStore.DrizzleOfferStore.MarkOfferChecked` | apps/api/src/offers/offer-store.ts:185-191 | stamps live rows only |
| `OfferStore.DrizzleOfferStore.InvalidateOffer` | apps/api/src/offers/offer-store.ts:193-199 | withdraws live rows only, keeping the first instant |
| `OfferStore.DrizzleOfferStore.ClaimOffer` | apps/api/src/offers/offer-store.ts:201-209 | true exactly for the caller that withdrew a live row |
| `OfferStore.DrizzleOfferStore.SupersedeOffer` | apps/api/src/offers/offer-store.ts:211-234 | claim and successor together, or neither, whichever constraint refuses the successor |
| `OfferStore.InMemoryOfferStore.InsertOffer` | apps/api/src/offers/offer-store.ts:255-266 | a new row in one tenant's map, refused only for a taken id |
| `OfferStore.InMemoryOfferStore.MarkOfferChecked` | apps/api/src/offers/offer-store.ts:272-279 | same as the database store, in one tenant's map |
| `OfferStore.InMemoryOfferStore.ClaimOffer` | apps/api/src/offers/offer-store.ts:290-297 | same as the database store, in one tenant's map |
| `OfferStore.InMemoryOfferStore.SupersedeOffer` | apps/api/src/offers/offer-store.ts:299-312 | claim, then insert; a refused insert leaves the claim standing |
| `OfferStore.TwinsInsertAlike` | apps/api/src/offers/offer-store.ts:236-266 | exactly when the in-memory insert leaves the rows the database would |
| `OfferStore.TwinsSupersedeAlike` | apps/api/src/offers/offer-store.ts:299-312 | exactly when superseding a live offer leaves the same rows in both stores |
| `OfferStore.ClaimKillsTheLineage` | apps/api/src/offers/offer-store.ts:201-209 | a won claim leaves nothing in the offer's lineage to claim, and revives no other lineage |
| `OfferStore.SupersedeKeepsOneLive` | apps/api/src/offers/offer-store.ts:211-234 | superseding keeps one live offer per lineage and every row's terms |
| `BookingProtocol.ProtocolStepKeepsInv` | apps/api/src/hotel-booking/booking.service.ts:135-274 | every step of every process, crashes included, keeps the invariant behind the claims below |
| `BookingProtocol.SupplierIsBookedOnce` | apps/api/src/hotel-booking/booking.service.ts:135-230 | no two book calls share a client reference, an offer, a lineage of superseding offers, or an item |
| `BookingProtocol.OneBookableOfferPerLineage` | apps/api/src/offers/check.service.ts:155-167 | racing checks and bookings never leave two bookable offers in a lineage |
| `BookingProtocol.ClaimWinnerNeverReplays` | apps/api/src/hotel-booking/booking.service.ts:184-197 | a call that won its claim but finds its client reference taken always refuses |
| `BookingProtocol.EveryCallPassedTheGate` | apps/api/src/offers/offers.service.ts:260-310 | each book call's token carried the signature that verifies for the stored offer, the offer is the caller's agency's and was checked in the window, unexpired, not withdrawn and within the lifetime cap at the gate, and the booking is that agency's at the stored prices, currency and cancellation policy |
| `BookingProtocol.NoBookingWithoutACall` | apps/api/src/hotel-booking/booking.service.ts:200-271 | an item past reserved that did not fail stands for exactly one book call |
| `BookingOutcomes.ExecutionIsARun` | apps/api/src/hotel-booking/booking.service.ts:135-274 | the bookings of every execution are those of some list of operations, so every-run claims cover executions |
| `BookingOutcomes.AnswersSettleBookings` | apps/api/src/hotel-booking/booking.service.ts:200-274 | in every execution an answer finds its item reserved and leaves it confirmed exactly if the supplier confirmed, pending exactly if it is pending, failed exactly if the call failed or the booking was cancelled; the reference is kept, sell and net are on the books exactly if confirmed, a pending item is next polled thirty seconds on, and the caller is told the item's state |
| `BookingOutcomes.AnswersDecideTheirItems` | apps/api/src/hotel-booking/booking.service.ts:233-271 | in every execution the item of an unanswered call is still reserved, and the item of an answered one left reserved the way the recorded answer says |
| `BookingOutcomes.EdgesStandForAnswers` | apps/api/src/hotel-booking/booking.service.ts:233-271 | an edge from reserved to confirmed or pending is in an item's outbox trail exactly if a call for that item was so answered; one to failed if it failed or was cancelled, or if no call was made |
| `BookingOutcomes.PendingBookingsAreDue` | apps/api/src/hotel-booking/booking.service.ts:244-257 | a booking left pending is due for polling exactly from thirty seconds after the answer |
| `BookingReplies.GateAdmitsIff` | apps/api/src/hotel-booking/booking.service.ts:148-154 | a call goes on to claim exactly if the offer is presented and signed as stored, of its agency and guest list, live, checked in the window, and on known terms |
| `BookingReplies.CallsHaveValidReferences` | apps/api/src/hotel-booking/booking.service.ts:135-138 | in every execution a call that is running, or was made to the supplier, has a client reference of 1 to 64 characters |
| `BookingReplies.UndisturbedBookingSucceeds` | apps/api/src/hotel-booking/booking.service.ts:135-274 | from any reachable state a call nobody disturbs, for a bookable offer and a fresh reference, withdraws the offer, makes one booking on its terms, calls the supplier once, and settles as answered |
| `BookingReplies.TakenReferencesReplay` | apps/api/src/hotel-booking/booking.service.ts:580-632 | a call whose reference is taken changes nothing; it is told the booking exactly if agency and offer are the same, and otherwise which of the two differs |
| `CheckOutcomes.CheckAsksIff` | apps/api/src/offers/check.service.ts:113-124 | a check asks the supplier exactly if the offer is presented and signed as stored, in the caller's scope, and live |
| `CheckOutcomes.CheckedOffersAgree` | apps/api/src/offers/check.service.ts:139-181 | in every execution a call that reports the offer it was asked about had an answer agreeing with its stored supplier net, policy and token; one that reports another had a differing answer, and that offer carries the answer's net, policy and token for the same property, guests and agency |
| `CheckOutcomes.UndisturbedCheckSettles` | apps/api/src/offers/check.service.ts:113-232 | undisturbed, an answer withdraws the offer, leaves it, stamps it as checked now, or trades it for one replacement born checked that carries the answer, exactly as the supplier said |
| `Outbox.OutboxDispatcher.Dispatch` | packages/booking-engine/src/events.ts:92-104 | publishes in order and stamps as the sink answers |
| `Outbox.OutboxDispatcher.RepublishUnpublished` | packages/booking-engine/src/events.ts:112-133 | dispatches the batch its query returned |
| `Outbox.DispatchStampsTheAccepted` | packages/booking-engine/src/events.ts:92-104 | exactly the accepted events are stamped, keeping earlier stamps, and nothing else changes |
| `Outbox.SweepLowersTheCount` | packages/booking-engine/src/events.ts:112-133 | an accepting sweep lowers the count of old unpublished events by min(limit, count) |
| `Outbox.SweepsDrainTheOutbox` | packages/booking-engine/src/events.ts:112-133 | enough accepting sweeps leave nothing old unpublished |
| `Outbox.StampedOnlyIfAccepted` | packages/booking-engine/src/events.ts:92-104 | through commits, publications, stamps and crashes, a stamped event was accepted; every other is still there to redeliver |
| `Outbox.EventsOutliveEverything` | packages/booking-engine/src/events.ts:43-61 | committed events are never removed or rewritten, stamps never undone |
| `VoucherDelivery.VoucherDeliveryConsumer.SweepTenant` | packages/documents/src/delivery.ts:83-87 | claims what the first query may return, then processes what the second may return after that |
| `VoucherDelivery.VoucherDeliveryConsumer.ClaimNewEvents` | packages/documents/src/delivery.ts:90-152 | for any batch the anti-join may return: one row per event, undeliverable from birth without a recipient and then escalated |
| `DeliverySweeps.EachClaimGetsItsRow` | packages/documents/src/delivery.ts:107-150 | each event of a batch gets its own new row or, without a recipient, a failed one and an escalated item; no other row is touched |
| `DeliverySweeps.ClaimingLowersTheCount` | packages/documents/src/delivery.ts:91-103 | of n unclaimed confirmed events min(batch size, n) are claimed, so a batch that is not full leaves none |
| `VoucherDelivery.VoucherDeliveryConsumer.SettleAttempt` | packages/documents/src/delivery.ts:179-246 | the guarded settlement of one attempt |
| `VoucherDelivery.VoucherDeliveryConsumer.ProcessDue` | packages/documents/src/delivery.ts:154-249 | for any batch the due query may return: the sweep over its rows, with its counts and escalations |
| `DeliverySweeps.EachDueRowIsProcessed` | packages/documents/src/delivery.ts:175-247 | each due row of a batch is processed once from the count it had, every other row is left alone, the counts add up |
| `DeliverySweeps.SweepsCountAndEscalate` | packages/documents/src/delivery.ts:175-247 | what a sweep counts as sent, failed and retried is what was delivered, ran out of attempts, and the rest; exactly the items of the failed rows are escalated |
| `DeliverySweeps.ClaimsCountAndEscalate` | packages/documents/src/delivery.ts:107-150 | a claim counts the events with a recipient, and escalates exactly the items of those without |
| `DeliverySweeps.ClaimAllIsARun` | packages/documents/src/delivery.ts:107-150 | the claiming loop is a run of the racing steps, whoever has claimed its events since |
| `DeliverySweeps.ProcessAllIsARun` | packages/documents/src/delivery.ts:154-249 | reading a batch and processing it is a run of the racing steps |
| `VoucherDelivery.SettlesWithinMaxAttempts` | packages/documents/src/delivery.ts:208-245 | processed one after another, a row is pending exactly while fewer than maxAttempts processings all failed |
| `VoucherDelivery.BackoffIsBounded` | packages/documents/src/delivery.ts:231-243 | the delay scheduled in all is base * (2^retries - 1) |
| `VoucherDelivery.TotalDelayBound` | packages/documents/src/delivery.ts:231-243 | hence at most base * (2^(maxAttempts-1) - 1) |
| `VoucherDelivery.OneDeliveryPerItem` | packages/documents/src/delivery.ts:90-152 | under any racing of sweeps an item has at most one delivery row |
| `VoucherDelivery.RacingRowsAreAccountedFor` | packages/documents/src/delivery.ts:208-245 | a pending row has attempts left and an instant; without crashes an undelivered one has its item escalated or about to be |
| `VoucherDelivery.SettledRowsAreFinal` | packages/documents/src/delivery.ts:194-222 | no later step rewrites a sent or undelivered row |
| `DeliveryAttempts.SettledByItsProcessings` | packages/documents/src/delivery.ts:194-245 | in every run a row claimed for delivery is settled exactly when a processing delivered or failed from the count maxAttempts - 1 |
| `DeliveryAttempts.SettledIffNoOverlap` | packages/documents/src/delivery.ts:194-245 | in every run maxAttempts processings settle the row if and only if one delivered or the k-th read the count k for every k from zero; fewer settle it only by delivering |
| `DeliveryAttempts.NoOverlapIsSerial` | packages/documents/src/delivery.ts:194-245 | a run whose processings of a row do not overlap leaves the row that serial processing leaves |
| `DeliveryAttempts.DelayIsBoundedWithoutOverlap` | packages/documents/src/delivery.ts:231-243 | and the delays it schedules come to at most base * (2^(maxAttempts-1) - 1) |
| `DeliveryAttempts.NoNumberOfFailuresSettles` | packages/documents/src/delivery.ts:208-245 | for every n, a reachable run in which n failed processings leave the row pending |
| `DeliveryAttempts.StaleFailureRestartsTheCount` | packages/documents/src/delivery.ts:230-245 | for every count a pending row can have, a reachable run in which one stale failure takes it back to one and restarts the backoff |
| `Money.NearestIsUnique` | packages/domain/src/money.ts:157-164 | at most one integer is nearest with ties away from zero |
| `Money.RoundingCharacterised` | packages/domain/src/money.ts:157-164 | rounded division is that integer, and no other |
| `Money.RoundingIsMonotone` | packages/domain/src/money.ts:157-164 | larger numerators never round lower |
| `Money.RoundingDependsOnTheRatio` | packages/domain/src/money.ts:157-164 | equal fractions round equally however they are written |
| `Money.ScalingIsNearest` | packages/domain/src/money.ts:118-131 | scaling succeeds exactly when the nearest amount is safe, and yields it |
| `Money.ScalingIsOdd` | packages/domain/src/money.ts:118-131 | scaling the negated amount gives the negated result, or both refuse |
| `Money.ScalingIsMonotone` | packages/domain/src/money.ts:118-131 | scaling by a natural scalar is monotone in the amount |
| `Allocation.Allocate` | packages/domain/src/money.ts:173-220 | accepts exactly valid money and valid weights, never leaves the safe range, and returns the largest-remainder parts |
| `Allocation.Conserves` | packages/domain/src/money.ts:173-220 | the parts sum exactly to the amount |
| `Allocation.LargestRemainders` | packages/domain/src/money.ts:195-214 | each part is the floor or ceiling of its quota, and those rounded up are precisely the first by remainder, then index |
| `Allocation.RuleDeterminesTheParts` | packages/domain/src/money.ts:195-214 | that rule admits one split only |
| `Allocation.PartBounds` | packages/domain/src/money.ts:173-220 | a weightless part gets nothing, no part exceeds the amount or changes sign |
| `Allocation.CommutesWithNegation` | packages/domain/src/money.ts:173-220 | allocating a negated amount negates every part |
| `DecimalText.ParseAfterRender` | packages/domain/src/money.ts:133-155 | every well-formed decimal is read back from its text |
| `DecimalText.RenderAfterParse` | packages/domain/src/money.ts:133-155 | accepted text is the text of the decimal read from it |
| `DecimalText.RatioHasTheValue` | packages/domain/src/money.ts:133-155 | the ratio of any accepted text, exponents included, has exactly the value of the text |
| `DecimalText.ScalingByTextIsNearest` | packages/domain/src/money.ts:118-155 | scaling by a text succeeds with exactly the safe amount nearest to the amount times the number written, ties away from zero |
| `DecimalText.AdapterRoundsLikeTheDomain` | packages/adapters/hotel/tbo/src/mapping.ts:74-101 | the adapter's conversion equals scaling 10^exponent minor units by the text |
| `DecimalText.AdapterIsNearest` | packages/adapters/hotel/tbo/src/mapping.ts:74-101 | it yields exactly the safe minor unit nearest to 10^exponent times the number written, ties away from zero |
| `DecimalText.PrintThenParse` | packages/ui/src/widgets/formatMoney.ts:34-40 | for each exponent, printing an amount and reading it back gives the amount |
| `DecimalText.PrintersAgree` | packages/documents/src/format.ts:36-47 | the screen and the documents print the same digits |
| `CancellationPolicies.AssertValidCancellationPolicy` | packages/domain/src/booking.ts:113-131 | accepts exactly valid penalties in time order |
| `CancellationPolicies.ResolvePenaltyAt` | packages/domain/src/booking.ts:133-148 | the early-stopping scan yields the penalty in force, for exactly the valid policies |
| `CancellationPolicies.InForceIsTheLatest` | packages/domain/src/booking.ts:133-148 | the penalty in force is that of the latest rule that has started, none before all of them |
| `CancellationPolicies.MergedPolicyIsThePointwiseSum` | packages/adapters/hotel/tbo/src/adapter.ts:342-363 | at every instant the merged penalty is the sum of the rooms' penalties in one currency; the merged rules are validly ordered; one room is handed back as it is |
| `CancellationPolicies.MergeValidates` | packages/adapters/hotel/tbo/src/adapter.ts:352-362 | a merge of several rooms that succeeds has validated every room |
| `CancellationPolicies.MergeSucceedsIff` | packages/adapters/hotel/tbo/src/adapter.ts:342-363 | a merge of several rooms succeeds exactly when at every instant it prices the policies are valid, the penalties in force share the picked currency, and no sum on the way leaves the safe range |
| `CancellationPolicies.MergeFailsOnlyOnOverflow` | packages/adapters/hotel/tbo/src/adapter.ts:342-363 | for valid rooms in one currency, of any sign, only a sum out of the safe range refuses the merge |
| `CancellationPolicies.ComputePolicyTimeline` | packages/ui/src/widgets/policyTimelineModel.ts:33-69 | succeeds for exactly the valid policies, and its index is the first segment that contains the instant, -1 if none does |
| `CancellationPolicies.ContainingSegmentAgrees` | packages/ui/src/widgets/policyTimelineModel.ts:33-69 | any segment containing an instant shows the penalty in force then |
| `CancellationPolicies.SegmentsAreContiguous` | packages/ui/src/widgets/policyTimelineModel.ts:37-56 | each segment begins where the one before ends |
| `CancellationPolicies.SegmentsAreDisjoint` | packages/ui/src/widgets/policyTimelineModel.ts:37-56 | no instant is in two segments, duplicate deadlines included |
| `CancellationPolicies.CoveringSegment` | packages/ui/src/widgets/policyTimelineModel.ts:37-56 | the segments of a refundable policy, or of one without rules, cover all time; any policy's cover it from the first rule on |
| `CancellationPolicies.TimelineRefinesResolution` | packages/ui/src/widgets/policyTimelineModel.ts:33-69 | the active segment agrees with the reference; the index is -1 exactly for a non-refundable policy before its first rule |
| `PricingRules.SelectRule` | apps/api/src/pricing/rules.ts:182-204 | refuses exactly when some rule is invalid, otherwise yields the running winner |
| `PricingRules.BeatsIsAStrictOrder` | apps/api/src/pricing/rules.ts:193-200 | specificity, then priority, then id is a strict order, total on distinct ids |
| `PricingRules.EqualSpecificityIsSameShape` | apps/api/src/pricing/rules.ts:166-175 | equal specificity holds exactly when the same dimensions are constrained |
| `PricingRules.BandedBeatsUnbanded` | apps/api/src/pricing/rules.ts:166-175 | a date-banded rule beats any rule without a band |
| `PricingRules.SelectedIsUnbeaten` | apps/api/src/pricing/rules.ts:182-204 | the selected rule matches and no matching rule beats it; none is selected exactly when none matches |
| `PricingRules.TheWinnerIsUnique` | apps/api/src/pricing/rules.ts:182-204 | with distinct ids, selected exactly if matching and beating every other match |
| `PricingRules.SelectionIsByRank` | apps/api/src/pricing/rules.ts:146-204 | with distinct ids the rule selected is the one that applies to the sale and outranks every other that does: the narrowest dimension where they differ, then lower priority, then smaller id |
| `PricingRules.NarrowestDimensionDecides` | apps/api/src/pricing/rules.ts:166-175 | a rule is more specific exactly if it constrains the narrowest dimension where the two differ, whatever combination the other constrains |
| `PricingRules.SelectionIgnoresOrder` | apps/api/src/pricing/rules.ts:182-204 | with distinct ids every permutation selects the same rule |
| `PriceResolution.ResolvePrice` | apps/api/src/pricing/resolve.ts:218-317 | succeeds exactly when the inputs are valid and every stage succeeds, and then with what the stages yield on the net as it is, or at the nearest amount at the stored rate raised to the nearest by the buffer |
| `PriceResolution.ApplyMarkup` | apps/api/src/pricing/resolve.ts:250-257 | markup and basis add up to a price that is not negative; the markup is what the rule asks for, rounded to nearest, except that a discount stops where the price is zero |
| `PriceResolution.ApplyVat` | apps/api/src/pricing/resolve.ts:259-282 | base and tax add up to the sell price and are not negative; inclusive tax is within one minor unit of exact, exclusive tax is the nearest amount and alone raises the price, exempt tax is zero |
| `PriceResolution.SplitCommission` | apps/api/src/pricing/resolve.ts:284-292 | a split exactly when the fired rule carries one; its shares add up to the markup, keep its sign, and are within one minor unit of exact |
| `PriceResolution.NothingIsLost` | apps/api/src/pricing/resolve.ts:218-317 | components sum exactly to sell, taxable base and VAT too, the commission split to the markup, in one currency; sell is never negative |
| `PriceResolution.ConversionIsRecorded` | apps/api/src/pricing/resolve.ts:228-244 | the basis is the net as given, or the nearest amount to it at the stored rate raised to the nearest amount by the buffer; exactly such a conversion is recorded, with its rate, buffer and currencies |
| `PriceResolution.SellCoversTheNet` | apps/api/src/pricing/resolve.ts:206-217 | sell is below the net basis only if the fired rule's value is negative, and a discount never exceeds the basis |
| `PriceResolution.InclusiveVatIsNearlyExact` | apps/api/src/pricing/resolve.ts:264-268 | inclusive VAT is within one minor unit of the exact carve-out |
| `PriceResolution.ExclusiveVatIsNearest` | apps/api/src/pricing/resolve.ts:269-274 | exclusive VAT is the nearest amount, ties away from zero |
| `PriceResolution.PriceIgnoresRuleOrder` | apps/api/src/pricing/resolve.ts:247-248 | the price does not depend on the order of rules with distinct ids |
| `PriceLaws.PriceIsExactly` | apps/api/src/pricing/resolve.ts:218-317 | a price resolves to a given breakdown if and only if the basis is the converted net, the markup what the rule asks for down to a price of zero, tax and shares nearest to their exact values and the rest what makes the sums come out, all amounts safe; everything else fails |
| `PriceLaws.FirstShareIsNearest` | apps/api/src/pricing/resolve.ts:264-292 | of a pair carved out of an amount the first is the nearest to its exact share, ties going to it |
| `AvailabilityKey.ReadsBack` | apps/api/src/hotel-search/cache-keys.ts:72-85 | an escaped string is read back with what follows it, lone surrogates and controls included |
| `AvailabilityKey.ValuesAreSeparable` | apps/api/src/hotel-search/cache-keys.ts:72-85 | a JSON value and the text after it can be told apart in one way only |
| `AvailabilityKey.StringifyIsInjective` | apps/api/src/hotel-search/cache-keys.ts:72-85 | equal JSON text means equal values |
| `AvailabilityKey.OccupancyIsCanonical` | apps/api/src/hotel-search/cache-keys.ts:31-51 | signatures agree exactly when the rooms agree as multisets of adults with multisets of ages |
| `AvailabilityKey.TargetIsCanonical` | apps/api/src/hotel-search/cache-keys.ts:54-60 | signatures agree exactly for the same kind with the same ids as a multiset |
| `AvailabilityKey.KeysIdentifyEquivalentQueries` | apps/api/src/hotel-search/cache-keys.ts:72-85 | two keys are equal if and only if the queries are equivalent in every component |
| `Base32.Encode` | apps/api/src/auth/totp.ts:46-62 | the text spells the bytes' bits and fewer than five zeros |
| `Base32.Decode` | apps/api/src/auth/totp.ts:72-90 | accepts exactly texts whose letters are in the alphabet, and yields the whole bytes of their bits |
| `Base32.EncodingIsUnique` | apps/api/src/auth/totp.ts:46-62 | bytes have one encoding |
| `Base32.DecodingIsUnique` | apps/api/src/auth/totp.ts:72-90 | letters have one decoding |
| `Base32.VariantsHaveItsLetters` | apps/api/src/auth/totp.ts:73-73 | lower-casing letters and inserting separators anywhere leaves a text's letters as they were |
| `Base32.RoundTrip` | apps/api/src/auth/totp.ts:46-90 | any variant of an encoding, lower-cased, separated or padded, decodes to the bytes encoded and to nothing else |
| `Base32.DecodeVariant` | apps/api/src/auth/totp.ts:72-90 | decoding such a variant succeeds with the bytes |
| `Base32.EncodeAndDecode` | apps/api/src/auth/totp.ts:46-90 | encoding and decoding gives back any bytes |
| `Base32.CaseAndSeparatorsDoNotMatter` | apps/api/src/auth/totp.ts:73-73 | normalisation works character by character, so case and separators may vary anywhere |
| `Base32.ReencodesIffCanonical` | apps/api/src/auth/totp.ts:46-90 | decoding and re-encoding gives the same letters exactly when fewer than five bits are left over, all zero |
| `SupplierTransport.CircuitBreaker.CheckCanCall` | packages/supplier-sdk/src/transport.ts:176-197 | who is admitted, and the probe slot it takes |
| `SupplierTransport.CircuitBreaker.Succeed` | packages/supplier-sdk/src/transport.ts:199-203 | closes from any state |
| `SupplierTransport.CircuitBreaker.Fail` | packages/supplier-sdk/src/transport.ts:205-214 | trips from half-open or at the threshold, otherwise counts |
| `SupplierTransport.CircuitBreaker.Inconclusive` | packages/supplier-sdk/src/transport.ts:224-226 | frees the probe slot and nothing else |
| `SupplierTransport.SupplierHttpClient.AttemptLoop` | packages/supplier-sdk/src/transport.ts:316-351 | the retry loop's answer and number of attempts |
| `SupplierTransport.SupplierHttpClient.Send` | packages/supplier-sdk/src/transport.ts:311-369 | an admitted send leaves exactly one record, on whatever the breaker has become; a refused one none |
| `SupplierTransport.AttemptsAreBounded` | packages/supplier-sdk/src/transport.ts:316-351 | every attempt but the last was retryable with time to back off, and the answer is the last attempt's or a timeout |
| `SupplierTransport.SendsAreBounded` | packages/supplier-sdk/src/transport.ts:311-351 | at most max(1, maxAttempts) attempts, one if not idempotent, each started before the deadline |
| `SupplierTransport.ProbeIsAlwaysOwed` | packages/supplier-sdk/src/transport.ts:176-234 | in every interleaving an occupied probe slot means half-open with a send still to record, and failures stay below the threshold |
| `SupplierTransport.BreakerNeverWedges` | packages/supplier-sdk/src/transport.ts:176-234 | once all admitted sends have recorded, the breaker admits again from the end of its cooldown |
| `SupplierTransport.HalfOpenAdmitsOne` | packages/supplier-sdk/src/transport.ts:187-196 | between two records half-open admits at most one call |
| `SupplierTransport.OpenRefusesUntilCooldown` | packages/supplier-sdk/src/transport.ts:176-209 | before its cooldown an open breaker admits a call if and only if a send admitted earlier has recorded a success by then |
| `SupplierTransport.StaleSuccessAdmitsEarly` | packages/supplier-sdk/src/transport.ts:199-203 | a reachable run in which it does |
| `SupplierTransport.SendIsARun` | packages/supplier-sdk/src/transport.ts:311-369 | an admitted send is a begin, whatever others do, and the finish that records its answer |
| `BreakerLaws.ClosedIffFewFailures` | packages/supplier-sdk/src/transport.ts:199-234 | after any calls the breaker is closed exactly if fewer failures than max(1, threshold) were recorded since the last success, inconclusive records not counting, and then its count is that number |
| `BreakerLaws.SharedClosedIff` | packages/supplier-sdk/src/transport.ts:311-369 | the same in every interleaving of sends that share it |
| `BreakerLaws.LimitOpens` | packages/supplier-sdk/src/transport.ts:205-234 | of the failures without a success between them, exactly the one that reaches max(1, threshold) opens the breaker, at its own instant, and the count starts over |
| `BreakerLaws.ProbeDecides` | packages/supplier-sdk/src/transport.ts:199-226 | in half-open a failure opens it at its instant, a success closes it, an inconclusive record frees the slot alone |
| `BreakerLaws.FifthFailureOpens` | packages/supplier-sdk/src/transport.ts:144-147 | by default four failures leave it admitting and the fifth refuses for exactly thirty seconds |
| `BreakerLaws.SendStopsExactly` | packages/supplier-sdk/src/transport.ts:316-351 | answer and number of attempts are those of the loop exactly if all but the last were retried, and the last was not or the next would start past the deadline |
| `BreakerLaws.DelayIsBounded` | packages/supplier-sdk/src/transport.ts:306-309 | a delay is never negative, and stays below the doubled base and the cap |

## Left out

- Controllers, modules, configuration, error-to-status mapping and the user interface: wiring.
- Postgres, Drizzle, Redis, S3, SMTP and rendering: each call is the guarded update, unique constraint or transaction it stands for; a select followed by a guarded update inside one transaction is one atomic step.
- Cryptography: offer signatures are an arbitrary predicate on id, row and signature; token entropy is not modelled.
- IEEE doubles: scalars are decimal text or integer ratios, so basis-point shares of amounts too large for exact division in doubles are exact here. Stored exchange rates are ratios, poll backoff factors are reals.
- Currency exponent tables and `Intl` formatting: amounts are printed and read at a given exponent; locale, Hijri and time-zone handling is absent.
- ISO instants are a spelling with its millisecond value; the parsing of the spelling is not modelled.
- Free text on rows (memo, reason, actor, details, guests) is dropped; group ids, item ids and offer ids come from outside, and a collision is refused as the unique constraint would.
- A booking is named by its client reference and holds its one item; multi-item sagas do not exist in the source either.
- The limit of a poll sweep and fairness between due rows: a sweep's rows are polled one by one, in any order.
- BookingProtocol covers one tenant; the deciding reads of the clock inside one uninterrupted stretch of code are one reading, and the re-read of the finished booking for the reply is not a step.
- A nullable offer column that old rows lack makes the whole group of such columns absent in the model.
- VoucherDelivery.SettlesWithinMaxAttempts: is about processings that follow one another; DeliveryAttempts.NoOverlapIsSerial says which runs those are, DeliveryAttempts.SettledIffNoOverlap that the bound is false of the others.
- VoucherDelivery.BackoffIsBounded: likewise without overlap, because a stale failure restarts the schedule, as DeliveryAttempts.StaleFailureRestartsTheCount shows.
- VoucherDelivery.TotalDelayBound: likewise without overlap.
- PollRuns.SerialWaitsEnd: bounds polls that do not overlap, and all polls only under a valid stored policy, because without either the bound is false, as PollRuns.OverlappingSweepsExceedAnyBound and PollRuns.AReachableWaitErrsForever show.
- BookingCancellation.SerialCallsAskOnce: is about calls that follow one another, because overlapping ones can all ask, as BookingCancellation.ReachableCallsAllAsk shows.
- OfferStore.DrizzleOfferStore.InsertOffer: the vertical and the reference to the markup rule are free text here, so their constraints are absent.
- CheckOutcomes.UndisturbedCheckSettles: takes a replacement's id, expiry and re-priced amounts from outside (PriceLaws.PriceIsExactly says what pricing comes to), and an answer about another property or nationality as a failed call.
- BookingReplies.UndisturbedBookingSucceeds: is about offers whose amounts are in the safe range; the columns are wider, and a booking beyond it is refused when it is created.
- BookingCancellation.SupplierCancellationConverges: takes the adapter lookup and credentials together with the supplier call, as one outside answer.
- SupplierTransport.SupplierHttpClient.Send: hooks and request contents are absent, and every transport error that is not a supplier error or replay miss is the timeout it is wrapped as.
- AvailabilityKey.KeysIdentifyEquivalentQueries: takes adults and ages as integers and strings as UTF-16 code units; the static-content key of the same file is not modelled.
- The TBO policy mapping, search, pricing service, token replay stores, sessions, machine auth, tenant pools and migrations: smaller claims.
