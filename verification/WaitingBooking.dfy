/** A booking left waiting for its supplier's confirmation, reached from an empty database: the start of the examples. */
module WaitingBooking {
  import opened BookingStates
  import opened CancellationPolicies
  import opened ItemRuns
  import opened Money
  import opened TransitionRunner
  import opened Wrappers

  const FEE := Money(700, "SAR")

  /** It owes a fee from the start. */
  const WAITING_HISTORY := WaitingUnder(Policy(false, [Rule(Instant("0", 0), FEE)]))

  const WAITING_ROW := ItemRow(PendingConfirmation, Some("R1"), None, 900, 1000, "SAR", Policy(false, [Rule(Instant("0", 0), FEE)]),
                               0, 2, Some(2), None, 0, Some(2), None)

  /** Created, reserved and left pending under some policy: the runner stores what it is given. */
  function WaitingUnder(policy: Policy): seq<Op> {
    [Create(CreateInput("C1", None, None, Money(900, "SAR"), Money(1000, "SAR"), policy), 0, 0),
     Move(0, ItemState.Reserved, TransitionContext(Quoted, NO_PATCH, None, 1, 1)),
     Move(0, PendingConfirmation, TransitionContext(ItemState.Reserved, Patch(Some("R1"), Some(2), Some(Some(2)), None), None, 2, 2))]
  }

  lemma WaitingUnderPolicy(policy: Policy)
    ensures var db := Run(EMPTY_DB, WaitingUnder(policy));
            && 0 in db.items && db.items[0] == WAITING_ROW.(policy := policy)
            && "C1" in db.bookings && db.bookings["C1"] == BookingRow(None, 0) && db.journal == []
  {
    var h := WaitingUnder(policy);
    OneStepRun(EMPTY_DB, h[0]);
    RunAppend(EMPTY_DB, [h[0]], h[1]);
    assert [h[0]] + [h[1]] == [h[0], h[1]];
    RunAppend(EMPTY_DB, [h[0], h[1]], h[2]);
    assert [h[0], h[1]] + [h[2]] == h;
    var db1 := Run(EMPTY_DB, [h[0]]);
    assert 0 in db1.items && db1.items[0].state == Quoted && db1.journal == [];
    var db2 := Run(EMPTY_DB, [h[0], h[1]]);
    assert 0 in db2.items && db2.items[0].state == ItemState.Reserved && db2.journal == [];
  }

  lemma WaitingAfterHistory()
    ensures var db := Run(EMPTY_DB, WAITING_HISTORY);
            && 0 in db.items && db.items[0] == WAITING_ROW
            && "C1" in db.bookings && db.bookings["C1"] == BookingRow(None, 0) && db.journal == []
  {
    WaitingUnderPolicy(Policy(false, [Rule(Instant("0", 0), FEE)]));
  }

  /** The supplier's confirmation. */
  const CONFIRMATION := Move(0, ItemState.Confirmed, TransitionContext(PendingConfirmation, NO_PATCH, None, 4, 4))

  lemma ConfirmedRow(db: Db)
    requires 0 in db.items && db.items[0] == WAITING_ROW
    ensures var db' := Apply(db, CONFIRMATION);
            0 in db'.items && db'.items[0] == WAITING_ROW.(state := ItemState.Confirmed, updatedAt := 4, nextPollAt := None)
  {
  }
}
