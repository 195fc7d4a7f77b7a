/** The booking item state machine as data (packages/domain/src/booking.ts). */
module BookingStates {

  datatype ItemState =
    | Quoted | Reserved | PendingConfirmation | Confirmed | Issued
    | AmendmentPending | Completed | Cancelled | Failed

  /** BOOKING_ITEM_TRANSITIONS. */
  function Successors(from: ItemState): seq<ItemState> {
    match from
    case Quoted => [Reserved]
    case Reserved => [PendingConfirmation, Confirmed, Failed]
    case PendingConfirmation => [Confirmed, Failed, Cancelled]
    case Confirmed => [Issued, AmendmentPending, Cancelled]
    case Issued => [Completed, AmendmentPending, Cancelled]
    case AmendmentPending => [Confirmed, Issued]
    case Completed => []
    case Cancelled => []
    case Failed => []
  }

  predicate CanTransition(from: ItemState, to: ItemState) {
    to in Successors(from)
  }
}
