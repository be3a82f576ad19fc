/** booking_service: the status table, payments, confirmation, expiry and cancellation. */
module Bookings {
  import opened Commons
  import opened Records
  import opened Waitlist
  import opened Holds

  /** `_VALID_TRANSITIONS`. */
  predicate InTable(current: BookingStatus, target: BookingStatus) {
    match current
    case Held => target == PaymentPending || target == Expired || target == Cancelled
    case PaymentPending => target == Confirmed || target == Failed || target == Expired
    case Expired => target == Confirmed
    case _ => false
  }

  datatype PayOutcome = PaymentStarted | HoldAlreadyExpired | PayRejected

  datatype PayResult = PayResult(db: Db, outcome: PayOutcome)

  /** `expire_booking`. */
  function ExpireBooking(db: Db, b: BookingId, now: Time, ties: Ties): (r: Db)
    requires b < |db.bookings|
    ensures SameFloor(db, r) && |r.waitlist| == |db.waitlist|
  {
    if !Live(db.bookings[b].status) then db
    else OfferFreed(ReleaseHold(db, b, true), db.bookings[b].show, db.bookings[b].seats, now, ties)
  }

  /** `initiate_payment`, the first commit of a payment. */
  function InitiatePayment(db: Db, b: BookingId, now: Time, ties: Ties): (r: PayResult)
    requires b < |db.bookings|
    ensures SameFloor(db, r.db) && |r.db.waitlist| == |db.waitlist|
  {
    if db.bookings[b].expiresAt < now then PayResult(ExpireBooking(db, b, now, ties), HoldAlreadyExpired)
    else if !InTable(db.bookings[b].status, PaymentPending) then PayResult(db, PayRejected)
    else PayResult(SetStatus(db, b, PaymentPending, BookingPaymentPending(b)), PaymentStarted)
  }

  /** `record_payment_pending`, the second commit: the charge is for the booking's total.
      A reference that is already recorded violates the unique constraint and changes nothing. */
  function RecordPayment(db: Db, b: BookingId, ref: PaymentRef): Db
    requires b < |db.bookings|
  {
    if ref in db.payments then db
    else db.(payments := db.payments[ref := Payment(b, Pending, db.bookings[b].total)])
  }

  datatype WebhookOutcome =
    | UnknownProviderRef
    | AlreadyProcessed
    | PaymentFailedOutcome
    | ConfirmedOutcome
    | ConfirmedLateReacquired
    | RefundedSeatsGone
    | RefundedDuplicatePayment
    | RefundedBookingTerminal

  datatype WebhookResult = WebhookResult(db: Db, outcome: WebhookOutcome)

  function SettlePayment(db: Db, ref: PaymentRef, status: PaymentStatus): Db
    requires ref in db.payments
  {
    db.(payments := db.payments[ref := db.payments[ref].(status := status)])
  }

  /** The status of `ref` has left PENDING, and nothing else about any payment has changed. */
  predicate SettlesOnly(before: map<PaymentRef, Payment>, ref: PaymentRef, after: map<PaymentRef, Payment>)
    requires ref in before
  {
    ref in after && after[ref].status != Pending && after == before[ref := before[ref].(status := after[ref].status)]
  }

  /** Marks a payment REFUNDED and writes the `payment.refunded` row. */
  function Refund(db: Db, ref: PaymentRef): Db
    requires ref in db.payments
  {
    var settled := SettlePayment(db, ref, Refunded);
    settled.(log := db.log + [PaymentRefunded(ref, db.payments[ref].booking)])
  }

  /** The tail shared by both confirmations: status, ticket, waitlist claim, event. */
  function Ticket(db: Db, b: BookingId): Db
    requires b < |db.bookings|
  {
    var booking := db.bookings[b];
    db.(bookings := db.bookings[b := booking.(status := Confirmed, ticketed := true)],
        waitlist := MarkClaimed(db.waitlist, Elements(booking.seats)),
        log := db.log + [BookingConfirmed(b, booking.show)])
  }

  /** `_confirm_booking`. */
  function Confirm(db: Db, b: BookingId, fromExpired: bool): Db
    requires b < |db.bookings|
  {
    if fromExpired then Ticket(db, b)
    else Ticket(db.(seats := Put(db.seats, OwnedAmong(db.seats, db.bookings[b].seats, b), SoldTo(b))), b)
  }

  datatype Reacquisition = Reacquisition(seats: map<SeatId, SeatState>, all: bool)

  /** `_try_reacquire_seats`: sells FREE seats in order and stops at the first that is not. */
  function Reacquire(seats: map<SeatId, SeatState>, ids: seq<SeatId>, b: BookingId): (r: Reacquisition)
    ensures r.seats.Keys == seats.Keys
    decreases |ids|
  {
    if ids == [] then Reacquisition(seats, true)
    else if ids[0] in seats && seats[ids[0]].status == FREE then
      Reacquire(Put(seats, {ids[0]}, SoldTo(b)), ids[1..], b)
    else Reacquisition(seats, false)
  }

  /** The end of the EXPIRED branch of `handle_webhook`, with what re-acquisition has written. */
  function Conclude(db: Db, ref: PaymentRef, all: bool): (r: WebhookResult)
    requires ref in db.payments && db.payments[ref].booking < |db.bookings|
    ensures SameFloor(db, r.db) && |r.db.waitlist| == |db.waitlist| && SettlesOnly(db.payments, ref, r.db.payments)
  {
    if all then
      WebhookResult(Confirm(SettlePayment(db, ref, Succeeded), db.payments[ref].booking, true), ConfirmedLateReacquired)
    else WebhookResult(Refund(db, ref), RefundedSeatsGone)
  }

  /** The EXPIRED branch of `handle_webhook`. */
  function SucceedLate(db: Db, ref: PaymentRef): (r: WebhookResult)
    requires ref in db.payments && db.payments[ref].booking < |db.bookings|
    ensures SameFloor(db, r.db) && |r.db.waitlist| == |db.waitlist| && SettlesOnly(db.payments, ref, r.db.payments)
  {
    var b := db.payments[ref].booking;
    var attempt := Reacquire(db.seats, Ascending(Elements(db.bookings[b].seats)), b);
    Conclude(db.(seats := attempt.seats), ref, attempt.all)
  }

  /** The branches of `handle_webhook` behind `payment.status = SUCCEEDED`. */
  function WebhookSucceeded(db: Db, ref: PaymentRef): (r: WebhookResult)
    requires ref in db.payments && db.payments[ref].booking < |db.bookings|
    ensures SameFloor(db, r.db) && |r.db.waitlist| == |db.waitlist| && SettlesOnly(db.payments, ref, r.db.payments)
  {
    var b := db.payments[ref].booking;
    match db.bookings[b].status
    case PaymentPending => WebhookResult(Confirm(SettlePayment(db, ref, Succeeded), b, false), ConfirmedOutcome)
    case Expired => SucceedLate(db, ref)
    case Confirmed => WebhookResult(Refund(db, ref), RefundedDuplicatePayment)
    case _ => WebhookResult(Refund(db, ref), RefundedBookingTerminal)
  }

  /** The branch of `handle_webhook` for any status other than SUCCEEDED. */
  function WebhookFailed(db: Db, ref: PaymentRef, now: Time, ties: Ties): (r: Db)
    requires ref in db.payments && db.payments[ref].booking < |db.bookings|
    ensures SameFloor(db, r) && |r.waitlist| == |db.waitlist| && SettlesOnly(db.payments, ref, r.payments)
  {
    var b := db.payments[ref].booking;
    var booking := db.bookings[b];
    var settled := SettlePayment(db, ref, PaymentFailed);
    if booking.status != PaymentPending then settled
    else OfferFreed(SetStatus(FreeHeldSeats(settled, b), b, Failed, BookingFailed(b, booking.show)),
                    booking.show, booking.seats, now, ties)
  }

  /** `handle_webhook` for the payment's own booking. */
  function HandleWebhook(db: Db, ref: PaymentRef, succeeded: bool, now: Time, ties: Ties): (r: WebhookResult)
    requires ref in db.payments ==> db.payments[ref].booking < |db.bookings|
    ensures SameFloor(db, r.db) && |r.db.waitlist| == |db.waitlist|
  {
    if ref !in db.payments then WebhookResult(db, UnknownProviderRef)
    else if db.payments[ref].status != Pending then WebhookResult(db, AlreadyProcessed)
    else if succeeded then WebhookSucceeded(db, ref)
    else WebhookResult(WebhookFailed(db, ref, now, ties), PaymentFailedOutcome)
  }

  datatype CancelResult = CancelResult(db: Db, accepted: bool)

  /** `cancel_booking`. The UPDATE for a CONFIRMED booking has no owner guard. */
  function CancelBooking(db: Db, b: BookingId, now: Time, ties: Ties): (r: CancelResult)
    requires b < |db.bookings|
    ensures SameFloor(db, r.db) && |r.db.waitlist| == |db.waitlist|
  {
    var booking := db.bookings[b];
    if !Live(booking.status) && booking.status != Confirmed then CancelResult(db, false)
    else if booking.status == Confirmed then
      var freed := db.(seats := Put(db.seats, Elements(booking.seats), FREE_SEAT));
      CancelResult(OfferFreed(SetStatus(freed, b, Cancelled, BookingCancelled(b, booking.show)),
                              booking.show, booking.seats, now, ties), true)
    else if !InTable(booking.status, Cancelled) then CancelResult(db, false)
    else CancelResult(OfferFreed(ReleaseHold(db, b, false), booking.show, booking.seats, now, ties), true)
  }
}
