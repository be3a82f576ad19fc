/** What one transaction does to one row, told from the row's side: a second definition of the services, by tables. */
module RowTables {
  import opened Commons
  import opened Records
  import opened Waitlist
  import opened Holds
  import opened Bookings
  import opened System
  import opened Ownership
  import opened HoldOutcomes

  /** The delivery is the first one of a recorded payment. */
  predicate Settles(db: Db, step: Step) {
    && step.WebhookStep? && step.ref in db.payments && db.payments[step.ref].status == Pending
    && db.payments[step.ref].booking < |db.bookings|
  }

  /** The booking that the step is about. */
  function Subject(db: Db, step: Step): (b: Option<BookingId>)
    ensures b.Some? ==> b.value < |db.bookings|
  {
    var b := match step
      case PayStep(b, _, _) => Some(b)
      case SweepStep(b, _, _) => Some(b)
      case CancelStep(b, _, _) => Some(b)
      case WebhookStep(ref, _, _, _) => if Settles(db, step) then Some(db.payments[ref].booking) else None
      case _ => None;
    if b.Some? && b.value < |db.bookings| then b else None
  }

  predicate EverySeatFree(db: Db, seats: seq<SeatId>) {
    forall s | s in seats :: s in db.seats && db.seats[s].status == FREE
  }

  /** What becomes of the status of the step's booking. */
  function NewStatus(db: Db, step: Step, booking: Booking): BookingStatus {
    match (step, booking.status)
    case (PayStep(_, now, _), Held) => if now <= booking.expiresAt then PaymentPending else Expired
    case (PayStep(_, now, _), PaymentPending) => if now <= booking.expiresAt then PaymentPending else Expired
    case (SweepStep(_, now, _), Held) => if now <= booking.expiresAt then Held else Expired
    case (SweepStep(_, now, _), PaymentPending) => if now <= booking.expiresAt then PaymentPending else Expired
    case (CancelStep(_, _, _), Held) => Cancelled
    case (CancelStep(_, _, _), Confirmed) => Cancelled
    case (WebhookStep(_, true, _, _), PaymentPending) => Confirmed
    case (WebhookStep(_, false, _, _), PaymentPending) => Failed
    case (WebhookStep(_, true, _, _), Expired) => if EverySeatFree(db, booking.seats) then Confirmed else Expired
    case (_, status) => status
  }

  function NextStatus(db: Db, step: Step, b: BookingId): BookingStatus
    requires b < |db.bookings|
  {
    if Subject(db, step) == Some(b) then NewStatus(db, step, db.bookings[b]) else db.bookings[b].status
  }

  /** The row of an existing booking after the step. A ticket is issued on confirmation and never taken back. */
  function NextBooking(db: Db, step: Step, b: BookingId): Booking
    requires b < |db.bookings|
  {
    var booking := db.bookings[b];
    var status := NextStatus(db, step, b);
    booking.(status := status, ticketed := booking.ticketed || (status == Confirmed && booking.status != Confirmed))
  }

  /** The row of a payment after the step. */
  function NextPayment(db: Db, step: Step, ref: PaymentRef): Option<Payment> {
    if ref !in db.payments then
      if step.RecordStep? && step.ref == ref && step.b < |db.bookings|
      then Some(Payment(step.b, Pending, db.bookings[step.b].total)) else None
    else if !(Settles(db, step) && step.ref == ref) then Some(db.payments[ref])
    else
      var p := db.payments[ref];
      var booking := db.bookings[p.booking];
      if !step.succeeded then Some(p.(status := PaymentFailed))
      else if booking.status == PaymentPending || (booking.status == Expired && EverySeatFree(db, booking.seats))
      then Some(p.(status := Succeeded)) else Some(p.(status := Refunded))
  }

  /** The step takes the booking out of the statuses that claim seats. */
  predicate GivesUp(db: Db, step: Step, b: BookingId) {
    b < |db.bookings| && Claims(db.bookings[b].status) && !Claims(NextStatus(db, step, b))
  }

  predicate Sells(db: Db, step: Step, b: BookingId) {
    b < |db.bookings| && db.bookings[b].status != Confirmed && NextStatus(db, step, b) == Confirmed
  }

  function Clock(step: Step): Time {
    match step
    case HoldStep(_, _, _, now) => now
    case PayStep(_, now, _) => now
    case WebhookStep(_, _, now, _) => now
    case SweepStep(_, now, _) => now
    case CancelStep(_, now, _) => now
    case ExpireOffersStep(now) => now
    case RecordStep(_, _) => 0
    case JoinStep(_, _, _) => 0
  }

  function TiesOf(step: Step): Ties {
    match step
    case PayStep(_, _, ties) => ties
    case WebhookStep(_, _, _, ties) => ties
    case SweepStep(_, _, ties) => ties
    case CancelStep(_, _, ties) => ties
    case _ => map[]
  }

  function RetiredEvent(b: BookingId, status: BookingStatus, show: ShowId): Event {
    match status
    case Expired => BookingExpired(b, show)
    case Failed => BookingFailed(b, show)
    case _ => BookingCancelled(b, show)
  }

  /** The booking retired, all its seats FREE, the payment that failed it marked, and nobody offered anything yet. */
  function Freed(db: Db, step: Step, b: BookingId): Db
    requires b < |db.bookings|
  {
    var booking := db.bookings[b];
    var status := NextStatus(db, step, b);
    db.(seats := Put(db.seats, Elements(booking.seats), FREE_SEAT),
        bookings := db.bookings[b := booking.(status := status)],
        payments := if step.WebhookStep? && step.ref in db.payments
                    then db.payments[step.ref := db.payments[step.ref].(status := PaymentFailed)] else db.payments,
        log := db.log + [RetiredEvent(b, status, booking.show)])
  }

  lemma ExpiryFrees(db: Db, step: Step, b: BookingId)
    requires Owned(db) && b < |db.bookings| && Live(db.bookings[b].status) && NextStatus(db, step, b) == Expired
    requires !step.WebhookStep?
    ensures ReleaseHold(db, b, true) == Freed(db, step, b)
  {
    GuardMatchesAll(db, b);
  }

  lemma CancellationFrees(db: Db, step: Step, b: BookingId)
    requires Owned(db) && GivesUp(db, step, b) && step.CancelStep?
    ensures Apply(db, step)
      == OfferFreed(Freed(db, step, b), db.bookings[b].show, db.bookings[b].seats, step.now, step.ties)
  {
    GuardMatchesAll(db, b);
  }

  lemma FailureFrees(db: Db, step: Step, b: BookingId)
    requires Owned(db) && GivesUp(db, step, b) && step.WebhookStep?
    ensures Apply(db, step)
      == OfferFreed(Freed(db, step, b), db.bookings[b].show, db.bookings[b].seats, step.now, step.ties)
  {
    var settled := SettlePayment(db, step.ref, PaymentFailed);
    GuardMatchesAll(db, b);
    assert OwnedAmong(settled.seats, db.bookings[b].seats, b) == OwnedAmong(db.seats, db.bookings[b].seats, b);
  }

  /** Whatever makes a booking give up its seats frees all of them, and then offers each to who waits for it. */
  lemma GivingUpFreesAndOffers(db: Db, step: Step, b: BookingId)
    requires Owned(db) && GivesUp(db, step, b)
    ensures Apply(db, step)
      == OfferFreed(Freed(db, step, b), db.bookings[b].show, db.bookings[b].seats, Clock(step), TiesOf(step))
  {
    match step
    case PayStep(_, _, _) => ExpiryFrees(db, step, b);
    case SweepStep(_, _, _) => ExpiryFrees(db, step, b);
    case CancelStep(_, _, _) => CancellationFrees(db, step, b);
    case WebhookStep(_, _, _, _) => FailureFrees(db, step, b);
  }

  /** A confirmation sells the booking all its seats, tickets it, keeps the payment and claims the seats' offers. */
  function Sold(db: Db, ref: PaymentRef, b: BookingId): Db
    requires b < |db.bookings| && ref in db.payments
  {
    var booking := db.bookings[b];
    db.(seats := Put(db.seats, Elements(booking.seats), SoldTo(b)),
        bookings := db.bookings[b := booking.(status := Confirmed, ticketed := true)],
        payments := db.payments[ref := db.payments[ref].(status := Succeeded)],
        waitlist := MarkClaimed(db.waitlist, Elements(booking.seats)),
        log := db.log + [BookingConfirmed(b, booking.show)])
  }

  lemma OnTimeSale(db: Db, ref: PaymentRef)
    requires Owned(db) && ref in db.payments && db.payments[ref].booking < |db.bookings|
    requires db.bookings[db.payments[ref].booking].status == PaymentPending
    ensures WebhookSucceeded(db, ref).db == Sold(db, ref, db.payments[ref].booking)
  {
    var b := db.payments[ref].booking;
    var settled := SettlePayment(db, ref, Succeeded);
    GuardMatchesAll(db, b);
    assert OwnedAmong(settled.seats, db.bookings[b].seats, b) == OwnedAmong(db.seats, db.bookings[b].seats, b);
  }

  lemma EverySeatFreeIff(db: Db, b: BookingId)
    requires b < |db.bookings|
    ensures EverySeatFree(db, db.bookings[b].seats) <==> AllFree(db, b)
  {
    var seats := db.bookings[b].seats;
    var n := FreePrefix(db.seats, seats);
    if AllFree(db, b) {
      AllFreeSoldWhole(db, b);
    } else {
      assert seats[n] in seats;
    }
  }

  lemma LateSale(db: Db, ref: PaymentRef)
    requires Owned(db) && ref in db.payments && db.payments[ref].booking < |db.bookings|
    requires db.bookings[db.payments[ref].booking].status == Expired
    ensures var b := db.payments[ref].booking;
      WebhookSucceeded(db, ref).db == if EverySeatFree(db, db.bookings[b].seats) then Sold(db, ref, b)
                                      else Refund(PrefixSold(db, b), ref)
  {
    var b := db.payments[ref].booking;
    assert BookingOk(db, b);
    LateOutcome(db, ref);
    EverySeatFreeIff(db, b);
    LateBranch(db, ref);
    if AllFree(db, b) {
      AllFreeSoldWhole(db, b);
      WholeSale(db, ref, b);
    } else {
      PartSale(db, ref, b);
    }
  }

  lemma LateBranch(db: Db, ref: PaymentRef)
    requires ref in db.payments && db.payments[ref].booking < |db.bookings|
    requires db.bookings[db.payments[ref].booking].status == Expired
    ensures WebhookSucceeded(db, ref) == SucceedLate(db, ref)
  {
  }

  lemma PartSale(db: Db, ref: PaymentRef, b: BookingId)
    requires ref in db.payments && b < |db.bookings| && db.payments[ref].booking == b
    ensures Conclude(PrefixSold(db, b), ref, false).db == Refund(PrefixSold(db, b), ref)
  {
  }

  lemma WholeSale(db: Db, ref: PaymentRef, b: BookingId)
    requires ref in db.payments && b < |db.bookings| && db.payments[ref].booking == b
    requires PrefixSold(db, b) == db.(seats := Put(db.seats, Elements(db.bookings[b].seats), SoldTo(b)))
    ensures Conclude(PrefixSold(db, b), ref, true).db == Sold(db, ref, b)
  {
  }

  /** The deliveries of success, by the status of the booking. */
  lemma SuccessIs(db: Db, step: Step)
    requires Owned(db) && Settles(db, step) && step.succeeded
    ensures Apply(db, step) == AfterSuccess(db, step)
  {
    var b := db.payments[step.ref].booking;
    SuccessStep(db, step);
    match db.bookings[b].status
    case PaymentPending => OnTimeSale(db, step.ref);
    case Expired => LateSale(db, step.ref);
    case _ => RefundBranch(db, step.ref);
  }

  function AfterSuccess(db: Db, step: Step): Db
    requires Settles(db, step)
  {
    var b := db.payments[step.ref].booking;
    if Sells(db, step, b) then Sold(db, step.ref, b)
    else if db.bookings[b].status == Expired then Refund(PrefixSold(db, b), step.ref)
    else Refund(db, step.ref)
  }

  lemma RefundBranch(db: Db, ref: PaymentRef)
    requires ref in db.payments && db.payments[ref].booking < |db.bookings|
    requires db.bookings[db.payments[ref].booking].status != Expired
    requires db.bookings[db.payments[ref].booking].status != PaymentPending
    ensures WebhookSucceeded(db, ref).db == Refund(db, ref)
  {
  }

  lemma SuccessStep(db: Db, step: Step)
    requires Settles(db, step) && step.succeeded
    ensures Apply(db, step) == WebhookSucceeded(db, step.ref).db
  {
  }

  /** A failed delivery for a booking that is not waiting for it marks the payment and nothing else. */
  lemma IdleFailureIs(db: Db, step: Step)
    requires Settles(db, step) && !step.succeeded
    requires db.bookings[db.payments[step.ref].booking].status != PaymentPending
    ensures Apply(db, step) == db.(payments := db.payments[step.ref := db.payments[step.ref].(status := PaymentFailed)])
  {
  }

  predicate StartsPaying(db: Db, step: Step, b: BookingId) {
    && step.PayStep? && step.b == b && b < |db.bookings|
    && db.bookings[b].status == Held && step.now <= db.bookings[b].expiresAt
  }

  lemma PayStartIs(db: Db, step: Step, b: BookingId)
    requires StartsPaying(db, step, b)
    ensures Apply(db, step) == db.(bookings := db.bookings[b := db.bookings[b].(status := PaymentPending)],
                                   log := db.log + [BookingPaymentPending(b)])
  {
  }

  /** A payment, a sweep or a cancellation that moves nothing is refused without a trace. */
  lemma RefusedIs(db: Db, step: Step)
    requires step.PayStep? || step.SweepStep? || step.CancelStep?
    requires Subject(db, step).Some? ==>
      NextStatus(db, step, Subject(db, step).value) == db.bookings[Subject(db, step).value].status
    ensures Apply(db, step) == db
  {
  }

  /** Every row of an existing booking follows its table. */
  lemma BookingIs(db: Db, step: Step, b: BookingId)
    requires Owned(db) && b < |db.bookings|
    ensures b < |Apply(db, step).bookings| && Apply(db, step).bookings[b] == NextBooking(db, step, b)
  {
    if Subject(db, step).None? {
      NoSubjectKeepsBookings(db, step);
    } else {
      var c := Subject(db, step).value;
      if GivesUp(db, step, c) {
        GivenUpBookingIs(db, step, c, b);
      } else if step.WebhookStep? {
        SettledBookingIs(db, step, b);
      } else if StartsPaying(db, step, c) {
        PayStartIs(db, step, c);
      } else {
        RefusedIs(db, step);
      }
    }
  }

  lemma NoSubjectKeepsBookings(db: Db, step: Step)
    requires Subject(db, step).None?
    ensures var after := Apply(db, step).bookings;
      |db.bookings| <= |after| && forall b | 0 <= b < |db.bookings| :: after[b] == db.bookings[b]
  {
  }

  lemma GivenUpBookingIs(db: Db, step: Step, c: BookingId, b: BookingId)
    requires Owned(db) && GivesUp(db, step, c) && b < |db.bookings|
    ensures b < |Apply(db, step).bookings| && Apply(db, step).bookings[b] == NextBooking(db, step, b)
  {
    var freed := Freed(db, step, c);
    GivingUpFreesAndOffers(db, step, c);
    OfferFreedFrame(freed, db.bookings[c].show, db.bookings[c].seats, Clock(step), TiesOf(step));
    assert freed.bookings[b] == NextBooking(db, step, b);
  }

  lemma SettledBookingIs(db: Db, step: Step, b: BookingId)
    requires Owned(db) && Settles(db, step) && !GivesUp(db, step, db.payments[step.ref].booking) && b < |db.bookings|
    ensures b < |Apply(db, step).bookings| && Apply(db, step).bookings[b] == NextBooking(db, step, b)
  {
    if step.succeeded {
      SuccessIs(db, step);
      AfterSuccessBooking(db, step, b);
    } else {
      IdleFailureIs(db, step);
    }
  }

  lemma AfterSuccessBooking(db: Db, step: Step, b: BookingId)
    requires Settles(db, step) && step.succeeded && b < |db.bookings|
    ensures |AfterSuccess(db, step).bookings| == |db.bookings|
    ensures AfterSuccess(db, step).bookings[b] == NextBooking(db, step, b)
  {
  }

  lemma AfterSuccessPayment(db: Db, step: Step, ref: PaymentRef)
    requires Settles(db, step) && step.succeeded
    ensures var after := AfterSuccess(db, step).payments;
      (if ref in after then Some(after[ref]) else None) == NextPayment(db, step, ref)
  {
  }

  /** Every row of a payment follows its table: among others, a success for a FAILED, CANCELLED or already CONFIRMED
      booking, or for an EXPIRED one whose seats are gone, is REFUNDED. */
  lemma PaymentIs(db: Db, step: Step, ref: PaymentRef)
    requires Owned(db)
    ensures var after := Apply(db, step).payments;
      (if ref in after then Some(after[ref]) else None) == NextPayment(db, step, ref)
  {
    if Settles(db, step) {
      SettledPaymentIs(db, step, ref);
    } else if step.WebhookStep? || step.RecordStep? {
    } else if Subject(db, step).None? {
      NoSubjectKeepsPayments(db, step);
    } else {
      var c := Subject(db, step).value;
      if GivesUp(db, step, c) {
        GivingUpFreesAndOffers(db, step, c);
      } else if StartsPaying(db, step, c) {
        PayStartIs(db, step, c);
      } else {
        RefusedIs(db, step);
      }
    }
  }

  lemma NoSubjectKeepsPayments(db: Db, step: Step)
    requires Subject(db, step).None? && !step.RecordStep?
    ensures Apply(db, step).payments == db.payments
  {
  }

  lemma SettledPaymentIs(db: Db, step: Step, ref: PaymentRef)
    requires Owned(db) && Settles(db, step)
    ensures var after := Apply(db, step).payments;
      (if ref in after then Some(after[ref]) else None) == NextPayment(db, step, ref)
  {
    var b := db.payments[step.ref].booking;
    if step.succeeded {
      SuccessIs(db, step);
      AfterSuccessPayment(db, step, ref);
    } else if GivesUp(db, step, b) {
      GivingUpFreesAndOffers(db, step, b);
    } else {
      IdleFailureIs(db, step);
    }
  }

  /** What `handle_webhook` answers. */
  function Answer(db: Db, ref: PaymentRef, succeeded: bool): WebhookOutcome
    requires ref in db.payments ==> db.payments[ref].booking < |db.bookings|
  {
    if ref !in db.payments then UnknownProviderRef
    else if db.payments[ref].status != Pending then AlreadyProcessed
    else if !succeeded then PaymentFailedOutcome
    else
      var booking := db.bookings[db.payments[ref].booking];
      match booking.status
      case PaymentPending => ConfirmedOutcome
      case Expired => if EverySeatFree(db, booking.seats) then ConfirmedLateReacquired else RefundedSeatsGone
      case Confirmed => RefundedDuplicatePayment
      case Held => RefundedBookingTerminal
      case Failed => RefundedBookingTerminal
      case Cancelled => RefundedBookingTerminal
  }

  lemma AnswerIs(db: Db, ref: PaymentRef, succeeded: bool, now: Time, ties: Ties)
    requires Owned(db)
    requires ref in db.payments ==> db.payments[ref].booking < |db.bookings|
    ensures HandleWebhook(db, ref, succeeded, now, ties).outcome == Answer(db, ref, succeeded)
  {
    if ref in db.payments && db.payments[ref].status == Pending && succeeded {
      if db.bookings[db.payments[ref].booking].status == Expired {
        LateBranch(db, ref);
        LateAnswer(db, ref);
      }
    }
  }

  lemma LateAnswer(db: Db, ref: PaymentRef)
    requires Owned(db) && ref in db.payments && db.payments[ref].booking < |db.bookings|
    ensures SucceedLate(db, ref).outcome ==
      if EverySeatFree(db, db.bookings[db.payments[ref].booking].seats)
      then ConfirmedLateReacquired else RefundedSeatsGone
  {
    var b := db.payments[ref].booking;
    assert BookingOk(db, b);
    LateOutcome(db, ref);
    EverySeatFreeIff(db, b);
  }

  /** The seat was offered on: HELD for a new booking until the offer lapses. */
  predicate OfferedOn(seat: SeatState, n: nat, now: Time) {
    && seat.status == HELD && seat.owner.Some? && n <= seat.owner.value
    && seat.deadline == Some(now + WAITLIST_OFFER_TTL_SECONDS)
  }

  /** The row of a seat after the step. */
  predicate SeatFollows(db: Db, step: Step, s: SeatId, seat: SeatState)
    requires s in db.seats
  {
    if step.HoldStep? then
      seat == if CanHold(db, step.show, step.request) && s in step.request
              then SeatState(HELD, Some(|db.bookings|), Some(step.now + HOLD_TTL_SECONDS)) else db.seats[s]
    else if Subject(db, step).None? || s !in db.bookings[Subject(db, step).value].seats then seat == db.seats[s]
    else
      var b := Subject(db, step).value;
      var seats := db.bookings[b].seats;
      if GivesUp(db, step, b) then seat == SeatState(FREE, None, None) || OfferedOn(seat, |db.bookings|, Clock(step))
      else if Sells(db, step, b) then seat == SeatState(SOLD, Some(b), None)
      else if step.WebhookStep? && step.succeeded && db.bookings[b].status == Expired then
        seat == if s in seats[..FreePrefix(db.seats, seats)] then SeatState(SOLD, Some(b), None) else db.seats[s]
      else seat == db.seats[s]
  }

  lemma {:induction false} OffersTouchSeats(db: Db, show: ShowId, ids: seq<SeatId>, now: Time, ties: Ties, s: SeatId)
    requires s in db.seats
    ensures var after := OfferFreed(db, show, ids, now, ties);
      after.seats[s] == db.seats[s] || (s in ids && OfferedOn(after.seats[s], |db.bookings|, now))
    decreases |ids|
  {
    if ids != [] {
      OffersTouchSeats(OfferOne(db, show, ids[0], now, ties), show, ids[1..], now, ties, s);
      assert ids == [ids[0]] + ids[1..];
    }
  }

  /** Every row of a seat follows its table. */
  lemma SeatIs(db: Db, step: Step, s: SeatId)
    requires Owned(db) && s in db.seats
    ensures s in Apply(db, step).seats && SeatFollows(db, step, s, Apply(db, step).seats[s])
  {
    ApplySeatsStay(db, step);
    if step.HoldStep? {
      HeldSeatIs(db, step, s);
    } else if Subject(db, step).None? {
      NoSubjectKeepsSeats(db, step);
    } else {
      var b := Subject(db, step).value;
      if GivesUp(db, step, b) {
        GivenUpSeatIs(db, step, b, s);
      } else if step.WebhookStep? {
        SettledSeatIs(db, step, s);
      } else {
        UnmovedSeatIs(db, step, b, s);
      }
    }
  }

  lemma UnmovedSeatIs(db: Db, step: Step, b: BookingId, s: SeatId)
    requires Subject(db, step) == Some(b) && !GivesUp(db, step, b) && !step.WebhookStep? && s in db.seats
    ensures s in Apply(db, step).seats && SeatFollows(db, step, s, Apply(db, step).seats[s])
  {
    if StartsPaying(db, step, b) {
      PayStartIs(db, step, b);
    } else {
      RefusedIs(db, step);
    }
  }

  lemma GivenUpSeatIs(db: Db, step: Step, b: BookingId, s: SeatId)
    requires Owned(db) && s in db.seats && GivesUp(db, step, b)
    ensures s in Apply(db, step).seats && SeatFollows(db, step, s, Apply(db, step).seats[s])
  {
    GivingUpFreesAndOffers(db, step, b);
    OffersTouchSeats(Freed(db, step, b), db.bookings[b].show, db.bookings[b].seats, Clock(step), TiesOf(step), s);
  }

  lemma HeldSeatIs(db: Db, step: Step, s: SeatId)
    requires step.HoldStep? && s in db.seats
    ensures s in Apply(db, step).seats && SeatFollows(db, step, s, Apply(db, step).seats[s])
  {
    HoldsAllOrNothing(db, step.user, step.show, step.request, step.now);
  }

  lemma NoSubjectKeepsSeats(db: Db, step: Step)
    requires Subject(db, step).None? && !step.HoldStep?
    ensures Apply(db, step).seats == db.seats
  {
  }

  lemma SettledSeatIs(db: Db, step: Step, s: SeatId)
    requires Owned(db) && s in db.seats && Settles(db, step) && !GivesUp(db, step, db.payments[step.ref].booking)
    ensures s in Apply(db, step).seats && SeatFollows(db, step, s, Apply(db, step).seats[s])
  {
    if step.succeeded {
      SuccessIs(db, step);
      AfterSuccessSeat(db, step, s);
    } else {
      IdleFailureIs(db, step);
    }
  }

  lemma AfterSuccessSeat(db: Db, step: Step, s: SeatId)
    requires Settles(db, step) && step.succeeded && s in db.seats
    ensures s in AfterSuccess(db, step).seats && SeatFollows(db, step, s, AfterSuccess(db, step).seats[s])
  {
    var seats := db.bookings[db.payments[step.ref].booking].seats;
    assert forall t | t in seats[..FreePrefix(db.seats, seats)] :: t in seats;
  }

  /** The row of an existing waitlist entry after the step. */
  predicate EntryFollows(db: Db, step: Step, before: Entry, after: Entry) {
    if step.ExpireOffersStep? then
      after == if before.status == Offered && before.offerDeadline.Some? && before.offerDeadline.value < step.now
               then before.(status := OfferExpired) else before
    else if Subject(db, step).None? then after == before
    else
      var b := Subject(db, step).value;
      if Sells(db, step, b) then
        var seats := db.bookings[b].seats;
        after == if before.status == Offered && before.offeredSeat.Some? && before.offeredSeat.value in seats
                 then before.(status := Claimed) else before
      else if GivesUp(db, step, b) then
        after == before || OfferedTo(db.catalog, db.bookings[b].show, db.bookings[b].seats, Clock(step), before, after)
      else after == before
  }

  /** A waiting entry for the section of one of the seats is offered that seat. */
  predicate OfferedTo(
      catalog: map<SeatId, SeatInfo>, show: ShowId, ids: seq<SeatId>, now: Time, before: Entry, after: Entry) {
    && before.status == Waiting && after.offeredSeat.Some?
    && after == before.(status := Offered, offeredSeat := after.offeredSeat,
                        offerDeadline := Some(now + WAITLIST_OFFER_TTL_SECONDS))
    && (var s := after.offeredSeat.value;
        s in ids && s in catalog && catalog[s].section == before.section && before.show == show)
  }

  lemma {:induction false} OffersTouchEntries(db: Db, show: ShowId, ids: seq<SeatId>, now: Time, ties: Ties, i: EntryId)
    requires i < |db.waitlist|
    ensures var after := OfferFreed(db, show, ids, now, ties).waitlist[i];
      after == db.waitlist[i] || OfferedTo(db.catalog, show, ids, now, db.waitlist[i], after)
    decreases |ids|
  {
    if ids != [] {
      var one := OfferOne(db, show, ids[0], now, ties);
      OffersTouchEntries(one, show, ids[1..], now, ties, i);
      OfferTouchesEntry(db, show, ids[0], now, ties, i);
      assert ids == [ids[0]] + ids[1..];
    }
  }

  lemma OfferTouchesEntry(db: Db, show: ShowId, s: SeatId, now: Time, ties: Ties, i: EntryId)
    requires i < |db.waitlist|
    ensures var after := OfferOne(db, show, s, now, ties).waitlist[i];
      after == db.waitlist[i] || OfferedTo(db.catalog, show, [s], now, db.waitlist[i], after)
  {
  }

  /** Every row of the waitlist follows its table; a join adds one entry, behind all others. */
  lemma EntryIs(db: Db, step: Step, i: EntryId)
    requires Owned(db) && i < |db.waitlist|
    ensures i < |Apply(db, step).waitlist| && EntryFollows(db, step, db.waitlist[i], Apply(db, step).waitlist[i])
  {
    if Subject(db, step).None? {
      NoSubjectEntryIs(db, step, i);
    } else {
      var b := Subject(db, step).value;
      if GivesUp(db, step, b) {
        GivenUpEntryIs(db, step, b, i);
      } else if step.WebhookStep? {
        if step.succeeded { SuccessIs(db, step); } else { IdleFailureIs(db, step); }
      } else if StartsPaying(db, step, b) {
        PayStartIs(db, step, b);
      } else {
        RefusedIs(db, step);
      }
    }
  }

  lemma GivenUpEntryIs(db: Db, step: Step, b: BookingId, i: EntryId)
    requires Owned(db) && i < |db.waitlist| && GivesUp(db, step, b)
    ensures i < |Apply(db, step).waitlist| && EntryFollows(db, step, db.waitlist[i], Apply(db, step).waitlist[i])
  {
    GivingUpFreesAndOffers(db, step, b);
    OffersTouchEntries(Freed(db, step, b), db.bookings[b].show, db.bookings[b].seats, Clock(step), TiesOf(step), i);
  }

  lemma NoSubjectEntryIs(db: Db, step: Step, i: EntryId)
    requires Subject(db, step).None? && i < |db.waitlist|
    ensures i < |Apply(db, step).waitlist| && EntryFollows(db, step, db.waitlist[i], Apply(db, step).waitlist[i])
  {
  }

  /** The waitlist grows by joins only: by one entry that waits for the section, one place after the number waiting. */
  lemma JoinAddsOne(db: Db, step: Step)
    ensures |Apply(db, step).waitlist| == |db.waitlist| + if step.JoinStep? then 1 else 0
    ensures step.JoinStep? ==>
      var waiting := set i: EntryId | i < |db.waitlist| && WaitingFor(db.waitlist[i], step.show, step.section);
      Apply(db, step).waitlist[|db.waitlist|]
        == Entry(step.show, step.section, step.user, |waiting| + 1, Waiting, None, None)
  {
    if step.JoinStep? {
      assert Waiters(db.waitlist, step.show, step.section)
        == set i: EntryId | i < |db.waitlist| && WaitingFor(db.waitlist[i], step.show, step.section);
    }
  }

  /** A waiting entry has no seat and no deadline. */
  predicate BlankWhileWaiting(e: Entry) {
    e.status == Waiting ==> e.offeredSeat == None && e.offerDeadline == None
  }

  lemma {:induction false} WaitingAreBlank(db: Db, steps: seq<Step>, i: EntryId)
    requires Initial(db) && i < |Run(db, steps).waitlist|
    ensures BlankWhileWaiting(Run(db, steps).waitlist[i])
    decreases |steps|
  {
    if steps != [] {
      var shorter, last := steps[..|steps| - 1], steps[|steps| - 1];
      var before := Run(db, shorter);
      Reachable(db, shorter);
      if i < |before.waitlist| {
        WaitingAreBlank(db, shorter, i);
      }
      StepKeepsBlank(before, last, i);
    }
  }

  lemma StepKeepsBlank(db: Db, step: Step, i: EntryId)
    requires Owned(db) && i < |Apply(db, step).waitlist| && (i < |db.waitlist| ==> BlankWhileWaiting(db.waitlist[i]))
    ensures BlankWhileWaiting(Apply(db, step).waitlist[i])
  {
    JoinAddsOne(db, step);
    if i < |db.waitlist| {
      EntryIs(db, step, i);
      FollowedIsBlank(db, step, db.waitlist[i], Apply(db, step).waitlist[i]);
    }
  }

  lemma FollowedIsBlank(db: Db, step: Step, before: Entry, after: Entry)
    requires EntryFollows(db, step, before, after) && BlankWhileWaiting(before)
    ensures BlankWhileWaiting(after)
  {
  }

  /** Putting an entry back, when its seat was taken in between, leaves no trace in any reachable state. */
  lemma PutBackIsIdentity(db: Db, steps: seq<Step>, show: ShowId, s: SeatId, now: Time, hint: EntryId)
    requires Initial(db) && Known(Run(db, steps), s) && Run(db, steps).seats[s].status != FREE
    ensures OfferToNext(Run(db, steps), show, s, now, hint) == Run(db, steps)
  {
    var here := Run(db, steps);
    var next := NextWaiter(here.waitlist, show, here.catalog[s].section, hint);
    if next.Some? {
      WaitingAreBlank(db, steps, next.value);
      PutBack(here, show, s, now, hint, next.value);
    }
  }

  lemma PutBack(db: Db, show: ShowId, s: SeatId, now: Time, hint: EntryId, e: EntryId)
    requires Known(db, s) && db.seats[s].status != FREE
    requires NextWaiter(db.waitlist, show, db.catalog[s].section, hint) == Some(e) && BlankWhileWaiting(db.waitlist[e])
    ensures OfferToNext(db, show, s, now, hint) == db
  {
    var entry := db.waitlist[e];
    assert entry.(status := Waiting, offeredSeat := None, offerDeadline := None) == entry;
    assert db.waitlist[e := entry] == db.waitlist;
  }
}
