/** The status changes that the services make, against the table that is said to list them. */
module Transitions {
  import opened Commons
  import opened Records
  import opened Waitlist
  import opened Holds
  import opened Bookings
  import opened System
  import opened Scenarios

  /** Whether a step cancels a CONFIRMED booking `b`: the branch that does not consult the table. */
  predicate CancelsConfirmed(db: Db, step: Step, b: BookingId)
    requires b < |db.bookings|
  {
    step.CancelStep? && step.b == b && db.bookings[b].status == Confirmed
  }

  /** Booking `b` keeps its status, or leaves it along the table. */
  predicate Listed(before: Db, after: Db, b: BookingId)
    requires b < |before.bookings|
  {
    && b < |after.bookings|
    && (after.bookings[b].status == before.bookings[b].status
        || InTable(before.bookings[b].status, after.bookings[b].status))
  }

  lemma ExpireListed(db: Db, c: BookingId, now: Time, ties: Ties, b: BookingId)
    requires b < |db.bookings| && c < |db.bookings|
    ensures Listed(db, ExpireBooking(db, c, now, ties), b)
  {
    if Live(db.bookings[c].status) {
      OfferFreedFrame(ReleaseHold(db, c, true), db.bookings[c].show, db.bookings[c].seats, now, ties);
    }
  }

  lemma FailureListed(db: Db, ref: PaymentRef, now: Time, ties: Ties, b: BookingId)
    requires ref in db.payments && db.payments[ref].booking < |db.bookings| && b < |db.bookings|
    ensures Listed(db, WebhookFailed(db, ref, now, ties), b)
  {
    var c := db.payments[ref].booking;
    var booking := db.bookings[c];
    if booking.status == PaymentPending {
      var freed := FreeHeldSeats(SettlePayment(db, ref, PaymentFailed), c);
      OfferFreedFrame(SetStatus(freed, c, Failed, BookingFailed(c, booking.show)), booking.show, booking.seats, now,
        ties);
    }
  }

  lemma SuccessListed(db: Db, ref: PaymentRef, b: BookingId)
    requires ref in db.payments && db.payments[ref].booking < |db.bookings| && b < |db.bookings|
    ensures Listed(db, WebhookSucceeded(db, ref).db, b)
  {
    if db.bookings[db.payments[ref].booking].status == Expired {
      LateListed(db, ref, b);
    }
  }

  lemma LateListed(db: Db, ref: PaymentRef, b: BookingId)
    requires ref in db.payments && db.payments[ref].booking < |db.bookings| && b < |db.bookings|
    requires db.bookings[db.payments[ref].booking].status == Expired
    ensures Listed(db, SucceedLate(db, ref).db, b)
  {
  }

  /** What a cancellation does, for every status: exactly HELD and CONFIRMED bookings can be cancelled. A
      PAYMENT_PENDING booking passes the first guard and is refused by the table. */
  lemma CancelAcceptedIff(db: Db, b: BookingId, now: Time, ties: Ties)
    requires b < |db.bookings|
    ensures var result := CancelBooking(db, b, now, ties);
      var status := db.bookings[b].status;
      && (result.accepted <==> status == Held || status == Confirmed)
      && (!result.accepted ==> result.db == db)
      && |db.bookings| <= |result.db.bookings|
      && (result.accepted ==> result.db.bookings[b].status == Cancelled)
      && forall c: BookingId | c < |db.bookings| && c != b :: result.db.bookings[c].status == db.bookings[c].status
  {
    var booking := db.bookings[b];
    var event := BookingCancelled(b, booking.show);
    if booking.status == Confirmed {
      var freed := db.(seats := Put(db.seats, Elements(booking.seats), FREE_SEAT));
      OfferFreedFrame(SetStatus(freed, b, Cancelled, event), booking.show, booking.seats, now, ties);
    } else if booking.status == Held {
      OfferFreedFrame(ReleaseHold(db, b, false), booking.show, booking.seats, now, ties);
    }
  }

  lemma ListedUnlessCancelling(db: Db, step: Step, b: BookingId)
    requires b < |db.bookings| && !step.CancelStep?
    ensures Listed(db, Apply(db, step), b)
  {
    match step
    case HoldStep(user, show, request, now) => HoldListed(db, user, show, request, now, b);
    case PayStep(c, now, ties) => if c < |db.bookings| { ExpireListed(db, c, now, ties, b); }
    case RecordStep(_, _) =>
    case WebhookStep(ref, succeeded, now, ties) => WebhookListed(db, ref, succeeded, now, ties, b);
    case SweepStep(c, now, ties) => if c < |db.bookings| { ExpireListed(db, c, now, ties, b); }
    case JoinStep(_, _, _) =>
    case ExpireOffersStep(_) =>
  }

  lemma HoldListed(db: Db, user: UserId, show: ShowId, request: seq<SeatId>, now: Time, b: BookingId)
    requires b < |db.bookings|
    ensures Listed(db, CreateHold(db, user, show, request, now).db, b)
  {
  }

  lemma WebhookListed(db: Db, ref: PaymentRef, succeeded: bool, now: Time, ties: Ties, b: BookingId)
    requires b < |db.bookings|
    ensures Listed(db, Apply(db, WebhookStep(ref, succeeded, now, ties)), b)
  {
    if ref in db.payments && db.payments[ref].booking < |db.bookings| && db.payments[ref].status == Pending {
      if succeeded { SuccessListed(db, ref, b); } else { FailureListed(db, ref, now, ties, b); }
    }
  }

  /** A status change is in the table exactly when it is not the cancellation of a CONFIRMED booking. */
  lemma InTableIff(db: Db, step: Step, b: BookingId)
    requires b < |db.bookings|
    ensures b < |Apply(db, step).bookings|
    ensures var old', new' := db.bookings[b].status, Apply(db, step).bookings[b].status;
      old' != new' ==> (InTable(old', new') <==> !CancelsConfirmed(db, step, b))
  {
    if step.CancelStep? {
      if step.b < |db.bookings| {
        CancelAcceptedIff(db, step.b, step.now, step.ties);
      }
    } else {
      ListedUnlessCancelling(db, step, b);
    }
  }

  /** Hold, pay and succeed; then cancel. */
  function TicketRun(u: UserId, show: ShowId, ids: seq<SeatId>, now: Time, ref: PaymentRef): seq<Step> {
    [HoldStep(u, show, ids, now)] + [PayStep(0, now, map[]), RecordStep(0, ref), WebhookStep(ref, true, now, map[])]
  }

  ghost predicate HasBooking(db: Db, status: BookingStatus) {
    |db.bookings| > 0 && db.bookings[0].status == status
  }

  lemma TicketIsConfirmed(db: Db, u: UserId, show: ShowId, ids: seq<SeatId>, now: Time, ref: PaymentRef)
    requires Initial(db) && show in db.shows && ids != [] && IsAscending(ids)
    requires forall s | s in ids :: s in db.catalog && db.catalog[s].show == show
    ensures HasBooking(Run(db, TicketRun(u, show, ids, now, ref)), Confirmed)
  {
    var hold := [HoldStep(u, show, ids, now)];
    var pay := [PayStep(0, now, map[]), RecordStep(0, ref), WebhookStep(ref, true, now, map[])];
    HoldOnSeeded(db, u, show, ids, now);
    RunOne(db, hold);
    RunConcat(db, hold, pay);
    PaidIsConfirmed(Run(db, hold), now, ref, pay);
  }

  lemma PaidIsConfirmed(db: Db, now: Time, ref: PaymentRef, pay: seq<Step>)
    requires |db.bookings| == 1 && db.bookings[0].status == Held && now <= db.bookings[0].expiresAt &&
      ref !in db.payments
    requires pay == [PayStep(0, now, map[]), RecordStep(0, ref), WebhookStep(ref, true, now, map[])]
    ensures HasBooking(Run(db, pay), Confirmed)
  {
    RunThree(db, pay);
    PayAndRecord(db, 0, now, ref);
    SuccessConfirms(Apply(Apply(db, pay[0]), pay[1]), ref, now);
  }

  lemma ConfirmedCancels(db: Db, now: Time, ties: Ties)
    requires HasBooking(db, Confirmed)
    ensures HasBooking(Run(db, [CancelStep(0, now, ties)]), Cancelled)
  {
    RunOne(db, [CancelStep(0, now, ties)]);
    CancelAcceptedIff(db, 0, now, ties);
  }

  /** The change that the table does not list happens in any database with a seat. */
  lemma ConfirmedIsCancelled(db: Db, u: UserId, show: ShowId, ids: seq<SeatId>, now: Time, ref: PaymentRef, ties: Ties)
    requires Initial(db) && show in db.shows && ids != [] && IsAscending(ids)
    requires forall s | s in ids :: s in db.catalog && db.catalog[s].show == show
    ensures var steps := TicketRun(u, show, ids, now, ref);
      && HasBooking(Run(db, steps), Confirmed) && HasBooking(Run(db, steps + [CancelStep(0, now, ties)]), Cancelled)
      && !InTable(Confirmed, Cancelled)
  {
    var steps := TicketRun(u, show, ids, now, ref);
    TicketIsConfirmed(db, u, show, ids, now, ref);
    ConfirmedCancels(Run(db, steps), now, ties);
    RunConcat(db, steps, [CancelStep(0, now, ties)]);
  }
}
