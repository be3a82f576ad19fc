/** Conservation of money: what succeeded payments paid is what ticketed bookings cost. */
module Money {
  import opened Commons
  import opened Records
  import opened Waitlist
  import opened Holds
  import opened Bookings
  import opened System
  import Ownership

  /** What a payment contributes once the provider's answer is settled. */
  function Kept(p: Payment): int {
    if p.status == Succeeded then p.amount else 0
  }

  ghost function SucceededTotal(payments: map<PaymentRef, Payment>): int
    decreases |payments|
  {
    if payments == map[] then 0 else
      var ref :| ref in payments;
      Kept(payments[ref]) + SucceededTotal(payments - {ref})
  }

  function Paid(b: Booking): int {
    if b.ticketed then b.total else 0
  }

  function TicketedTotal(bookings: seq<Booking>): int
    decreases |bookings|
  {
    if bookings == [] then 0 else TicketedTotal(bookings[..|bookings| - 1]) + Paid(bookings[|bookings| - 1])
  }

  lemma {:induction false} SucceededTotalSplit(payments: map<PaymentRef, Payment>, ref: PaymentRef)
    requires ref in payments
    ensures SucceededTotal(payments) == Kept(payments[ref]) + SucceededTotal(payments - {ref})
    decreases |payments|
  {
    var picked :| picked in payments && SucceededTotal(payments) ==
      Kept(payments[picked]) + SucceededTotal(payments - {picked});
    if picked != ref {
      SucceededTotalSplit(payments - {picked}, ref);
      SucceededTotalSplit(payments - {ref}, picked);
      assert payments - {picked} - {ref} == payments - {ref} - {picked};
    }
  }

  lemma SucceededTotalPut(payments: map<PaymentRef, Payment>, ref: PaymentRef, p: Payment)
    ensures SucceededTotal(payments[ref := p]) ==
      SucceededTotal(payments) + Kept(p) - (if ref in payments then Kept(payments[ref]) else 0)
  {
    var after := payments[ref := p];
    SucceededTotalSplit(after, ref);
    if ref in payments {
      SucceededTotalSplit(payments, ref);
      assert after - {ref} == payments - {ref};
    } else {
      assert after - {ref} == payments;
    }
  }

  lemma {:induction false} TicketedTotalPut(bookings: seq<Booking>, b: BookingId, booking: Booking)
    requires b < |bookings|
    ensures TicketedTotal(bookings[b := booking]) == TicketedTotal(bookings) + Paid(booking) - Paid(bookings[b])
    decreases |bookings|
  {
    var last := |bookings| - 1;
    var after := bookings[b := booking];
    if b == last {
      assert after[..last] == bookings[..last];
    } else {
      TicketedTotalPut(bookings[..last], b, booking);
      assert after[..last] == bookings[..last][b := booking];
    }
  }

  lemma TicketedTotalAppend(bookings: seq<Booking>, booking: Booking)
    ensures TicketedTotal(bookings + [booking]) == TicketedTotal(bookings) + Paid(booking)
  {
    assert (bookings + [booking])[..|bookings|] == bookings;
  }

  ghost predicate Balanced(db: Db) {
    SucceededTotal(db.payments) == TicketedTotal(db.bookings)
  }

  lemma {:induction false} OfferFreedCostsNothing(db: Db, show: ShowId, ids: seq<SeatId>, now: Time, ties: Ties)
    ensures var after := OfferFreed(db, show, ids, now, ties);
      after.payments == db.payments && TicketedTotal(after.bookings) == TicketedTotal(db.bookings)
    decreases |ids|
  {
    if ids != [] {
      var one := OfferOne(db, show, ids[0], now, ties);
      if one.bookings != db.bookings {
        TicketedTotalAppend(db.bookings, one.bookings[|db.bookings|]);
      }
      OfferFreedCostsNothing(one, show, ids[1..], now, ties);
    }
  }

  /** A status change that keeps the ticket keeps the total of ticketed bookings. */
  lemma RestatusCostsNothing(bookings: seq<Booking>, b: BookingId, status: BookingStatus)
    requires b < |bookings|
    ensures TicketedTotal(bookings[b := bookings[b].(status := status)]) == TicketedTotal(bookings)
  {
    TicketedTotalPut(bookings, b, bookings[b].(status := status));
  }

  lemma ExpireBalances(db: Db, b: BookingId, now: Time, ties: Ties)
    requires Balanced(db) && b < |db.bookings|
    ensures Balanced(ExpireBooking(db, b, now, ties))
  {
    if Live(db.bookings[b].status) {
      RestatusCostsNothing(db.bookings, b, Expired);
      OfferFreedCostsNothing(ReleaseHold(db, b, true), db.bookings[b].show, db.bookings[b].seats, now, ties);
    }
  }

  lemma PayBalances(db: Db, b: BookingId, now: Time, ties: Ties)
    requires Balanced(db) && b < |db.bookings|
    ensures Balanced(InitiatePayment(db, b, now, ties).db)
  {
    ExpireBalances(db, b, now, ties);
    RestatusCostsNothing(db.bookings, b, PaymentPending);
  }

  lemma CancelBalances(db: Db, b: BookingId, now: Time, ties: Ties)
    requires Balanced(db) && b < |db.bookings|
    ensures Balanced(CancelBooking(db, b, now, ties).db)
  {
    var booking := db.bookings[b];
    RestatusCostsNothing(db.bookings, b, Cancelled);
    OfferFreedCostsNothing(ReleaseHold(db, b, false), booking.show, booking.seats, now, ties);
    var freed := db.(seats := Put(db.seats, Elements(booking.seats), FREE_SEAT));
    OfferFreedCostsNothing(SetStatus(freed, b, Cancelled, BookingCancelled(b, booking.show)), booking.show,
      booking.seats, now, ties);
  }

  lemma HoldBalances(db: Db, user: UserId, show: ShowId, request: seq<SeatId>, now: Time)
    requires Balanced(db)
    ensures Balanced(CreateHold(db, user, show, request, now).db)
  {
    var result := CreateHold(db, user, show, request, now);
    if result.outcome.HoldCreated? {
      TicketedTotalAppend(db.bookings, result.db.bookings[|db.bookings|]);
    }
  }

  /** A ticket is issued exactly when its payment is kept, for the same amount. */
  lemma TicketBalances(db: Db, after: Db, ref: PaymentRef)
    requires Balanced(db) && ref in db.payments && db.payments[ref].status == Pending
    requires var b := db.payments[ref].booking;
      && b < |db.bookings| && !db.bookings[b].ticketed && db.bookings[b].total == db.payments[ref].amount
      && after.payments == db.payments[ref := db.payments[ref].(status := Succeeded)]
      && after.bookings == db.bookings[b := db.bookings[b].(status := Confirmed, ticketed := true)]
    ensures Balanced(after)
  {
    var p := db.payments[ref];
    SucceededTotalPut(db.payments, ref, p.(status := Succeeded));
    TicketedTotalPut(db.bookings, p.booking, db.bookings[p.booking].(status := Confirmed, ticketed := true));
  }

  lemma RefundBalances(db: Db, after: Db, ref: PaymentRef)
    requires Balanced(db) && ref in db.payments && db.payments[ref].status == Pending
    requires after.payments == db.payments[ref := db.payments[ref].(status := Refunded)]
    requires after.bookings == db.bookings
    ensures Balanced(after)
  {
    SucceededTotalPut(db.payments, ref, db.payments[ref].(status := Refunded));
  }

  lemma WebhookSucceededBalances(db: Db, ref: PaymentRef)
    requires Balanced(db) && Ownership.Owned(db)
    requires ref in db.payments && db.payments[ref].status == Pending
    ensures Balanced(WebhookSucceeded(db, ref).db)
  {
    assert Ownership.PaymentOk(db, ref);
    var b := db.payments[ref].booking;
    var after := WebhookSucceeded(db, ref).db;
    assert Ownership.BookingOk(db, b);
    match db.bookings[b].status
    case PaymentPending => TicketBalances(db, after, ref);
    case Expired =>
      if Reacquire(db.seats, Ascending(Elements(db.bookings[b].seats)), b).all {
        TicketBalances(db, after, ref);
      } else {
        RefundBalances(db, after, ref);
      }
    case _ => RefundBalances(db, after, ref);
  }

  lemma WebhookFailedBalances(db: Db, ref: PaymentRef, now: Time, ties: Ties)
    requires Balanced(db) && ref in db.payments && db.payments[ref].booking < |db.bookings|
    requires db.payments[ref].status == Pending
    ensures Balanced(WebhookFailed(db, ref, now, ties))
  {
    var b := db.payments[ref].booking;
    var booking := db.bookings[b];
    SucceededTotalPut(db.payments, ref, db.payments[ref].(status := PaymentFailed));
    RestatusCostsNothing(db.bookings, b, Failed);
    var freed := FreeHeldSeats(SettlePayment(db, ref, PaymentFailed), b);
    OfferFreedCostsNothing(SetStatus(freed, b, Failed, BookingFailed(b, booking.show)), booking.show, booking.seats,
      now, ties);
  }

  lemma ApplyBalances(db: Db, step: Step)
    requires Balanced(db) && Ownership.Owned(db)
    ensures Balanced(Apply(db, step))
  {
    match step
    case HoldStep(user, show, request, now) => HoldBalances(db, user, show, request, now);
    case PayStep(b, now, ties) => if b < |db.bookings| { PayBalances(db, b, now, ties); }
    case RecordStep(b, ref) => if b < |db.bookings| {
      SucceededTotalPut(db.payments, ref, Payment(b, Pending, db.bookings[b].total));
    }
    case WebhookStep(ref, succeeded, now, ties) =>
      if ref in db.payments && db.payments[ref].booking < |db.bookings| && db.payments[ref].status == Pending {
        if succeeded { WebhookSucceededBalances(db, ref); } else { WebhookFailedBalances(db, ref, now, ties); }
      }
    case SweepStep(b, now, ties) => if b < |db.bookings| { ExpireBalances(db, b, now, ties); }
    case CancelStep(b, now, ties) => if b < |db.bookings| { CancelBalances(db, b, now, ties); }
    case JoinStep(user, show, section) =>
    case ExpireOffersStep(now) =>
  }

  /** Over every run, with any number of payments per booking, the kept payments add up to the
      prices of the seats of all bookings that ever got a ticket. */
  lemma {:induction false} MoneyIsConserved(db: Db, steps: seq<Step>)
    requires Initial(db)
    ensures SucceededTotal(Run(db, steps).payments) == TicketedTotal(Run(db, steps).bookings)
    decreases |steps|
  {
    if steps != [] {
      var before := Run(db, steps[..|steps| - 1]);
      MoneyIsConserved(db, steps[..|steps| - 1]);
      Ownership.Reachable(db, steps[..|steps| - 1]);
      ApplyBalances(before, steps[|steps| - 1]);
    }
  }

  /** The prices of the seats of all bookings that ever got a ticket. */
  function SeatRevenue(catalog: map<SeatId, SeatInfo>, bookings: seq<Booking>): int
    requires forall booking | booking in bookings :: forall s | s in booking.seats :: s in catalog
    decreases |bookings|
  {
    if bookings == [] then 0 else
      var last := bookings[|bookings| - 1];
      SeatRevenue(catalog, bookings[..|bookings| - 1]) + if last.ticketed then TotalPrice(catalog, last.seats) else 0
  }

  lemma {:induction false} RevenueOfTotals(catalog: map<SeatId, SeatInfo>, bookings: seq<Booking>)
    requires forall booking | booking in bookings :: forall s | s in booking.seats :: s in catalog
    requires forall booking | booking in bookings :: booking.total == TotalPrice(catalog, booking.seats)
    ensures SeatRevenue(catalog, bookings) == TicketedTotal(bookings)
    decreases |bookings|
  {
    if bookings != [] {
      RevenueOfTotals(catalog, bookings[..|bookings| - 1]);
    }
  }

  /** The same conservation law stated on the price list. */
  lemma RevenueIsConserved(db: Db, steps: seq<Step>)
    requires Initial(db)
    ensures var now := Run(db, steps);
      && (forall booking | booking in now.bookings :: forall s | s in booking.seats :: s in db.catalog)
      && SucceededTotal(now.payments) == SeatRevenue(db.catalog, now.bookings)
  {
    var now := Run(db, steps);
    MoneyIsConserved(db, steps);
    Ownership.Reachable(db, steps);
    Ownership.SeatsStay(db, steps);
    forall booking | booking in now.bookings
      ensures (forall s | s in booking.seats :: s in db.catalog)
      ensures booking.total == TotalPrice(db.catalog, booking.seats)
    {
      var b :| 0 <= b < |now.bookings| && now.bookings[b] == booking;
      assert Ownership.BookingOk(now, b);
    }
    RevenueOfTotals(db.catalog, now.bookings);
  }
}
