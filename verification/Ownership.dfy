/** Who owns which seat, in every reachable state. */
module Ownership {
  import opened Commons
  import opened Records
  import opened Waitlist
  import opened Holds
  import opened Bookings
  import opened System

  /** What a seat row says about its owner. A SOLD seat of an EXPIRED booking is stranded. */
  ghost predicate SeatOk(db: Db, s: SeatId)
    requires s in db.seats
  {
    var seat := db.seats[s];
    if seat.status == FREE then seat == FREE_SEAT
    else
      && seat.owner.Some? && seat.owner.value < |db.bookings|
      && var booking := db.bookings[seat.owner.value];
      && s in booking.seats
      && if seat.status == HELD then Live(booking.status) && seat.deadline == Some(booking.expiresAt)
         else (booking.status == Confirmed || booking.status == Expired) && seat.deadline == None
  }

  /** What a booking says about its seats. */
  ghost predicate BookingOk(db: Db, b: BookingId)
    requires b < |db.bookings|
  {
    var booking := db.bookings[b];
    && booking.seats != [] && IsAscending(booking.seats)
    && (forall s | s in booking.seats :: Known(db, s) && db.catalog[s].show == booking.show)
    && booking.total == TotalPrice(db.catalog, booking.seats)
    && (Live(booking.status) ==> forall s | s in booking.seats :: db.seats[s] == HeldBy(b, booking.expiresAt))
    && (booking.status == Confirmed ==> forall s | s in booking.seats :: db.seats[s] == SoldTo(b))
    && (booking.ticketed ==> booking.status == Confirmed || booking.status == Cancelled)
    && (booking.status == Confirmed ==> booking.ticketed)
  }

  ghost predicate PaymentOk(db: Db, ref: PaymentRef)
    requires ref in db.payments
  {
    var p := db.payments[ref];
    p.booking < |db.bookings| && p.amount == db.bookings[p.booking].total
  }

  ghost predicate Owned(db: Db) {
    && db.catalog.Keys == db.seats.Keys
    && (forall s | s in db.seats :: SeatOk(db, s))
    && (forall b: BookingId | b < |db.bookings| :: BookingOk(db, b))
    && (forall ref | ref in db.payments :: PaymentOk(db, ref))
  }

  /** The owner guard of `free_held_seats` and of confirmation matches every seat of the booking. */
  lemma GuardMatchesAll(db: Db, b: BookingId)
    requires Owned(db) && b < |db.bookings|
    requires Live(db.bookings[b].status) || db.bookings[b].status == Confirmed
    ensures OwnedAmong(db.seats, db.bookings[b].seats, b) == Elements(db.bookings[b].seats)
  {
    assert BookingOk(db, b);
  }

  /** Freeing all seats of a booking and retiring it. */
  lemma RetireKeeps(db: Db, b: BookingId, status: BookingStatus, event: Event)
    requires Owned(db) && b < |db.bookings|
    requires Live(db.bookings[b].status) || db.bookings[b].status == Confirmed
    requires !Live(status) && status != Confirmed
    requires db.bookings[b].ticketed ==> status == Cancelled
    ensures Owned(SetStatus(db.(seats := Put(db.seats, Elements(db.bookings[b].seats), FREE_SEAT)), b, status, event))
  {
    var after := SetStatus(db.(seats := Put(db.seats, Elements(db.bookings[b].seats), FREE_SEAT)), b, status, event);
    forall s | s in after.seats ensures SeatOk(after, s) {
      assert SeatOk(db, s);
    }
    forall c: BookingId | c < |after.bookings| ensures BookingOk(after, c) {
      assert BookingOk(db, c) && BookingOk(db, b);
    }
    forall ref | ref in after.payments ensures PaymentOk(after, ref) {
      assert PaymentOk(db, ref);
    }
  }

  /** A new booking takes over FREE seats. */
  lemma TakeKeeps(db: Db, after: Db, booking: Booking)
    requires Owned(db)
    requires booking.seats != [] && IsAscending(booking.seats) && booking.status == Held && !booking.ticketed
    requires forall s | s in booking.seats :: s in db.catalog && s in db.seats
    requires forall s | s in booking.seats :: db.catalog[s].show == booking.show && db.seats[s].status == FREE
    requires booking.total == TotalPrice(db.catalog, booking.seats)
    requires after.catalog == db.catalog && after.payments == db.payments
    requires after.bookings == db.bookings + [booking]
    requires after.seats == Put(db.seats, Elements(booking.seats), HeldBy(|db.bookings|, booking.expiresAt))
    ensures Owned(after)
  {
    forall s | s in after.seats ensures SeatOk(after, s) {
      assert SeatOk(db, s);
    }
    forall c: BookingId | c < |after.bookings| ensures BookingOk(after, c) {
      if c < |db.bookings| {
        assert BookingOk(db, c);
      }
    }
    forall ref | ref in after.payments ensures PaymentOk(after, ref) {
      assert PaymentOk(db, ref);
    }
  }

  /** Waitlist rows and log rows play no part in ownership. */
  lemma OwnedIgnoresWaitlistAndLog(db: Db, after: Db)
    requires Owned(db)
    requires after == db.(waitlist := after.waitlist, log := after.log, shows := after.shows)
    ensures Owned(after)
  {
    forall s | s in after.seats ensures SeatOk(after, s) {
      assert SeatOk(db, s);
    }
    forall c: BookingId | c < |after.bookings| ensures BookingOk(after, c) {
      assert BookingOk(db, c);
    }
    forall ref | ref in after.payments ensures PaymentOk(after, ref) {
      assert PaymentOk(db, ref);
    }
  }

  lemma OfferOneKeeps(db: Db, show: ShowId, s: SeatId, now: Time, ties: Ties)
    requires Owned(db) && (Known(db, s) ==> db.catalog[s].show == show)
    ensures Owned(OfferOne(db, show, s, now, ties))
  {
    var after := OfferOne(db, show, s, now, ties);
    if Known(db, s) && db.seats[s].status == FREE {
      match NextWaiter(db.waitlist, show, db.catalog[s].section, Hint(ties, s))
      case None =>
      case Some(e) =>
        var booking := Booking(db.waitlist[e].user, show, Held, [s], now + WAITLIST_OFFER_TTL_SECONDS,
          db.catalog[s].price, false);
        assert booking.seats[1..] == [];
        assert Elements(booking.seats) == {s};
        TakeKeeps(db, after, booking);
    }
  }

  lemma {:induction false} OfferFreedKeeps(db: Db, show: ShowId, ids: seq<SeatId>, now: Time, ties: Ties)
    requires Owned(db) && forall s | s in ids :: Known(db, s) ==> db.catalog[s].show == show
    ensures Owned(OfferFreed(db, show, ids, now, ties))
    decreases |ids|
  {
    if ids != [] {
      OfferOneKeeps(db, show, ids[0], now, ties);
      OfferFreedKeeps(OfferOne(db, show, ids[0], now, ties), show, ids[1..], now, ties);
    }
  }

  lemma HoldKeeps(db: Db, user: UserId, show: ShowId, request: seq<SeatId>, now: Time)
    requires Owned(db)
    ensures Owned(CreateHold(db, user, show, request, now).db)
  {
    var result := CreateHold(db, user, show, request, now);
    if result.outcome.HoldCreated? {
      var rows := RequestedRows(db, show, request);
      forall s | s in rows ensures db.seats[s].status == FREE {
        assert s !in NotFree(db.seats, rows);
      }
      TakeKeeps(db, result.db, result.db.bookings[|db.bookings|]);
    }
  }

  lemma ExpireKeeps(db: Db, b: BookingId, now: Time, ties: Ties)
    requires Owned(db) && b < |db.bookings|
    ensures Owned(ExpireBooking(db, b, now, ties))
  {
    if Live(db.bookings[b].status) {
      GuardMatchesAll(db, b);
      assert BookingOk(db, b);
      RetireKeeps(db, b, Expired, BookingExpired(b, db.bookings[b].show));
      OfferFreedKeeps(ReleaseHold(db, b, true), db.bookings[b].show, db.bookings[b].seats, now, ties);
    }
  }

  lemma PayKeeps(db: Db, b: BookingId, now: Time, ties: Ties)
    requires Owned(db) && b < |db.bookings|
    ensures Owned(InitiatePayment(db, b, now, ties).db)
  {
    var after := InitiatePayment(db, b, now, ties).db;
    if db.bookings[b].expiresAt < now {
      ExpireKeeps(db, b, now, ties);
    } else if InTable(db.bookings[b].status, PaymentPending) {
      forall s | s in after.seats ensures SeatOk(after, s) {
        assert SeatOk(db, s);
      }
      forall c: BookingId | c < |after.bookings| ensures BookingOk(after, c) {
        assert BookingOk(db, c);
      }
      forall ref | ref in after.payments ensures PaymentOk(after, ref) {
        assert PaymentOk(db, ref);
      }
    }
  }

  lemma CancelKeeps(db: Db, b: BookingId, now: Time, ties: Ties)
    requires Owned(db) && b < |db.bookings|
    ensures Owned(CancelBooking(db, b, now, ties).db)
  {
    var booking := db.bookings[b];
    assert BookingOk(db, b);
    if booking.status == Confirmed {
      var event := BookingCancelled(b, booking.show);
      RetireKeeps(db, b, Cancelled, event);
      var freed := db.(seats := Put(db.seats, Elements(booking.seats), FREE_SEAT));
      OfferFreedKeeps(SetStatus(freed, b, Cancelled, event), booking.show, booking.seats, now, ties);
    } else if Live(booking.status) && InTable(booking.status, Cancelled) {
      GuardMatchesAll(db, b);
      RetireKeeps(db, b, Cancelled, BookingCancelled(b, booking.show));
      OfferFreedKeeps(ReleaseHold(db, b, false), booking.show, booking.seats, now, ties);
    }
  }

  /** Settling or refunding a payment leaves seats and bookings alone. */
  lemma SettleKeeps(db: Db, ref: PaymentRef, status: PaymentStatus, log: seq<Event>)
    requires Owned(db) && ref in db.payments
    ensures Owned(SettlePayment(db, ref, status).(log := log))
  {
    var after := SettlePayment(db, ref, status).(log := log);
    forall s | s in after.seats ensures SeatOk(after, s) {
      assert SeatOk(db, s);
    }
    forall c: BookingId | c < |after.bookings| ensures BookingOk(after, c) {
      assert BookingOk(db, c);
    }
    forall r | r in after.payments ensures PaymentOk(after, r) {
      assert PaymentOk(db, r);
    }
  }

  lemma RecordKeeps(db: Db, b: BookingId, ref: PaymentRef)
    requires Owned(db) && b < |db.bookings|
    ensures Owned(RecordPayment(db, b, ref))
  {
    var after := RecordPayment(db, b, ref);
    forall s | s in after.seats ensures SeatOk(after, s) {
      assert SeatOk(db, s);
    }
    forall c: BookingId | c < |after.bookings| ensures BookingOk(after, c) {
      assert BookingOk(db, c);
    }
    forall r | r in after.payments ensures PaymentOk(after, r) {
      if r in db.payments {
        assert PaymentOk(db, r);
      }
    }
  }

  /** Selling a booking its seats touches no seat that another booking holds or owns. */
  lemma OthersUntouched(db: Db, sold: map<SeatId, SeatState>, b: BookingId, c: BookingId)
    requires Owned(db) && b < |db.bookings| && c < |db.bookings| && b != c
    requires db.bookings[b].status == PaymentPending || db.bookings[b].status == Expired
    requires sold == Put(db.seats, Elements(db.bookings[b].seats), SoldTo(b))
    requires db.bookings[b].status == Expired ==>
      forall s | s in db.bookings[b].seats :: s in db.seats && (db.seats[s].status == FREE || db.seats[s] == SoldTo(b))
    ensures Live(db.bookings[c].status) || db.bookings[c].status == Confirmed ==>
      forall s | s in db.bookings[c].seats :: s in db.seats && sold[s] == db.seats[s]
  {
    assert BookingOk(db, b) && BookingOk(db, c);
  }

  lemma TicketedSeatOk(db: Db, sold: map<SeatId, SeatState>, b: BookingId, s: SeatId)
    requires Owned(db) && b < |db.bookings| && s in db.seats
    requires db.bookings[b].status == PaymentPending || db.bookings[b].status == Expired
    requires sold == Put(db.seats, Elements(db.bookings[b].seats), SoldTo(b))
    ensures SeatOk(Ticket(db.(seats := sold), b), s)
  {
    assert SeatOk(db, s) && BookingOk(db, b);
  }

  /** Selling all seats of a booking to it and ticketing it. */
  lemma TicketKeeps(db: Db, sold: map<SeatId, SeatState>, b: BookingId)
    requires Owned(db) && b < |db.bookings|
    requires db.bookings[b].status == PaymentPending || db.bookings[b].status == Expired
    requires sold == Put(db.seats, Elements(db.bookings[b].seats), SoldTo(b))
    requires db.bookings[b].status == Expired ==>
      forall s | s in db.bookings[b].seats :: s in db.seats && (db.seats[s].status == FREE || db.seats[s] == SoldTo(b))
    ensures Owned(Ticket(db.(seats := sold), b))
  {
    var after := Ticket(db.(seats := sold), b);
    assert BookingOk(db, b);
    forall s | s in after.seats ensures SeatOk(after, s) {
      TicketedSeatOk(db, sold, b, s);
    }
    forall c: BookingId | c < |after.bookings| ensures BookingOk(after, c) {
      assert BookingOk(db, c);
      if c != b {
        OthersUntouched(db, sold, b, c);
      }
    }
    forall ref | ref in after.payments ensures PaymentOk(after, ref) {
      assert PaymentOk(db, ref);
    }
  }

  /** The number of leading seats that are FREE: where `_try_reacquire_seats` stops. */
  function FreePrefix(seats: map<SeatId, SeatState>, ids: seq<SeatId>): (n: nat)
    ensures n <= |ids|
    ensures forall i | 0 <= i < n :: ids[i] in seats && seats[ids[i]].status == FREE
    ensures n < |ids| ==> !(ids[n] in seats && seats[ids[n]].status == FREE)
  {
    if ids != [] && ids[0] in seats && seats[ids[0]].status == FREE then 1 + FreePrefix(seats, ids[1..]) else 0
  }

  lemma PutTwice(seats: map<SeatId, SeatState>, p: set<SeatId>, q: set<SeatId>, state: SeatState)
    ensures Put(Put(seats, p, state), q, state) == Put(seats, p + q, state)
  {
  }

  /** Re-acquisition sells exactly the FREE prefix, whatever follows it. */
  lemma {:induction false} ReacquireSellsPrefix(seats: map<SeatId, SeatState>, ids: seq<SeatId>, b: BookingId)
    requires Distinct(ids)
    ensures var n := FreePrefix(seats, ids);
      Reacquire(seats, ids, b) == Reacquisition(Put(seats, Elements(ids[..n]), SoldTo(b)), n == |ids|)
    decreases |ids|
  {
    var n := FreePrefix(seats, ids);
    if n == 0 {
      assert Put(seats, Elements(ids[..n]), SoldTo(b)) == seats;
    } else {
      var next := Put(seats, {ids[0]}, SoldTo(b));
      var rest := ids[1..];
      FreePrefixAgrees(seats, next, rest);
      ReacquireSellsPrefix(next, rest, b);
      assert ids[..n] == [ids[0]] + rest[..n - 1];
      assert Elements(ids[..n]) == {ids[0]} + Elements(rest[..n - 1]);
      PutTwice(seats, {ids[0]}, Elements(rest[..n - 1]), SoldTo(b));
    }
  }

  lemma {:induction false} FreePrefixAgrees(m: map<SeatId, SeatState>, n: map<SeatId, SeatState>, ids: seq<SeatId>)
    requires forall s | s in ids :: (s in m <==> s in n) && (s in m ==> m[s] == n[s])
    ensures FreePrefix(m, ids) == FreePrefix(n, ids)
    decreases |ids|
  {
    if ids != [] {
      assert ids[0] in ids;
      FreePrefixAgrees(m, n, ids[1..]);
    }
  }

  lemma AscendingOfAscending(q: seq<nat>)
    requires IsAscending(q)
    ensures Ascending(Elements(q)) == q
  {
    AscendingUnique(Ascending(Elements(q)), q);
  }

  /** Selling a FREE prefix of an EXPIRED booking's seats to it, whether or not it is all of them. */
  lemma StrandKeeps(db: Db, b: BookingId, ids: set<SeatId>)
    requires Owned(db) && b < |db.bookings| && db.bookings[b].status == Expired
    requires forall s | s in ids :: s in db.bookings[b].seats && s in db.seats && db.seats[s].status == FREE
    ensures Owned(db.(seats := Put(db.seats, ids, SoldTo(b))))
  {
    var after := db.(seats := Put(db.seats, ids, SoldTo(b)));
    forall s | s in after.seats ensures SeatOk(after, s) {
      assert SeatOk(db, s);
    }
    forall c: BookingId | c < |after.bookings| ensures BookingOk(after, c) {
      assert BookingOk(db, c);
    }
    forall ref | ref in after.payments ensures PaymentOk(after, ref) {
      assert PaymentOk(db, ref);
    }
  }

  /** The database with the FREE prefix of a booking's seats sold to it. */
  function PrefixSold(db: Db, b: BookingId): Db
    requires b < |db.bookings|
  {
    var seats := db.bookings[b].seats;
    db.(seats := Put(db.seats, Elements(seats[..FreePrefix(db.seats, seats)]), SoldTo(b)))
  }

  predicate AllFree(db: Db, b: BookingId)
    requires b < |db.bookings|
  {
    FreePrefix(db.seats, db.bookings[b].seats) == |db.bookings[b].seats|
  }

  /** What re-acquisition leaves in the seat table keeps the invariant, even when it got only a part. */
  lemma PrefixSoldKeeps(db: Db, b: BookingId)
    requires Owned(db) && b < |db.bookings| && db.bookings[b].status == Expired
    ensures Owned(PrefixSold(db, b))
  {
    StrandKeeps(db, b, Elements(db.bookings[b].seats[..FreePrefix(db.seats, db.bookings[b].seats)]));
  }

  lemma AllFreeSoldWhole(db: Db, b: BookingId)
    requires b < |db.bookings| && AllFree(db, b)
    ensures PrefixSold(db, b) == db.(seats := Put(db.seats, Elements(db.bookings[b].seats), SoldTo(b)))
    ensures forall s | s in db.bookings[b].seats ::
      s in db.seats && db.seats[s].status == FREE && PrefixSold(db, b).seats[s] == SoldTo(b)
  {
    var seats := db.bookings[b].seats;
    assert seats[..|seats|] == seats;
    forall s | s in seats ensures s in db.seats && db.seats[s].status == FREE {
      var i :| 0 <= i < |seats| && seats[i] == s;
    }
  }

  /** A late success sells the FREE prefix, and then either tickets the booking or refunds. */
  lemma LateOutcome(db: Db, ref: PaymentRef)
    requires ref in db.payments && db.payments[ref].booking < |db.bookings|
    requires IsAscending(db.bookings[db.payments[ref].booking].seats)
    ensures var b := db.payments[ref].booking;
      SucceedLate(db, ref) == Conclude(PrefixSold(db, b), ref, AllFree(db, b))
  {
    var b := db.payments[ref].booking;
    AscendingOfAscending(db.bookings[b].seats);
    ReacquireSellsPrefix(db.seats, db.bookings[b].seats, b);
  }

  lemma LateTicketKeeps(db: Db, ref: PaymentRef, b: BookingId)
    requires Owned(db) && ref in db.payments && b < |db.bookings| && db.bookings[b].status == Expired
    requires forall s | s in db.bookings[b].seats :: s in db.seats && db.seats[s] == SoldTo(b)
    ensures Owned(Ticket(SettlePayment(db, ref, Succeeded), b))
  {
    SettleKeeps(db, ref, Succeeded, db.log);
    var settled := SettlePayment(db, ref, Succeeded);
    assert settled == settled.(log := db.log);
    assert Put(settled.seats, Elements(db.bookings[b].seats), SoldTo(b)) == settled.seats;
    TicketKeeps(settled, settled.seats, b);
    assert settled.(seats := settled.seats) == settled;
  }

  lemma LateSuccessKeeps(db: Db, ref: PaymentRef)
    requires Owned(db) && ref in db.payments && db.payments[ref].booking < |db.bookings|
    requires db.bookings[db.payments[ref].booking].status == Expired
    ensures Owned(SucceedLate(db, ref).db)
  {
    var b := db.payments[ref].booking;
    assert BookingOk(db, b);
    LateOutcome(db, ref);
    PrefixSoldKeeps(db, b);
    if AllFree(db, b) {
      AllFreeSoldWhole(db, b);
    }
    ConcludeKeeps(PrefixSold(db, b), ref, AllFree(db, b));
  }

  lemma ConcludeKeeps(db: Db, ref: PaymentRef, all: bool)
    requires Owned(db) && ref in db.payments && db.payments[ref].booking < |db.bookings|
    requires db.bookings[db.payments[ref].booking].status == Expired
    requires all ==> var b := db.payments[ref].booking;
      forall s | s in db.bookings[b].seats :: s in db.seats && db.seats[s] == SoldTo(b)
    ensures Owned(Conclude(db, ref, all).db)
  {
    if all {
      LateTicketKeeps(db, ref, db.payments[ref].booking);
    } else {
      SettleKeeps(db, ref, Refunded, Refund(db, ref).log);
    }
  }

  lemma WebhookSucceededKeeps(db: Db, ref: PaymentRef)
    requires Owned(db) && ref in db.payments && db.payments[ref].booking < |db.bookings|
    ensures Owned(WebhookSucceeded(db, ref).db)
  {
    var b := db.payments[ref].booking;
    match db.bookings[b].status
    case PaymentPending =>
      SettleKeeps(db, ref, Succeeded, db.log);
      var settled := SettlePayment(db, ref, Succeeded).(log := db.log);
      GuardMatchesAll(settled, b);
      TicketKeeps(settled, Put(settled.seats, Elements(db.bookings[b].seats), SoldTo(b)), b);
    case Expired => LateSuccessKeeps(db, ref);
    case _ => SettleKeeps(db, ref, Refunded, Refund(db, ref).log);
  }

  lemma WebhookFailedKeeps(db: Db, ref: PaymentRef, now: Time, ties: Ties)
    requires Owned(db) && ref in db.payments && db.payments[ref].booking < |db.bookings|
    ensures Owned(WebhookFailed(db, ref, now, ties))
  {
    var b := db.payments[ref].booking;
    var booking := db.bookings[b];
    var settled := SettlePayment(db, ref, PaymentFailed);
    SettleKeeps(db, ref, PaymentFailed, db.log);
    assert settled == settled.(log := db.log);
    if booking.status == PaymentPending {
      GuardMatchesAll(settled, b);
      assert BookingOk(db, b);
      RetireKeeps(settled, b, Failed, BookingFailed(b, booking.show));
      OfferFreedKeeps(SetStatus(FreeHeldSeats(settled, b), b, Failed, BookingFailed(b, booking.show)),
                      booking.show, booking.seats, now, ties);
    }
  }

  /** Every transaction keeps the ownership invariant. */
  lemma ApplyKeeps(db: Db, step: Step)
    requires Owned(db)
    ensures Owned(Apply(db, step))
  {
    match step
    case HoldStep(user, show, request, now) => HoldKeeps(db, user, show, request, now);
    case PayStep(b, now, ties) => if b < |db.bookings| { PayKeeps(db, b, now, ties); }
    case RecordStep(b, ref) => if b < |db.bookings| { RecordKeeps(db, b, ref); }
    case WebhookStep(ref, succeeded, now, ties) =>
      if ref in db.payments && db.payments[ref].booking < |db.bookings| && db.payments[ref].status == Pending {
        if succeeded { WebhookSucceededKeeps(db, ref); } else { WebhookFailedKeeps(db, ref, now, ties); }
      }
    case SweepStep(b, now, ties) => if b < |db.bookings| { ExpireKeeps(db, b, now, ties); }
    case CancelStep(b, now, ties) => if b < |db.bookings| { CancelKeeps(db, b, now, ties); }
    case JoinStep(user, show, section) => OwnedIgnoresWaitlistAndLog(db, Join(db, user, show, section));
    case ExpireOffersStep(now) => OwnedIgnoresWaitlistAndLog(db, ExpireStaleOffers(db, now));
  }

  /** The ownership invariant holds in every reachable state. */
  lemma {:induction false} Reachable(db: Db, steps: seq<Step>)
    requires Initial(db)
    ensures Owned(Run(db, steps))
    decreases |steps|
  {
    if steps != [] {
      Reachable(db, steps[..|steps| - 1]);
      ApplyKeeps(Run(db, steps[..|steps| - 1]), steps[|steps| - 1]);
    }
  }

  /** A booking that has a claim on its seats. */
  predicate Claims(s: BookingStatus) {
    Live(s) || s == Confirmed
  }

  /** No seat is in two bookings that claim it, in any reachable state. */
  lemma NoDoubleBooking(db: Db, steps: seq<Step>, b: BookingId, c: BookingId)
    requires Initial(db)
    requires b < |Run(db, steps).bookings| && c < |Run(db, steps).bookings| && b != c
    requires Claims(Run(db, steps).bookings[b].status) && Claims(Run(db, steps).bookings[c].status)
    ensures Elements(Run(db, steps).bookings[b].seats) !! Elements(Run(db, steps).bookings[c].seats)
  {
    Reachable(db, steps);
    var now := Run(db, steps);
    assert BookingOk(now, b) && BookingOk(now, c);
    forall s | s in now.bookings[b].seats ensures s !in now.bookings[c].seats {
      assert now.seats[s].owner == Some(b);
    }
  }

  /** Every seat is FREE, or HELD by a live booking, or SOLD to a confirmed one, or stranded;
      and the three counts add up to all seats. */
  lemma SeatCensus(db: Db, steps: seq<Step>)
    requires Initial(db)
    ensures var now := Run(db, steps);
      && |FreeSeats(now)| + |ClaimedSeats(now)| + |StrandedSeats(now)| == |db.seats|
      && FreeSeats(now) !! ClaimedSeats(now) !! StrandedSeats(now)
  {
    Reachable(db, steps);
    SeatsStay(db, steps);
    OwnedCensus(Run(db, steps));
    assert |db.seats.Keys| == |db.seats|;
  }

  lemma OwnedCover(db: Db)
    requires Owned(db)
    ensures forall s | s in db.seats :: s in FreeSeats(db) || s in ClaimedSeats(db) || s in StrandedSeats(db)
  {
    forall s | s in db.seats ensures s in FreeSeats(db) || s in ClaimedSeats(db) || s in StrandedSeats(db) {
      assert SeatOk(db, s);
    }
  }

  lemma PartsDisjoint(db: Db)
    ensures FreeSeats(db) !! ClaimedSeats(db) !! StrandedSeats(db)
  {
  }

  lemma OwnedCensus(db: Db)
    requires Owned(db)
    ensures |FreeSeats(db)| + |ClaimedSeats(db)| + |StrandedSeats(db)| == |db.seats.Keys|
    ensures FreeSeats(db) !! ClaimedSeats(db) !! StrandedSeats(db)
  {
    OwnedCover(db);
    PartsDisjoint(db);
    ThreeParts(FreeSeats(db), ClaimedSeats(db), StrandedSeats(db), db.seats.Keys);
  }

  lemma ThreeParts(a: set<SeatId>, b: set<SeatId>, c: set<SeatId>, all: set<SeatId>)
    requires a !! b !! c && a <= all && b <= all && c <= all
    requires forall s | s in all :: s in a || s in b || s in c
    ensures |a| + |b| + |c| == |all|
  {
    assert a + b + c == all;
    assert |a + b| == |a| + |b|;
  }

  function FreeSeats(db: Db): set<SeatId> {
    set s | s in db.seats && db.seats[s].status == FREE
  }

  function ClaimedSeats(db: Db): set<SeatId> {
    set s | s in db.seats && db.seats[s].status != FREE && db.seats[s].owner.Some?
      && db.seats[s].owner.value < |db.bookings| && Claims(db.bookings[db.seats[s].owner.value].status)
  }

  /** SOLD to a booking that is EXPIRED: left behind by a partial re-acquisition. */
  function StrandedSeats(db: Db): set<SeatId> {
    set s | s in db.seats && db.seats[s].status == SOLD && db.seats[s].owner.Some?
      && db.seats[s].owner.value < |db.bookings| && db.bookings[db.seats[s].owner.value].status == Expired
  }

  lemma ApplySeatsStay(db: Db, step: Step)
    ensures SameFloor(db, Apply(db, step))
  {
  }

  lemma {:induction false} SeatsStay(db: Db, steps: seq<Step>)
    ensures SameFloor(db, Run(db, steps))
    decreases |steps|
  {
    if steps != [] {
      SeatsStay(db, steps[..|steps| - 1]);
      ApplySeatsStay(Run(db, steps[..|steps| - 1]), steps[|steps| - 1]);
    }
  }

  /** The UPDATE of `cancel_booking` without an owner guard frees exactly the rows the guard would have. */
  lemma UnguardedCancelIsGuarded(db: Db, steps: seq<Step>, b: BookingId)
    requires Initial(db) && b < |Run(db, steps).bookings|
    requires Run(db, steps).bookings[b].status == Confirmed
    ensures var now := Run(db, steps);
      && Put(now.seats, Elements(now.bookings[b].seats), FREE_SEAT)
         == Put(now.seats, OwnedAmong(now.seats, now.bookings[b].seats, b), FREE_SEAT)
      && forall s | s in now.bookings[b].seats :: s in now.seats && now.seats[s] == SoldTo(b)
  {
    Reachable(db, steps);
    GuardMatchesAll(Run(db, steps), b);
    assert BookingOk(Run(db, steps), b);
  }

  /** The unchecked row count of `_confirm_booking` is always the number of the booking's seats. */
  lemma ConfirmUpdatesEverySeat(db: Db, steps: seq<Step>, b: BookingId)
    requires Initial(db) && b < |Run(db, steps).bookings|
    requires Run(db, steps).bookings[b].status == PaymentPending
    ensures var now := Run(db, steps);
      |OwnedAmong(now.seats, now.bookings[b].seats, b)| == |now.bookings[b].seats|
  {
    Reachable(db, steps);
    var now := Run(db, steps);
    GuardMatchesAll(now, b);
    assert BookingOk(now, b);
    DistinctCardinality(now.bookings[b].seats);
  }
}
