/** Transactions that make a booking give up its seats: who is offered them. */
module Releases {
  import opened Records
  import opened Waitlist
  import opened System
  import opened Ownership
  import opened RowTables
  import opened WaitlistOffers

  /** The booking's seats in one section. */
  function SeatsIn(db: Db, b: BookingId, section: SectionId): set<SeatId>
    requires b < |db.bookings|
  {
    set s | s in db.bookings[b].seats && s in db.catalog && db.catalog[s].section == section
  }

  function FreeOf(db: Db, ids: set<SeatId>): set<SeatId> {
    set s | s in ids && s in db.seats && db.seats[s].status == FREE
  }

  lemma AllFreedIn(db: Db, step: Step, b: BookingId, section: SectionId)
    requires Owned(db) && GivesUp(db, step, b)
    ensures FreeIn(Freed(db, step, b), section, db.bookings[b].seats) == SeatsIn(db, b, section)
  {
    assert BookingOk(db, b);
  }

  /** A failed delivery, a sweep, a payment after the deadline or a cancellation that makes a booking give up its seats:
      with k of them in a section that w entries wait for, exactly min(k, w) are offered, to entries no later in
      position than any left waiting; a seat stays FREE only when nobody waits for its section any more. */
  lemma GivenUpSeatsGoToTheFirst(db: Db, step: Step, b: BookingId, section: SectionId)
    requires Owned(db) && GivesUp(db, step, b)
    ensures var after := Apply(db, step);
      var seats := SeatsIn(db, b, section);
      var w := Waiters(db.waitlist, db.bookings[b].show, section);
      var left := Waiters(after.waitlist, db.bookings[b].show, section);
      && left <= w && |w - left| == Min(|seats|, |w|)
      && (forall i, j | i in w - left && j in left :: db.waitlist[i].position <= db.waitlist[j].position)
      && |FreeOf(after, seats)| == |seats| - Min(|seats|, |w|)
      && (FreeOf(after, seats) != {} ==> left == {})
  {
    var booking := db.bookings[b];
    var freed := Freed(db, step, b);
    GivingUpFreesAndOffers(db, step, b);
    AllFreedIn(db, step, b, section);
    FreedSeatsGoToTheFirst(freed, booking.show, section, booking.seats, Clock(step), TiesOf(step));
    OffersGoToTheFirst(freed, booking.show, section, booking.seats, booking.seats, Clock(step), TiesOf(step));
    StillFree(db, step, b, section);
  }

  lemma StillFree(db: Db, step: Step, b: BookingId, section: SectionId)
    requires Owned(db) && GivesUp(db, step, b)
    ensures FreeIn(Apply(db, step), section, db.bookings[b].seats) == FreeOf(Apply(db, step), SeatsIn(db, b, section))
  {
    ApplySeatsStay(db, step);
    assert BookingOk(db, b);
  }

  /** All entries that wait, whatever for. */
  function AllWaiting(w: seq<Entry>): set<EntryId> {
    set i: EntryId | i < |w| && w[i].status == Waiting
  }

  lemma OfferMakesOne(db: Db, show: ShowId, s: SeatId, now: Time, ties: Ties)
    ensures var one := OfferOne(db, show, s, now, ties);
      |one.bookings| + |AllWaiting(one.waitlist)| == |db.bookings| + |AllWaiting(db.waitlist)|
  {
    if Known(db, s) && db.seats[s].status == FREE {
      var next := NextWaiter(db.waitlist, show, db.catalog[s].section, Hint(ties, s));
      if next.Some? {
        var one := OfferOne(db, show, s, now, ties);
        assert AllWaiting(one.waitlist) == AllWaiting(db.waitlist) - {next.value};
      }
    }
  }

  lemma {:induction false} OffersMakeBookings(db: Db, show: ShowId, ids: seq<SeatId>, now: Time, ties: Ties)
    ensures var after := OfferFreed(db, show, ids, now, ties);
      |after.bookings| + |AllWaiting(after.waitlist)| == |db.bookings| + |AllWaiting(db.waitlist)|
    decreases |ids|
  {
    if ids != [] {
      OfferMakesOne(db, show, ids[0], now, ties);
      OffersMakeBookings(OfferOne(db, show, ids[0], now, ties), show, ids[1..], now, ties);
    }
  }

  /** Such a transaction creates one booking for each entry that stops waiting, and no other transaction but a hold
      creates any. */
  lemma NewBookingsAreOffers(db: Db, step: Step)
    requires Owned(db) && !step.HoldStep?
    ensures var after := Apply(db, step);
      if Subject(db, step).Some? && GivesUp(db, step, Subject(db, step).value) then
        |after.bookings| + |AllWaiting(after.waitlist)| == |db.bookings| + |AllWaiting(db.waitlist)|
      else |after.bookings| == |db.bookings|
  {
    if Subject(db, step).None? {
      OthersCreateNone(db, step);
    } else {
      var b := Subject(db, step).value;
      if GivesUp(db, step, b) {
        GivingUpFreesAndOffers(db, step, b);
        OffersMakeBookings(Freed(db, step, b), db.bookings[b].show, db.bookings[b].seats, Clock(step), TiesOf(step));
      } else if step.WebhookStep? {
        if step.succeeded { SuccessIs(db, step); } else { IdleFailureIs(db, step); }
      } else if StartsPaying(db, step, b) {
        PayStartIs(db, step, b);
      } else {
        RefusedIs(db, step);
      }
    }
  }

  lemma OthersCreateNone(db: Db, step: Step)
    requires Subject(db, step).None? && !step.HoldStep?
    ensures Apply(db, step).bookings == db.bookings
  {
  }
}
