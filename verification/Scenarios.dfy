/** Steps that the example runs share: what each does to a database that is ready for it. */
module Scenarios {
  import opened Commons
  import opened Records
  import opened Waitlist
  import opened Holds
  import opened Bookings
  import opened System

  lemma RunThree(db: Db, steps: seq<Step>)
    requires |steps| == 3
    ensures Run(db, steps) == Apply(Apply(Apply(db, steps[0]), steps[1]), steps[2])
  {
    assert steps[..2][..1] == steps[..1] && steps[..1][..0] == [];
    assert Run(db, steps[..1]) == Apply(db, steps[0]);
    assert Run(db, steps[..2]) == Apply(Run(db, steps[..1]), steps[1]);
  }

  lemma RunAppend(db: Db, steps: seq<Step>, step: Step)
    ensures Run(db, steps + [step]) == Apply(Run(db, steps), step)
  {
    assert (steps + [step])[..|steps|] == steps;
  }

  lemma RunsMeet(db: Db, other: Db, steps: seq<Step>, others: seq<Step>)
    requires steps != [] && others != [] && steps[|steps| - 1] == others[|others| - 1]
    requires Run(db, steps[..|steps| - 1]) == Run(other, others[..|others| - 1])
    ensures Run(db, steps) == Run(other, others)
  {
  }

  lemma {:induction false} RunFrom(db: Db, front: seq<Step>, back: seq<Step>, middle: Db, all: seq<Step>)
    requires middle == Run(db, front) && all == front + back
    ensures Run(db, all) == Run(middle, back)
    decreases |back|
  {
    if back == [] {
      assert all == front;
    } else {
      RunFrom(db, front, back[..|back| - 1], middle, all[..|all| - 1]);
      RunsMeet(db, middle, all, back);
    }
  }

  lemma RunConcat(db: Db, front: seq<Step>, back: seq<Step>)
    ensures Run(db, front + back) == Run(Run(db, front), back)
  {
    RunFrom(db, front, back, Run(db, front), front + back);
  }

  lemma RunOne(db: Db, steps: seq<Step>)
    requires |steps| == 1
    ensures Run(db, steps) == Apply(db, steps[0])
  {
    assert steps[..0] == [];
  }

  lemma RunTwo(db: Db, steps: seq<Step>)
    requires |steps| == 2
    ensures Run(db, steps) == Apply(Apply(db, steps[0]), steps[1])
  {
    RunOne(db, steps[..1]);
  }

  /** The first hold of a seeded database. */
  lemma HoldOnSeeded(db: Db, u: UserId, show: ShowId, ids: seq<SeatId>, now: Time)
    requires Initial(db) && show in db.shows && ids != [] && IsAscending(ids)
    requires forall s | s in ids :: s in db.catalog && db.catalog[s].show == show
    ensures var held := CreateHold(db, u, show, ids, now).db;
      && SameFloor(db, held) && held.waitlist == []
      && (forall s | s in ids :: Known(held, s) && held.seats[s].owner == Some(0))
      && |held.bookings| == 1 && held.bookings[0].status == Held && held.bookings[0].seats == ids
      && held.bookings[0].show == show && held.bookings[0].expiresAt == now + HOLD_TTL_SECONDS && held.payments == map[]
  {
    HoldSucceeds(db, u, show, ids, now);
  }

  /** With nobody waiting, freed seats stay free. */
  lemma {:induction false} NobodyWaits(db: Db, show: ShowId, ids: seq<SeatId>, now: Time, ties: Ties)
    requires db.waitlist == []
    ensures OfferFreed(db, show, ids, now, ties) == db
    decreases |ids|
  {
    if ids != [] {
      NobodyWaits(db, show, ids[1..], now, ties);
    }
  }

  lemma CancelHeld(db: Db, b: BookingId, now: Time, ties: Ties)
    requires b < |db.bookings| && db.bookings[b].status == Held
    ensures Apply(db, CancelStep(b, now, ties))
      == OfferFreed(ReleaseHold(db, b, false), db.bookings[b].show, db.bookings[b].seats, now, ties)
  {
  }

  /** Starting to pay in time, and recording the payment. */
  lemma PayAndRecord(db: Db, b: BookingId, now: Time, ref: PaymentRef)
    requires b < |db.bookings| && db.bookings[b].status == Held && now <= db.bookings[b].expiresAt &&
      ref !in db.payments
    ensures Apply(Apply(db, PayStep(b, now, map[])), RecordStep(b, ref))
      == db.(bookings := db.bookings[b := db.bookings[b].(status := PaymentPending)],
             payments := db.payments[ref := Payment(b, Pending, db.bookings[b].total)],
             log := db.log + [BookingPaymentPending(b)])
  {
    var paying := SetStatus(db, b, PaymentPending, BookingPaymentPending(b));
    assert Apply(db, PayStep(b, now, map[])) == paying;
    assert Apply(paying, RecordStep(b, ref)) == RecordPayment(paying, b, ref);
  }

  /** The first successful delivery in time. */
  lemma SuccessConfirms(db: Db, ref: PaymentRef, now: Time)
    requires ref in db.payments && db.payments[ref].status == Pending && db.payments[ref].booking < |db.bookings|
    requires db.bookings[db.payments[ref].booking].status == PaymentPending
    ensures var b := db.payments[ref].booking;
      var after := Apply(db, WebhookStep(ref, true, now, map[]));
      && after.bookings == db.bookings[b := db.bookings[b].(status := Confirmed, ticketed := true)]
      && after.waitlist == MarkClaimed(db.waitlist, Elements(db.bookings[b].seats))
  {
    assert Apply(db, WebhookStep(ref, true, now, map[])) == WebhookSucceeded(db, ref).db;
  }

  /** A FREE seat goes to the one waiter with the least position. */
  lemma OfferGoesTo(db: Db, show: ShowId, section: SectionId, s: SeatId, e: EntryId, now: Time, ties: Ties)
    requires Known(db, s) && db.catalog[s].section == section && db.seats[s].status == FREE
    requires e < |db.waitlist| && WaitingFor(db.waitlist[e], show, section)
    requires forall j | 0 <= j < |db.waitlist| && j != e && WaitingFor(db.waitlist[j], show, section) ::
      db.waitlist[e].position < db.waitlist[j].position
    ensures OfferOne(db, show, s, now, ties) == Offer(db, show, s, e, now)
  {
    assert e in Waiters(db.waitlist, show, section);
    var next := NextWaiter(db.waitlist, show, section, Hint(ties, s));
    assert next.Some? && IsNext(db.waitlist, show, section, next.value);
  }
}
