/** Payments that succeed after their hold expired. */
module LateSuccess {
  import opened Commons
  import opened Records
  import opened Waitlist
  import opened Holds
  import opened Bookings
  import opened Expiry
  import opened System
  import opened Ownership
  import opened Scenarios

  /** A delivery of success, still unprocessed, for an EXPIRED booking. */
  predicate IsLateSuccess(db: Db, step: Step) {
    && step.WebhookStep? && step.succeeded
    && step.ref in db.payments && db.payments[step.ref].status == Pending
    && db.payments[step.ref].booking < |db.bookings|
    && db.bookings[db.payments[step.ref].booking].status == Expired
  }

  /** The exact result of a late success. With `n` the number of leading FREE seats in id order:
      all FREE sells every seat and tickets the booking; otherwise exactly the first `n` seats are sold
      to the booking, which stays EXPIRED with its payment refunded. Nothing else moves either way. */
  lemma LateSuccessExactly(db: Db, step: Step)
    requires Owned(db) && IsLateSuccess(db, step)
    ensures var p := db.payments[step.ref];
      var booking := db.bookings[p.booking];
      var n := FreePrefix(db.seats, booking.seats);
      var after := Apply(db, step);
      && after.seats == Put(db.seats, Elements(booking.seats[..n]), SoldTo(p.booking))
      && (n == |booking.seats| ==>
           && after.bookings == db.bookings[p.booking := booking.(status := Confirmed, ticketed := true)]
           && after.payments == db.payments[step.ref := p.(status := Succeeded)]
           && (forall s | s in booking.seats :: s in after.seats && after.seats[s] == SoldTo(p.booking)))
      && (n < |booking.seats| ==>
           && after.bookings == db.bookings && after.waitlist == db.waitlist
           && after.payments == db.payments[step.ref := p.(status := Refunded)]
           && after.log == db.log + [PaymentRefunded(step.ref, p.booking)])
  {
    var b := db.payments[step.ref].booking;
    LateStepConcludes(db, step);
    if AllFree(db, b) {
      AllFreeSoldWhole(db, b);
    }
  }

  lemma LateStepConcludes(db: Db, step: Step)
    requires Owned(db) && IsLateSuccess(db, step)
    ensures var b := db.payments[step.ref].booking;
      Apply(db, step) == Conclude(PrefixSold(db, b), step.ref, AllFree(db, b)).db
  {
    assert BookingOk(db, db.payments[step.ref].booking);
    LateOutcome(db, step.ref);
    LateDelivery(db, step);
  }

  lemma LateDelivery(db: Db, step: Step)
    requires IsLateSuccess(db, step)
    ensures Apply(db, step) == SucceedLate(db, step.ref).db
  {
  }

  /** The seats a step strands: the FREE prefix of a late success that does not get every seat. */
  function NewlyStranded(db: Db, step: Step): set<SeatId> {
    if IsLateSuccess(db, step) then PartlySold(db, step.ref) else {}
  }

  function PartlySold(db: Db, ref: PaymentRef): set<SeatId>
    requires ref in db.payments && db.payments[ref].booking < |db.bookings|
  {
    var seats := db.bookings[db.payments[ref].booking].seats;
    var n := FreePrefix(db.seats, seats);
    if n < |seats| then Elements(seats[..n]) else {}
  }

  /** From `before` to `after`, exactly the seats `extra` become stranded, and stranded rows keep their owner. */
  ghost predicate Strands(before: Db, after: Db, extra: set<SeatId>) {
    && StrandedSeats(after) == StrandedSeats(before) + extra
    && forall s | s in StrandedSeats(before) :: s in after.seats && after.seats[s] == before.seats[s]
  }

  lemma OfferFreedStrandsNothing(db: Db, show: ShowId, ids: seq<SeatId>, now: Time, ties: Ties)
    requires Owned(db)
    ensures Strands(db, OfferFreed(db, show, ids, now, ties), {})
  {
    OfferFreedFrame(db, show, ids, now, ties);
    var after := OfferFreed(db, show, ids, now, ties);
    forall s ensures s in StrandedSeats(after) <==> s in StrandedSeats(db) {
      if s in db.seats {
        assert SeatOk(db, s);
      }
    }
  }

  /** Retiring a booking that holds or owns all its seats strands nothing: they are freed first. */
  lemma RetireStrandsNothing(db: Db, b: BookingId, status: BookingStatus, event: Event)
    requires Owned(db) && b < |db.bookings|
    requires Live(db.bookings[b].status) || db.bookings[b].status == Confirmed
    ensures var freed := db.(seats := Put(db.seats, Elements(db.bookings[b].seats), FREE_SEAT));
      Strands(db, SetStatus(freed, b, status, event), {})
  {
    var after := SetStatus(db.(seats := Put(db.seats, Elements(db.bookings[b].seats), FREE_SEAT)), b, status, event);
    assert BookingOk(db, b);
    forall s ensures s in StrandedSeats(after) <==> s in StrandedSeats(db) {
      if s in db.seats {
        assert SeatOk(db, s);
      }
    }
  }

  lemma ExpireStrandsNothing(db: Db, b: BookingId, now: Time, ties: Ties)
    requires Owned(db) && b < |db.bookings|
    ensures Strands(db, ExpireBooking(db, b, now, ties), {})
  {
    if Live(db.bookings[b].status) {
      var booking := db.bookings[b];
      GuardMatchesAll(db, b);
      assert BookingOk(db, b);
      RetireKeeps(db, b, Expired, BookingExpired(b, booking.show));
      RetireStrandsNothing(db, b, Expired, BookingExpired(b, booking.show));
      OfferFreedStrandsNothing(ReleaseHold(db, b, true), booking.show, booking.seats, now, ties);
    }
  }

  lemma CancelStrandsNothing(db: Db, b: BookingId, now: Time, ties: Ties)
    requires Owned(db) && b < |db.bookings|
    ensures Strands(db, CancelBooking(db, b, now, ties).db, {})
  {
    var booking := db.bookings[b];
    var event := BookingCancelled(b, booking.show);
    if booking.status == Confirmed || booking.status == Held {
      assert BookingOk(db, b);
      GuardMatchesAll(db, b);
      RetireKeeps(db, b, Cancelled, event);
      RetireStrandsNothing(db, b, Cancelled, event);
      var freed := db.(seats := Put(db.seats, Elements(booking.seats), FREE_SEAT));
      OfferFreedStrandsNothing(SetStatus(freed, b, Cancelled, event), booking.show, booking.seats, now, ties);
    }
  }

  lemma FailureStrandsNothing(db: Db, ref: PaymentRef, now: Time, ties: Ties)
    requires Owned(db) && ref in db.payments && db.payments[ref].booking < |db.bookings|
    ensures Strands(db, WebhookFailed(db, ref, now, ties), {})
  {
    var b := db.payments[ref].booking;
    var booking := db.bookings[b];
    if booking.status == PaymentPending {
      var settled := SettlePayment(db, ref, PaymentFailed);
      SettleKeeps(db, ref, PaymentFailed, db.log);
      assert settled == settled.(log := db.log);
      assert BookingOk(db, b);
      GuardMatchesAll(settled, b);
      var event := BookingFailed(b, booking.show);
      RetireKeeps(settled, b, Failed, event);
      RetireStrandsNothing(settled, b, Failed, event);
      var failed := SetStatus(FreeHeldSeats(settled, b), b, Failed, event);
      OfferFreedStrandsNothing(failed, booking.show, booking.seats, now, ties);
    }
  }

  lemma SellStrands(db: Db, b: BookingId, n: nat)
    requires Owned(db) && b < |db.bookings| && db.bookings[b].status == Expired
    requires n <= FreePrefix(db.seats, db.bookings[b].seats)
    ensures var ids := Elements(db.bookings[b].seats[..n]);
      Strands(db, db.(seats := Put(db.seats, ids, SoldTo(b))), ids)
  {
  }

  /** A late success strands the seats it sold, unless it sold them all and the booking is confirmed. */
  lemma LateStrandsExactly(db: Db, ref: PaymentRef)
    requires Owned(db) && ref in db.payments && db.payments[ref].booking < |db.bookings|
    requires db.bookings[db.payments[ref].booking].status == Expired
    ensures Strands(db, SucceedLate(db, ref).db, PartlySold(db, ref))
  {
    var b := db.payments[ref].booking;
    assert BookingOk(db, b);
    LateOutcome(db, ref);
    if AllFree(db, b) {
      AllFreeSoldWhole(db, b);
      TicketUnstrands(db, PrefixSold(db, b), ref, b);
    } else {
      SellStrands(db, b, FreePrefix(db.seats, db.bookings[b].seats));
      RefundStrandsNothing(PrefixSold(db, b), ref);
    }
  }

  lemma RefundStrandsNothing(db: Db, ref: PaymentRef)
    requires ref in db.payments
    ensures StrandedSeats(Refund(db, ref)) == StrandedSeats(db) && Refund(db, ref).seats == db.seats
  {
  }

  lemma TicketUnstrands(db: Db, sold: Db, ref: PaymentRef, b: BookingId)
    requires Owned(db) && ref in db.payments && b < |db.bookings| && db.bookings[b].status == Expired
    requires forall s | s in db.bookings[b].seats :: s in db.seats && db.seats[s].status == FREE
    requires sold == db.(seats := Put(db.seats, Elements(db.bookings[b].seats), SoldTo(b)))
    ensures Strands(db, Ticket(SettlePayment(sold, ref, Succeeded), b), {})
  {
    var after := Ticket(SettlePayment(sold, ref, Succeeded), b);
    forall s ensures s in StrandedSeats(after) <==> s in StrandedSeats(db) {
      if s in db.seats {
        assert SeatOk(db, s);
      }
    }
  }

  lemma ConfirmStrandsNothing(db: Db, ref: PaymentRef, b: BookingId)
    requires Owned(db) && ref in db.payments && b < |db.bookings| && db.bookings[b].status == PaymentPending
    ensures Strands(db, Confirm(SettlePayment(db, ref, Succeeded), b, false), {})
  {
    var after := Confirm(SettlePayment(db, ref, Succeeded), b, false);
    assert BookingOk(db, b);
    forall s ensures s in StrandedSeats(after) <==> s in StrandedSeats(db) {
      if s in db.seats {
        assert SeatOk(db, s);
      }
    }
  }

  lemma CommitStrandsNothing(db: Db, user: UserId, show: ShowId, rows: seq<SeatId>, now: Time)
    requires Owned(db)
    requires forall s | s in rows :: s in db.catalog
    requires forall s | s in rows :: s in db.seats && db.seats[s].status == FREE
    ensures Strands(db, CommitHold(db, user, show, rows, now), {})
  {
    var after := CommitHold(db, user, show, rows, now);
    forall s ensures s in StrandedSeats(after) <==> s in StrandedSeats(db) {
      if s in db.seats {
        assert SeatOk(db, s);
      }
    }
  }

  lemma HoldStrandsNothing(db: Db, user: UserId, show: ShowId, request: seq<SeatId>, now: Time)
    requires Owned(db)
    ensures Strands(db, CreateHold(db, user, show, request, now).db, {})
  {
    var result := CreateHold(db, user, show, request, now);
    if result.outcome.HoldCreated? {
      var rows := RequestedRows(db, show, request);
      forall s | s in rows ensures db.seats[s].status == FREE {
        assert s !in NotFree(db.seats, rows);
      }
      CommitStrandsNothing(db, user, show, rows, now);
    }
  }

  lemma SuccessStrandsExactly(db: Db, ref: PaymentRef)
    requires Owned(db) && ref in db.payments && db.payments[ref].booking < |db.bookings|
    ensures Strands(db, WebhookSucceeded(db, ref).db,
      if db.bookings[db.payments[ref].booking].status == Expired then PartlySold(db, ref) else {})
  {
    match db.bookings[db.payments[ref].booking].status
    case Expired => LateStrandsExactly(db, ref);
    case PaymentPending => ConfirmStrandsNothing(db, ref, db.payments[ref].booking);
    case _ => RefundStrandsNothing(db, ref);
  }

  lemma WebhookStrandsExactly(db: Db, step: Step)
    requires Owned(db) && step.WebhookStep?
    requires step.ref in db.payments && db.payments[step.ref].booking < |db.bookings|
    ensures Strands(db, HandleWebhook(db, step.ref, step.succeeded, step.now, step.ties).db, NewlyStranded(db, step))
  {
    if db.payments[step.ref].status == Pending {
      if step.succeeded {
        SuccessStrandsExactly(db, step.ref);
      } else {
        FailureStrandsNothing(db, step.ref, step.now, step.ties);
      }
    }
  }

  lemma PayStrandsNothing(db: Db, b: BookingId, now: Time, ties: Ties)
    requires Owned(db) && b < |db.bookings|
    ensures Strands(db, InitiatePayment(db, b, now, ties).db, {})
  {
    if db.bookings[b].expiresAt < now {
      ExpireStrandsNothing(db, b, now, ties);
    } else {
      var after := InitiatePayment(db, b, now, ties).db;
      assert BookingOk(db, b);
      forall s ensures s in StrandedSeats(after) <==> s in StrandedSeats(db) {
      }
    }
  }

  /** Every transaction leaves all stranded seats stranded, and only a partial late success adds any. */
  lemma StrandsExactly(db: Db, step: Step)
    requires Owned(db)
    ensures Strands(db, Apply(db, step), NewlyStranded(db, step))
  {
    if step.WebhookStep? {
      if step.ref in db.payments && db.payments[step.ref].booking < |db.bookings| {
        WebhookStrandsExactly(db, step);
      }
    } else {
      OtherStepsStrandNothing(db, step);
    }
  }

  lemma OtherStepsStrandNothing(db: Db, step: Step)
    requires Owned(db) && !step.WebhookStep?
    ensures Strands(db, Apply(db, step), {})
  {
    match step
    case HoldStep(user, show, request, now) => HoldStrandsNothing(db, user, show, request, now);
    case PayStep(b, now, ties) => if b < |db.bookings| { PayStrandsNothing(db, b, now, ties); }
    case RecordStep(b, ref) =>
    case SweepStep(b, now, ties) => if b < |db.bookings| { ExpireStrandsNothing(db, b, now, ties); }
    case CancelStep(b, now, ties) => if b < |db.bookings| { CancelStrandsNothing(db, b, now, ties); }
    case JoinStep(user, show, section) =>
    case ExpireOffersStep(now) =>
  }

  /** A late success is all-or-nothing exactly when its first seat is taken or all its seats are FREE. */
  lemma AllOrNothingIff(db: Db, step: Step)
    requires Owned(db) && IsLateSuccess(db, step)
    ensures var seats := db.bookings[db.payments[step.ref].booking].seats;
      && seats != [] && (forall s | s in seats :: s in db.seats)
      && (StrandedSeats(Apply(db, step)) == StrandedSeats(db) <==>
           db.seats[seats[0]].status != FREE || forall s | s in seats :: db.seats[s].status == FREE)
  {
    var b := db.payments[step.ref].booking;
    var seats := db.bookings[b].seats;
    var n := FreePrefix(db.seats, seats);
    assert BookingOk(db, b);
    assert seats[0] in seats;
    StrandsExactly(db, step);
    if 0 < n < |seats| {
      assert seats[..n][0] in seats[..n];
      assert seats[0] in NewlyStranded(db, step) && seats[0] !in StrandedSeats(db);
      assert seats[n] in seats;
    } else if n == |seats| {
      assert forall s | s in seats :: db.seats[s].status == FREE;
    }
  }

  /** A one-seat booking is always sold whole or not at all. */
  lemma OneSeatIsAllOrNothing(db: Db, step: Step)
    requires Owned(db) && IsLateSuccess(db, step)
    requires |db.bookings[db.payments[step.ref].booking].seats| == 1
    ensures StrandedSeats(Apply(db, step)) == StrandedSeats(db)
  {
    var seats := db.bookings[db.payments[step.ref].booking].seats;
    StrandsExactly(db, step);
    assert FreePrefix(db.seats, seats) < 1 ==> seats[..FreePrefix(db.seats, seats)] == [];
  }

  /** A stranded seat never changes again, and the booking it is sold to is never confirmed. */
  lemma {:induction false} StrandedForever(db: Db, steps: seq<Step>, s: SeatId)
    requires Owned(db) && s in StrandedSeats(db)
    ensures Owned(Run(db, steps)) && s in StrandedSeats(Run(db, steps))
    ensures Run(db, steps).seats[s] == db.seats[s]
    ensures Run(db, steps).bookings[db.seats[s].owner.value].status == Expired
    decreases |steps|
  {
    if steps == [] {
      assert SeatOk(db, s);
    } else {
      var before := Run(db, steps[..|steps| - 1]);
      var last := steps[|steps| - 1];
      StrandedForever(db, steps[..|steps| - 1], s);
      StrandsExactly(before, last);
      ApplyKeeps(before, last);
    }
  }

  /** A booking of `seats` that has been paid for but not settled, as the hold lapses. */
  lemma LapseFreesAll(db: Db, b: BookingId, now: Time, ties: Ties)
    requires Owned(db) && b < |db.bookings| && db.waitlist == []
    requires OverdueAt(db.bookings[b], now)
    ensures var after := Apply(db, SweepStep(b, now, ties));
      && after.bookings == db.bookings[b := db.bookings[b].(status := Expired)]
      && after.payments == db.payments && after.waitlist == []
      && (forall s | s in db.bookings[b].seats :: s in after.seats && after.seats[s] == FREE_SEAT)
  {
    GuardMatchesAll(db, b);
    assert BookingOk(db, b);
    NobodyWaits(ReleaseHold(db, b, true), db.bookings[b].show, db.bookings[b].seats, now, ties);
  }

  /** Hold seats `a` and `c`, start paying, let the hold lapse, lose `c` to another hold, then succeed. */
  function PartialRun(
      u: UserId, v: UserId, show: ShowId, a: SeatId, c: SeatId, start: Time, later: Time, ref: PaymentRef): seq<Step> {
    HoldRun(u, show, [a, c], start) + PayRun(start, ref) + LateRun(v, show, c, later, ref)
  }

  function HoldRun(u: UserId, show: ShowId, seats: seq<SeatId>, start: Time): seq<Step> {
    [HoldStep(u, show, seats, start)]
  }

  function PayRun(start: Time, ref: PaymentRef): seq<Step> {
    [PayStep(0, start, map[]), RecordStep(0, ref)]
  }

  function LateRun(v: UserId, show: ShowId, c: SeatId, later: Time, ref: PaymentRef): seq<Step> {
    [SweepStep(0, later, map[]), HoldStep(v, show, [c], later), WebhookStep(ref, true, later, map[])]
  }

  /** One booking of `seats`, with a payment that is not settled. */
  ghost predicate Unsettled(db: Db, seats: seq<SeatId>, deadline: Time, ref: PaymentRef) {
    && |db.bookings| == 1 && db.bookings[0].seats == seats && db.waitlist == []
    && db.bookings[0].status == PaymentPending && db.bookings[0].expiresAt == deadline
    && ref in db.payments && db.payments[ref].booking == 0 && db.payments[ref].status == Pending
  }

  lemma PayOnHold(db: Db, steps: seq<Step>, start: Time, ref: PaymentRef)
    requires steps == [PayStep(0, start, map[]), RecordStep(0, ref)]
    requires |db.bookings| == 1 && db.bookings[0].status == Held && start <= db.bookings[0].expiresAt
    requires db.waitlist == [] && db.payments == map[]
    ensures Unsettled(Run(db, steps), db.bookings[0].seats, db.bookings[0].expiresAt, ref)
  {
    RunTwo(db, steps);
    PayAndRecord(db, 0, start, ref);
  }

  lemma HoldAndPay(db: Db, u: UserId, show: ShowId, seats: seq<SeatId>, start: Time, ref: PaymentRef)
    requires Initial(db) && show in db.shows && seats != [] && IsAscending(seats)
    requires forall s | s in seats :: s in db.catalog && db.catalog[s].show == show
    ensures var steps := HoldRun(u, show, seats, start) + PayRun(start, ref);
      Unsettled(Run(db, steps), seats, start + HOLD_TTL_SECONDS, ref)
  {
    HoldOnSeeded(db, u, show, seats, start);
    RunOne(db, HoldRun(u, show, seats, start));
    RunConcat(db, HoldRun(u, show, seats, start), PayRun(start, ref));
    PayOnHold(Run(db, HoldRun(u, show, seats, start)), PayRun(start, ref), start, ref);
  }

  /** The promise that every SOLD seat has a confirmed booking behind it fails in a reachable state
      of any database with two seats: this run strands `a`. */
  lemma SoldWithoutConfirmedBooking(
      db: Db, u: UserId, v: UserId, show: ShowId, a: SeatId, c: SeatId, start: Time, later: Time, ref: PaymentRef)
    requires Initial(db) && show in db.shows && a < c
    requires a in db.catalog && c in db.catalog && db.catalog[a].show == show && db.catalog[c].show == show
    requires start + HOLD_TTL_SECONDS < later
    ensures a in StrandedSeats(Run(db, PartialRun(u, v, show, a, c, start, later, ref)))
  {
    var front := HoldRun(u, show, [a, c], start) + PayRun(start, ref);
    var back := LateRun(v, show, c, later, ref);
    HoldAndPay(db, u, show, [a, c], start, ref);
    Reachable(db, front);
    SeatsStay(db, front);
    LapseRetakeSucceed(Run(db, front), v, show, a, c, start + HOLD_TTL_SECONDS, later, ref, back);
    RunConcat(db, front, back);
  }

  lemma LapseRetakeSucceed(
      db: Db, v: UserId, show: ShowId, a: SeatId, c: SeatId, deadline: Time, later: Time, ref: PaymentRef,
      steps: seq<Step>)
    requires Owned(db) && show in db.shows && a < c && a in db.catalog && c in db.catalog
    requires db.catalog[a].show == show && db.catalog[c].show == show
    requires Unsettled(db, [a, c], deadline, ref) && deadline < later
    requires steps == LateRun(v, show, c, later, ref)
    ensures a in StrandedSeats(Run(db, steps))
  {
    RunThree(db, steps);
    var sweep := SweepStep(0, later, map[]);
    LapseFreesAll(db, 0, later, map[]);
    ApplyKeeps(db, sweep);
    ApplySeatsStay(db, sweep);
    RetakeAndSucceed(Apply(db, sweep), v, show, a, c, later, ref);
  }

  lemma PrefixOfTwo(seats: map<SeatId, SeatState>, a: SeatId, c: SeatId)
    requires a in seats && c in seats && seats[a].status == FREE && seats[c].status != FREE
    ensures FreePrefix(seats, [a, c]) == 1
  {
    assert [a, c][1..] == [c];
    assert FreePrefix(seats, [c]) == 0;
  }

  lemma SuccessStrandsFirst(db: Db, a: SeatId, c: SeatId, later: Time, ref: PaymentRef)
    requires Owned(db) && a in db.seats && c in db.seats
    requires db.seats[a].status == FREE && db.seats[c].status != FREE
    requires |db.bookings| > 0 && db.bookings[0].seats == [a, c] && db.bookings[0].status == Expired
    requires ref in db.payments && db.payments[ref].booking == 0 && db.payments[ref].status == Pending
    ensures a in StrandedSeats(Apply(db, WebhookStep(ref, true, later, map[])))
  {
    var success := WebhookStep(ref, true, later, map[]);
    PrefixOfTwo(db.seats, a, c);
    assert [a, c][..1] == [a];
    assert a in PartlySold(db, ref);
    assert IsLateSuccess(db, success);
    StrandsExactly(db, success);
  }

  lemma RetakeAndSucceed(db: Db, v: UserId, show: ShowId, a: SeatId, c: SeatId, later: Time, ref: PaymentRef)
    requires Owned(db) && show in db.shows && a < c
    requires a in db.seats && c in db.seats && db.seats[a] == FREE_SEAT && db.seats[c] == FREE_SEAT
    requires db.catalog[c].show == show
    requires |db.bookings| == 1 && db.bookings[0].seats == [a, c] && db.bookings[0].status == Expired
    requires ref in db.payments && db.payments[ref].booking == 0 && db.payments[ref].status == Pending
    ensures a in StrandedSeats(Apply(Apply(db, HoldStep(v, show, [c], later)), WebhookStep(ref, true, later, map[])))
  {
    var hold := HoldStep(v, show, [c], later);
    HoldSucceeds(db, v, show, [c], later);
    ApplyKeeps(db, hold);
    assert c in Elements([c]) && a !in Elements([c]);
    SuccessStrandsFirst(Apply(db, hold), a, c, later, ref);
  }
}
