/** Paying in time, and what happens otherwise. */
module Deadlines {
  import opened Commons
  import opened Records
  import opened Waitlist
  import opened Bookings
  import opened System
  import opened Ownership
  import opened RowTables
  import opened Scenarios

  /** Payment starts exactly for a HELD booking whose deadline has not passed. After the deadline it is refused, and a
      booking that was still live is EXPIRED by this very call and owns no seat any more. */
  lemma PaymentStartsIff(db: Db, b: BookingId, now: Time, ties: Ties)
    requires Owned(db) && b < |db.bookings|
    ensures var r := InitiatePayment(db, b, now, ties);
      var booking := db.bookings[b];
      && (r.outcome == PaymentStarted <==> booking.status == Held && now <= booking.expiresAt)
      && (r.outcome == HoldAlreadyExpired <==> booking.expiresAt < now)
      && (r.outcome == PaymentStarted ==>
           r.db == db.(bookings := db.bookings[b := booking.(status := PaymentPending)],
                       log := db.log + [BookingPaymentPending(b)]))
      && (r.outcome == PayRejected ==> r.db == db)
      && (r.outcome == HoldAlreadyExpired && !Live(booking.status) ==> r.db == db)
      && (r.outcome == HoldAlreadyExpired && Live(booking.status) ==>
           && b < |r.db.bookings| && r.db.bookings[b] == booking.(status := Expired)
           && forall s | s in r.db.seats :: r.db.seats[s].owner != Some(b))
  {
    if db.bookings[b].expiresAt < now && Live(db.bookings[b].status) {
      var step := PayStep(b, now, ties);
      BookingIs(db, step, b);
      ExpiredOwnsNothing(db, step, b);
    }
  }

  /** A booking that a transaction makes give up its seats owns none afterwards. */
  lemma ExpiredOwnsNothing(db: Db, step: Step, b: BookingId)
    requires Owned(db) && GivesUp(db, step, b)
    ensures forall s | s in Apply(db, step).seats :: Apply(db, step).seats[s].owner != Some(b)
  {
    ApplySeatsStay(db, step);
    forall s | s in Apply(db, step).seats ensures Apply(db, step).seats[s].owner != Some(b) {
      SeatIs(db, step, s);
      assert SeatOk(db, s);
    }
  }

  /** The step reads the clock. */
  predicate Timed(step: Step) {
    !step.RecordStep? && !step.JoinStep?
  }

  /** The clock does not run backwards. */
  predicate InClockOrder(steps: seq<Step>) {
    forall i, j | 0 <= i < j < |steps| && Timed(steps[i]) && Timed(steps[j]) :: Clock(steps[i]) <= Clock(steps[j])
  }

  /** Some step of the run was made after the deadline. */
  predicate Past(steps: seq<Step>, deadline: Time) {
    exists k :: 0 <= k < |steps| && Timed(steps[k]) && deadline < Clock(steps[k])
  }

  /** Once the clock has passed a booking's deadline, the booking does not enter PAYMENT_PENDING any more. */
  lemma {:induction false} NobodyPaysLate(db: Db, front: seq<Step>, back: seq<Step>, b: BookingId)
    requires Initial(db) && InClockOrder(front + back) && b < |Run(db, front).bookings|
    requires Past(front, Run(db, front).bookings[b].expiresAt)
    ensures b < |Run(db, front + back).bookings|
    ensures var was, now := Run(db, front).bookings[b], Run(db, front + back).bookings[b];
      now.expiresAt == was.expiresAt && (now.status == PaymentPending ==> was.status == PaymentPending)
    decreases |back|
  {
    if back == [] {
      assert front + back == front;
    } else {
      var shorter, last := back[..|back| - 1], back[|back| - 1];
      assert front + back == front + shorter + [last];
      LastIsLatest(front, shorter, last);
      NobodyPaysLate(db, front, shorter, b);
      Reachable(db, front + shorter);
      LateStep(Run(db, front + shorter), last, b);
      RunAppend(db, front + shorter, last);
    }
  }

  /** A step after the deadline does not let the booking into PAYMENT_PENDING. */
  lemma LateStep(db: Db, step: Step, b: BookingId)
    requires Owned(db) && b < |db.bookings| && (Timed(step) ==> db.bookings[b].expiresAt < Clock(step))
    ensures var after := Apply(db, step).bookings;
      && b < |after| && after[b].expiresAt == db.bookings[b].expiresAt
      && (after[b].status == PaymentPending ==> db.bookings[b].status == PaymentPending)
  {
    BookingIs(db, step, b);
  }

  lemma LastIsLatest(front: seq<Step>, back: seq<Step>, last: Step)
    requires InClockOrder(front + back + [last])
    ensures InClockOrder(front + back)
    ensures Timed(last) ==> forall k | 0 <= k < |front| && Timed(front[k]) :: Clock(front[k]) <= Clock(last)
  {
    var all := front + back + [last];
    assert all[|all| - 1] == last;
    assert forall k | 0 <= k < |front + back| :: all[k] == (front + back)[k];
    assert forall k | 0 <= k < |front| :: all[k] == front[k];
  }
}
