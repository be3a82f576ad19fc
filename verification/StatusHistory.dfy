/** The outbox log as a record of every booking's life. */
module StatusHistory {
  import opened Commons
  import opened Records
  import opened Waitlist
  import opened Holds
  import opened Bookings
  import opened System

  /** The status change that an outbox row reports, if any. */
  function Reported(e: Event): Option<(BookingId, BookingStatus)> {
    match e
    case BookingHeld(b, _) => Some((b, Held))
    case BookingPaymentPending(b) => Some((b, PaymentPending))
    case BookingExpired(b, _) => Some((b, Expired))
    case BookingCancelled(b, _) => Some((b, Cancelled))
    case BookingFailed(b, _) => Some((b, Failed))
    case BookingConfirmed(b, _) => Some((b, Confirmed))
    case WaitlistOffered(_, b, _, _) => Some((b, Held))
    case PaymentRefunded(_, _) => None
    case WaitlistJoined(_, _, _) => None
  }

  /** All statuses the log reports for booking `b`, oldest first. */
  function History(log: seq<Event>, b: BookingId): seq<BookingStatus>
    decreases |log|
  {
    if log == [] then [] else
      var last := log[|log| - 1];
      History(log[..|log| - 1], b) +
        (if Reported(last).Some? && Reported(last).value.0 == b then [Reported(last).value.1] else [])
  }

  /** The moves the services make: the table, plus cancelling a CONFIRMED booking. */
  predicate Edge(current: BookingStatus, target: BookingStatus) {
    InTable(current, target) || (current == Confirmed && target == Cancelled)
  }

  function Rank(s: BookingStatus): nat {
    match s
    case Held => 0
    case PaymentPending => 1
    case Failed => 2
    case Expired => 2
    case Confirmed => 3
    case Cancelled => 4
  }

  /** A life: it starts HELD and follows edges. */
  ghost predicate IsLife(h: seq<BookingStatus>) {
    h != [] && h[0] == Held && forall i | 0 <= i < |h| - 1 :: Edge(h[i], h[i + 1])
  }

  ghost predicate HistoryOk(bookings: seq<Booking>, log: seq<Event>) {
    && (forall b: BookingId | b < |bookings| ::
         IsLife(History(log, b)) && History(log, b)[|History(log, b)| - 1] == bookings[b].status)
    && (forall b: BookingId | |bookings| <= b :: History(log, b) == [])
  }

  lemma HistoryAppend(log: seq<Event>, e: Event, b: BookingId)
    ensures History(log + [e], b) == History(log, b) +
      (if Reported(e).Some? && Reported(e).value.0 == b then [Reported(e).value.1] else [])
  {
    assert (log + [e])[..|log|] == log;
  }

  lemma MoveKeeps(bookings: seq<Booking>, log: seq<Event>, b: BookingId, moved: Booking, e: Event)
    requires HistoryOk(bookings, log) && b < |bookings|
    requires Edge(bookings[b].status, moved.status) && Reported(e) == Some((b, moved.status))
    ensures HistoryOk(bookings[b := moved], log + [e])
  {
    forall c: BookingId ensures History(log + [e], c) == History(log, c) + if c == b then [moved.status] else [] {
      HistoryAppend(log, e, c);
    }
    var h := History(log, b);
    assert IsLife(h) && h[|h| - 1] == bookings[b].status;
    LifeGrows(h, moved.status);
    forall c: BookingId | c < |bookings|
      ensures IsLife(History(log + [e], c))
        && History(log + [e], c)[|History(log + [e], c)| - 1] == bookings[b := moved][c].status
    {
      if c != b {
        assert History(log + [e], c) == History(log, c);
      }
    }
  }

  lemma LifeGrows(h: seq<BookingStatus>, status: BookingStatus)
    requires IsLife(h) && Edge(h[|h| - 1], status)
    ensures IsLife(h + [status])
  {
  }

  lemma CreateKeeps(bookings: seq<Booking>, log: seq<Event>, booking: Booking, e: Event)
    requires HistoryOk(bookings, log)
    requires booking.status == Held && Reported(e) == Some((|bookings|, Held))
    ensures HistoryOk(bookings + [booking], log + [e])
  {
    forall c: BookingId ensures History(log + [e], c) == History(log, c) + if c == |bookings| then [Held] else [] {
      HistoryAppend(log, e, c);
    }
  }

  lemma NoteKeeps(bookings: seq<Booking>, log: seq<Event>, e: Event)
    requires HistoryOk(bookings, log) && Reported(e) == None
    ensures HistoryOk(bookings, log + [e])
  {
    forall c: BookingId ensures History(log + [e], c) == History(log, c) {
      HistoryAppend(log, e, c);
    }
  }

  lemma OfferKeeps(db: Db, show: ShowId, s: SeatId, e: EntryId, now: Time)
    requires HistoryOk(db.bookings, db.log) && Known(db, s) && e < |db.waitlist|
    ensures var one := Offer(db, show, s, e, now); HistoryOk(one.bookings, one.log)
  {
    var one := Offer(db, show, s, e, now);
    CreateKeeps(db.bookings, db.log, one.bookings[|db.bookings|], WaitlistOffered(e, |db.bookings|, show, s));
  }

  lemma OfferOneKeeps(db: Db, show: ShowId, s: SeatId, now: Time, ties: Ties)
    requires HistoryOk(db.bookings, db.log)
    ensures var one := OfferOne(db, show, s, now, ties); HistoryOk(one.bookings, one.log)
  {
    if Known(db, s) && db.seats[s].status == FREE {
      var next := NextWaiter(db.waitlist, show, db.catalog[s].section, Hint(ties, s));
      if next.Some? {
        OfferKeeps(db, show, s, next.value, now);
      }
    }
  }

  lemma {:induction false} OfferFreedKeeps(db: Db, show: ShowId, ids: seq<SeatId>, now: Time, ties: Ties)
    requires HistoryOk(db.bookings, db.log)
    ensures var after := OfferFreed(db, show, ids, now, ties); HistoryOk(after.bookings, after.log)
    decreases |ids|
  {
    if ids != [] {
      OfferOneKeeps(db, show, ids[0], now, ties);
      OfferFreedKeeps(OfferOne(db, show, ids[0], now, ties), show, ids[1..], now, ties);
    }
  }

  lemma HoldKeeps(db: Db, user: UserId, show: ShowId, request: seq<SeatId>, now: Time)
    requires HistoryOk(db.bookings, db.log)
    ensures var after := CreateHold(db, user, show, request, now).db; HistoryOk(after.bookings, after.log)
  {
    var result := CreateHold(db, user, show, request, now);
    if result.outcome.HoldCreated? {
      CreateKeeps(db.bookings, db.log, result.db.bookings[|db.bookings|], BookingHeld(|db.bookings|, show));
    }
  }

  lemma ExpireKeeps(db: Db, b: BookingId, now: Time, ties: Ties)
    requires HistoryOk(db.bookings, db.log) && b < |db.bookings|
    ensures var after := ExpireBooking(db, b, now, ties); HistoryOk(after.bookings, after.log)
  {
    if Live(db.bookings[b].status) {
      var booking := db.bookings[b];
      MoveKeeps(db.bookings, db.log, b, booking.(status := Expired), BookingExpired(b, booking.show));
      OfferFreedKeeps(ReleaseHold(db, b, true), booking.show, booking.seats, now, ties);
    }
  }

  lemma PayKeeps(db: Db, b: BookingId, now: Time, ties: Ties)
    requires HistoryOk(db.bookings, db.log) && b < |db.bookings|
    ensures var after := InitiatePayment(db, b, now, ties).db; HistoryOk(after.bookings, after.log)
  {
    ExpireKeeps(db, b, now, ties);
    if InTable(db.bookings[b].status, PaymentPending) {
      MoveKeeps(db.bookings, db.log, b, db.bookings[b].(status := PaymentPending), BookingPaymentPending(b));
    }
  }

  lemma CancelKeeps(db: Db, b: BookingId, now: Time, ties: Ties)
    requires HistoryOk(db.bookings, db.log) && b < |db.bookings|
    ensures var after := CancelBooking(db, b, now, ties).db; HistoryOk(after.bookings, after.log)
  {
    var booking := db.bookings[b];
    if Edge(booking.status, Cancelled) {
      MoveKeeps(db.bookings, db.log, b, booking.(status := Cancelled), BookingCancelled(b, booking.show));
      var freed := db.(seats := Put(db.seats, Elements(booking.seats), FREE_SEAT));
      OfferFreedKeeps(SetStatus(freed, b, Cancelled, BookingCancelled(b, booking.show)), booking.show, booking.seats,
        now, ties);
      OfferFreedKeeps(ReleaseHold(db, b, false), booking.show, booking.seats, now, ties);
    }
  }

  lemma WebhookKeeps(db: Db, ref: PaymentRef, succeeded: bool, now: Time, ties: Ties)
    requires HistoryOk(db.bookings, db.log)
    requires ref in db.payments && db.payments[ref].booking < |db.bookings|
    ensures var after := HandleWebhook(db, ref, succeeded, now, ties).db; HistoryOk(after.bookings, after.log)
  {
    var b := db.payments[ref].booking;
    var booking := db.bookings[b];
    NoteKeeps(db.bookings, db.log, PaymentRefunded(ref, b));
    if booking.status == PaymentPending || booking.status == Expired {
      MoveKeeps(db.bookings, db.log, b, booking.(status := Confirmed, ticketed := true),
        BookingConfirmed(b, booking.show));
    }
    if booking.status == PaymentPending {
      MoveKeeps(db.bookings, db.log, b, booking.(status := Failed), BookingFailed(b, booking.show));
      var freed := FreeHeldSeats(SettlePayment(db, ref, PaymentFailed), b);
      OfferFreedKeeps(SetStatus(freed, b, Failed, BookingFailed(b, booking.show)), booking.show, booking.seats, now,
        ties);
    }
  }

  lemma JoinKeeps(db: Db, user: UserId, show: ShowId, section: SectionId)
    requires HistoryOk(db.bookings, db.log)
    ensures var after := Join(db, user, show, section); HistoryOk(after.bookings, after.log)
  {
    NoteKeeps(db.bookings, db.log, WaitlistJoined(user, show, |Waiters(db.waitlist, show, section)| + 1));
  }

  lemma ApplyKeeps(db: Db, step: Step)
    requires HistoryOk(db.bookings, db.log)
    ensures HistoryOk(Apply(db, step).bookings, Apply(db, step).log)
  {
    match step
    case HoldStep(user, show, request, now) => HoldKeeps(db, user, show, request, now);
    case PayStep(b, now, ties) => if b < |db.bookings| { PayKeeps(db, b, now, ties); }
    case RecordStep(b, ref) =>
    case WebhookStep(ref, succeeded, now, ties) =>
      if ref in db.payments && db.payments[ref].booking < |db.bookings| {
        WebhookKeeps(db, ref, succeeded, now, ties);
      }
    case SweepStep(b, now, ties) => if b < |db.bookings| { ExpireKeeps(db, b, now, ties); }
    case CancelStep(b, now, ties) => if b < |db.bookings| { CancelKeeps(db, b, now, ties); }
    case JoinStep(user, show, section) => JoinKeeps(db, user, show, section);
    case ExpireOffersStep(now) =>
  }

  lemma {:induction false} Reachable(db: Db, steps: seq<Step>)
    requires Initial(db)
    ensures HistoryOk(Run(db, steps).bookings, Run(db, steps).log)
    decreases |steps|
  {
    if steps != [] {
      Reachable(db, steps[..|steps| - 1]);
      ApplyKeeps(Run(db, steps[..|steps| - 1]), steps[|steps| - 1]);
    }
  }

  /** Reading the log alone. */
  function Replay(log: seq<Event>): map<BookingId, BookingStatus>
    decreases |log|
  {
    if log == [] then map[] else
      var before := Replay(log[..|log| - 1]);
      match Reported(log[|log| - 1])
      case None => before
      case Some((b, status)) => before[b := status]
  }

  lemma {:induction false} ReplayIsLastReport(log: seq<Event>, b: BookingId)
    ensures b in Replay(log) <==> History(log, b) != []
    ensures b in Replay(log) ==> Replay(log)[b] == History(log, b)[|History(log, b)| - 1]
    decreases |log|
  {
    if log != [] {
      ReplayIsLastReport(log[..|log| - 1], b);
    }
  }

  /** The log determines which bookings exist and the status of each, in every reachable state. */
  lemma ReplayReconstructsStatuses(db: Db, steps: seq<Step>)
    requires Initial(db)
    ensures Replay(Run(db, steps).log) ==
      map b: BookingId | b < |Run(db, steps).bookings| :: Run(db, steps).bookings[b].status
  {
    Reachable(db, steps);
    var now := Run(db, steps);
    var statuses := map b: BookingId | b < |now.bookings| :: now.bookings[b].status;
    forall b: BookingId
      ensures b in Replay(now.log) <==> b in statuses
      ensures b in statuses ==> b in Replay(now.log) && Replay(now.log)[b] == statuses[b]
    {
      ReplayIsLastReport(now.log, b);
    }
    assert Replay(now.log).Keys == statuses.Keys;
  }

  lemma {:induction false} LifeRises(h: seq<BookingStatus>, i: nat, j: nat)
    requires IsLife(h) && i <= j < |h|
    ensures Rank(h[i]) + (j - i) <= Rank(h[j])
    decreases j - i
  {
    if i < j {
      LifeRises(h, i, j - 1);
      assert Edge(h[j - 1], h[j - 1 + 1]);
    }
  }

  /** A booking changes status at most four times and never returns to a status it left. */
  lemma LivesAreShort(db: Db, steps: seq<Step>, b: BookingId)
    requires Initial(db) && b < |Run(db, steps).bookings|
    ensures var h := History(Run(db, steps).log, b);
      1 <= |h| <= 5 && Distinct(h)
  {
    Reachable(db, steps);
    var h := History(Run(db, steps).log, b);
    LifeRises(h, 0, |h| - 1);
    forall i, j | 0 <= i < j < |h| ensures h[i] != h[j] {
      LifeRises(h, i, j);
    }
  }
}
