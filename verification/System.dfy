/** The whole booking system as a transition system: one step per transaction. */
module System {
  import opened Records
  import opened Waitlist
  import opened Holds
  import opened Bookings
  import opened Expiry

  datatype Step =
    | HoldStep(user: UserId, show: ShowId, request: seq<SeatId>, now: Time)
    | PayStep(b: BookingId, now: Time, ties: Ties)
    | RecordStep(b: BookingId, ref: PaymentRef)
    | WebhookStep(ref: PaymentRef, succeeded: bool, now: Time, ties: Ties)
    | SweepStep(b: BookingId, now: Time, ties: Ties)
    | CancelStep(b: BookingId, now: Time, ties: Ties)
    | JoinStep(user: UserId, show: ShowId, section: SectionId)
    | ExpireOffersStep(now: Time)

  /** A step that names a booking nobody created is refused and changes nothing. */
  function Apply(db: Db, step: Step): Db {
    match step
    case HoldStep(user, show, request, now) => CreateHold(db, user, show, request, now).db
    case PayStep(b, now, ties) => if b < |db.bookings| then InitiatePayment(db, b, now, ties).db else db
    case RecordStep(b, ref) => if b < |db.bookings| then RecordPayment(db, b, ref) else db
    case WebhookStep(ref, succeeded, now, ties) =>
      if ref in db.payments && db.payments[ref].booking < |db.bookings|
      then HandleWebhook(db, ref, succeeded, now, ties).db else db
    case SweepStep(b, now, ties) => ExpireCandidate(db, b, now, ties)
    case CancelStep(b, now, ties) => if b < |db.bookings| then CancelBooking(db, b, now, ties).db else db
    case JoinStep(user, show, section) => Join(db, user, show, section)
    case ExpireOffersStep(now) => ExpireStaleOffers(db, now)
  }

  function Run(db: Db, steps: seq<Step>): Db
    decreases |steps|
  {
    if steps == [] then db else Apply(Run(db, steps[..|steps| - 1]), steps[|steps| - 1])
  }

  /** A freshly seeded database: every seat free, nothing else recorded. */
  predicate Initial(db: Db) {
    db.catalog.Keys == db.seats.Keys
    && (forall s | s in db.seats :: db.seats[s] == FREE_SEAT)
    && db.bookings == [] && db.payments == map[] && db.waitlist == [] && db.log == []
  }

  function Seeded(shows: set<ShowId>, catalog: map<SeatId, SeatInfo>): (db: Db)
    ensures Initial(db) && db.shows == shows && db.catalog == catalog
  {
    Db(shows, catalog, map s | s in catalog :: FREE_SEAT, [], map[], [], [])
  }
}
