/** expiry_worker: the per-booking transactions of a sweep. */
module Expiry {
  import opened Commons
  import opened Records
  import opened Waitlist
  import opened Bookings

  predicate OverdueAt(booking: Booking, now: Time) {
    Live(booking.status) && booking.expiresAt < now
  }

  /** What the candidate query selects from, before its LIMIT. */
  function Overdue(db: Db, now: Time): set<BookingId> {
    set b: BookingId | b < |db.bookings| && OverdueAt(db.bookings[b], now)
  }

  /** The transaction for one candidate: re-checked under the row lock, then expired. */
  function ExpireCandidate(db: Db, b: BookingId, now: Time, ties: Ties): Db {
    if b < |db.bookings| && OverdueAt(db.bookings[b], now) then ExpireBooking(db, b, now, ties) else db
  }

  /** The transactions of one sweep, in the order the candidates were read. */
  function ExpireCandidates(db: Db, candidates: seq<BookingId>, now: Time, ties: Ties): Db
    decreases |candidates|
  {
    if candidates == [] then db
    else ExpireCandidates(ExpireCandidate(db, candidates[0], now, ties), candidates[1..], now, ties)
  }

  /** How many of them really expired a booking: the value `sweep_once` returns. */
  function ExpiredCount(db: Db, candidates: seq<BookingId>, now: Time, ties: Ties): nat
    decreases |candidates|
  {
    if candidates == [] then 0 else
      (if candidates[0] in Overdue(db, now) then 1 else 0)
      + ExpiredCount(ExpireCandidate(db, candidates[0], now, ties), candidates[1..], now, ties)
  }

  /** What `SELECT ... LIMIT 500` may return: no order is requested. */
  predicate IsSelection(db: Db, candidates: seq<BookingId>, now: Time) {
    && Distinct(candidates) && Elements(candidates) <= Overdue(db, now)
    && |candidates| == if |Overdue(db, now)| < SWEEP_LIMIT then |Overdue(db, now)| else SWEEP_LIMIT
  }

  /** One `sweep_once`, up to waiting-room admission. */
  function SweepOnce(db: Db, candidates: seq<BookingId>, now: Time, ties: Ties): Db {
    ExpireStaleOffers(ExpireCandidates(db, candidates, now, ties), now)
  }
}
