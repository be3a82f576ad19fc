/** The rows of the booking database. Booking, waitlist and event ids are positions
    in append-only sequences, so a fresh id is simply the next position. */
module Records {
  import opened Commons

  type SeatId = nat
  type ShowId = nat
  type SectionId = nat
  type UserId = nat
  type BookingId = nat
  type EntryId = nat
  type PaymentRef = nat
  type Time = int

  const HOLD_TTL_SECONDS: int := 300
  const WAITLIST_OFFER_TTL_SECONDS: int := 300
  const SWEEP_LIMIT: nat := 500

  /** The columns of `show_seats` that no service ever writes. */
  datatype SeatInfo = SeatInfo(show: ShowId, section: SectionId, price: int)

  datatype SeatStatus = FREE | HELD | SOLD

  /** The columns of `show_seats` that the conditional UPDATEs write. */
  datatype SeatState = SeatState(status: SeatStatus, owner: Option<BookingId>, deadline: Option<Time>)

  const FREE_SEAT := SeatState(FREE, None, None)

  function HeldBy(b: BookingId, deadline: Time): SeatState {
    SeatState(HELD, Some(b), Some(deadline))
  }

  function SoldTo(b: BookingId): SeatState {
    SeatState(SOLD, Some(b), None)
  }

  datatype BookingStatus = Held | PaymentPending | Confirmed | Failed | Expired | Cancelled

  /** A booking that still has a hold to pay for. */
  predicate Live(s: BookingStatus) {
    s == Held || s == PaymentPending
  }

  datatype Booking = Booking(
    user: UserId,
    show: ShowId,
    status: BookingStatus,
    seats: seq<SeatId>,
    expiresAt: Time,
    total: int,
    ticketed: bool)

  datatype PaymentStatus = Pending | Succeeded | PaymentFailed | Refunded

  datatype Payment = Payment(booking: BookingId, status: PaymentStatus, amount: int)

  datatype EntryStatus = Waiting | Offered | OfferExpired | Claimed

  datatype Entry = Entry(
    show: ShowId,
    section: SectionId,
    user: UserId,
    position: nat,
    status: EntryStatus,
    offeredSeat: Option<SeatId>,
    offerDeadline: Option<Time>)

  /** Outbox rows. The show is recorded exactly where the payload carries `show_id`. */
  datatype Event =
    | BookingHeld(booking: BookingId, show: ShowId)
    | BookingPaymentPending(booking: BookingId)
    | BookingExpired(booking: BookingId, show: ShowId)
    | BookingCancelled(booking: BookingId, show: ShowId)
    | BookingFailed(booking: BookingId, show: ShowId)
    | BookingConfirmed(booking: BookingId, show: ShowId)
    | PaymentRefunded(ref: PaymentRef, booking: BookingId)
    | WaitlistJoined(user: UserId, show: ShowId, position: nat)
    | WaitlistOffered(entry: EntryId, booking: BookingId, show: ShowId, seat: SeatId)

  datatype Db = Db(
    shows: set<ShowId>,
    catalog: map<SeatId, SeatInfo>,
    seats: map<SeatId, SeatState>,
    bookings: seq<Booking>,
    payments: map<PaymentRef, Payment>,
    waitlist: seq<Entry>,
    log: seq<Event>)

  predicate Known(db: Db, s: SeatId) {
    s in db.catalog && s in db.seats
  }

  /** The same seats, with the same fixed columns: no service adds, drops or re-prices a seat. */
  predicate SameFloor(before: Db, after: Db) {
    after.shows == before.shows && after.catalog == before.catalog && after.seats.Keys == before.seats.Keys
  }

  /** `UPDATE show_seats SET (status, owner, deadline) = state WHERE id IN ids`. */
  function Put(seats: map<SeatId, SeatState>, ids: set<SeatId>, state: SeatState): (r: map<SeatId, SeatState>)
    ensures r.Keys == seats.Keys
    ensures forall s | s in seats :: r[s] == if s in ids then state else seats[s]
  {
    map s | s in seats :: if s in ids then state else seats[s]
  }

  /** The seats of `ids` whose row names `b` as its owner. */
  function OwnedAmong(seats: map<SeatId, SeatState>, ids: seq<SeatId>, b: BookingId): set<SeatId> {
    set s | s in ids && s in seats && seats[s].owner == Some(b)
  }

  function TotalPrice(catalog: map<SeatId, SeatInfo>, ids: seq<SeatId>): int
    requires forall s | s in ids :: s in catalog
  {
    if ids == [] then 0 else catalog[ids[0]].price + TotalPrice(catalog, ids[1..])
  }

  /** Assigns a booking's status and writes the outbox row of the same transaction. */
  function SetStatus(db: Db, b: BookingId, status: BookingStatus, event: Event): (r: Db)
    requires b < |db.bookings|
    ensures SameFloor(db, r)
  {
    db.(bookings := db.bookings[b := db.bookings[b].(status := status)], log := db.log + [event])
  }
}
