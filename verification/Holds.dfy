/** hold_service: the all-or-nothing seat hold, and giving held seats back. */
module Holds {
  import opened Commons
  import opened Records

  datatype HoldOutcome =
    | HoldCreated(booking: BookingId)
    | ShowNotFound
    | SeatsMissing(ids: seq<SeatId>)
    | SeatsUnavailable(ids: seq<SeatId>)
    | NoSeatsRequested

  datatype HoldResult = HoldResult(db: Db, outcome: HoldOutcome)

  /** The requested rows that exist for the show, in id order. */
  function RequestedRows(db: Db, show: ShowId, request: seq<SeatId>): (rows: seq<SeatId>)
    ensures IsAscending(rows)
    ensures forall s :: s in rows <==> s in request && Known(db, s) && db.catalog[s].show == show
  {
    Ascending(set s | s in request && Known(db, s) && db.catalog[s].show == show)
  }

  /** The ids of `rows` whose seat is not FREE, in the order of `rows`. */
  function NotFree(seats: map<SeatId, SeatState>, rows: seq<SeatId>): (r: seq<SeatId>)
    requires forall s | s in rows :: s in seats
    ensures forall s :: s in r <==> s in rows && seats[s].status != FREE
  {
    if rows == [] then [] else
      (if seats[rows[0]].status != FREE then [rows[0]] else []) + NotFree(seats, rows[1..])
  }

  lemma NoneRefused(seats: map<SeatId, SeatState>, rows: seq<SeatId>)
    requires forall s | s in rows :: s in seats
    ensures NotFree(seats, rows) == [] <==> forall s | s in rows :: seats[s].status == FREE
  {
    forall s | s in rows && seats[s].status != FREE ensures NotFree(seats, rows) != [] {
      assert s in NotFree(seats, rows);
    }
    if NotFree(seats, rows) != [] {
      assert NotFree(seats, rows)[0] in NotFree(seats, rows);
    }
  }

  function NotIn(request: seq<SeatId>, rows: seq<SeatId>): (r: seq<SeatId>)
    ensures forall s :: s in r <==> s in request && s !in rows
  {
    if request == [] then [] else
      (if request[0] !in rows then [request[0]] else []) + NotIn(request[1..], rows)
  }

  /** The committed effect of a hold on `rows`. */
  function CommitHold(db: Db, user: UserId, show: ShowId, rows: seq<SeatId>, now: Time): (r: Db)
    requires forall s | s in rows :: s in db.catalog
    ensures SameFloor(db, r)
  {
    var b := |db.bookings|;
    var deadline := now + HOLD_TTL_SECONDS;
    db.(seats := Put(db.seats, Elements(rows), HeldBy(b, deadline)),
        bookings := db.bookings + [Booking(user, show, Held, rows, deadline, TotalPrice(db.catalog, rows), false)],
        log := db.log + [BookingHeld(b, show)])
  }

  /** `create_hold` run without interruption. */
  function CreateHold(db: Db, user: UserId, show: ShowId, request: seq<SeatId>, now: Time): (r: HoldResult)
    ensures SameFloor(db, r.db) && r.db.waitlist == db.waitlist && r.db.payments == db.payments
    ensures !r.outcome.HoldCreated? ==> r.db == db
  {
    if show !in db.shows then HoldResult(db, ShowNotFound) else
    var rows := RequestedRows(db, show, request);
    if |rows| != |Elements(request)| then HoldResult(db, SeatsMissing(NotIn(request, rows))) else
    var unavailable := NotFree(db.seats, rows);
    if unavailable != [] then HoldResult(db, SeatsUnavailable(unavailable)) else
    if rows == [] then HoldResult(db, NoSeatsRequested) else
    HoldResult(CommitHold(db, user, show, rows, now), HoldCreated(|db.bookings|))
  }

  /** A hold whose rows all exist and are FREE commits. */
  lemma FreeRowsCommit(db: Db, user: UserId, show: ShowId, request: seq<SeatId>, now: Time)
    requires show in db.shows && request != []
    requires |RequestedRows(db, show, request)| == |Elements(request)|
    requires forall s | s in RequestedRows(db, show, request) :: db.seats[s].status == FREE
    ensures CreateHold(db, user, show, request, now)
      == HoldResult(CommitHold(db, user, show, RequestedRows(db, show, request), now), HoldCreated(|db.bookings|))
  {
    NoneRefused(db.seats, RequestedRows(db, show, request));
    assert request[0] in Elements(request);
  }

  /** A hold on FREE seats of the show, listed in id order, commits. */
  lemma HoldSucceeds(db: Db, user: UserId, show: ShowId, request: seq<SeatId>, now: Time)
    requires show in db.shows && request != [] && IsAscending(request)
    requires forall s | s in request :: s in db.catalog
    requires forall s | s in request :: s in db.seats && db.seats[s].status == FREE && db.catalog[s].show == show
    ensures CreateHold(db, user, show, request, now).db == CommitHold(db, user, show, request, now)
  {
    var rows := RequestedRows(db, show, request);
    assert rows == request by {
      AscendingUnique(rows, request);
    }
    DistinctCardinality(request);
    FreeRowsCommit(db, user, show, request, now);
  }

  /** `free_held_seats`: only rows that still name the booking are touched. */
  function FreeHeldSeats(db: Db, b: BookingId): (r: Db)
    requires b < |db.bookings|
    ensures SameFloor(db, r)
  {
    db.(seats := Put(db.seats, OwnedAmong(db.seats, db.bookings[b].seats, b), FREE_SEAT))
  }

  /** `release_hold`, for its two reasons. */
  function ReleaseHold(db: Db, b: BookingId, expired: bool): (r: Db)
    requires b < |db.bookings|
    ensures SameFloor(db, r)
  {
    var show := db.bookings[b].show;
    if expired then SetStatus(FreeHeldSeats(db, b), b, Expired, BookingExpired(b, show))
    else SetStatus(FreeHeldSeats(db, b), b, Cancelled, BookingCancelled(b, show))
  }
}
