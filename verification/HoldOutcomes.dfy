/** What a hold promises its caller, said of the request and the seats it names and of nothing in between. */
module HoldOutcomes {
  import opened Commons
  import opened Records
  import opened Holds

  predicate IsSeatOf(db: Db, show: ShowId, s: SeatId) {
    Known(db, s) && db.catalog[s].show == show
  }

  predicate AllSeatsOf(db: Db, show: ShowId, request: seq<SeatId>) {
    forall s | s in request :: IsSeatOf(db, show, s)
  }

  /** What can be looked up before the call: the show exists, and every seat requested is a FREE seat of it. */
  predicate CanHold(db: Db, show: ShowId, request: seq<SeatId>) {
    show in db.shows && request != [] && AllSeatsOf(db, show, request)
    && forall s | s in request :: db.seats[s].status == FREE
  }

  /** One new HELD booking of exactly the seats requested; the rest is as it was. */
  ghost predicate HoldsExactly(db: Db, after: Db, user: UserId, show: ShowId, request: seq<SeatId>, now: Time) {
    var b := |db.bookings|;
    && |after.bookings| == b + 1
    && (var booking := after.bookings[b];
        && booking.user == user && booking.show == show && booking.status == Held && !booking.ticketed
        && IsAscending(booking.seats) && Elements(booking.seats) == Elements(request)
        && (forall s | s in booking.seats :: s in db.catalog) && booking.total == TotalPrice(db.catalog, booking.seats)
        && booking.expiresAt == now + HOLD_TTL_SECONDS)
    && (forall c | 0 <= c < b :: after.bookings[c] == db.bookings[c])
    && after.seats.Keys == db.seats.Keys
    && (forall s | s in db.seats ::
         after.seats[s] == if s in request then SeatState(HELD, Some(b), Some(now + HOLD_TTL_SECONDS)) else db.seats[s])
    && after == db.(seats := after.seats, bookings := after.bookings, log := db.log + [BookingHeld(b, show)])
  }

  /** As many rows are found as different seats are requested exactly when every one is a seat of the show. */
  lemma AllFoundIff(db: Db, show: ShowId, request: seq<SeatId>)
    ensures |RequestedRows(db, show, request)| == |Elements(request)| <==> AllSeatsOf(db, show, request)
    ensures AllSeatsOf(db, show, request) ==> Elements(RequestedRows(db, show, request)) == Elements(request)
  {
    var rows := RequestedRows(db, show, request);
    DistinctCardinality(rows);
    assert Elements(rows) <= Elements(request);
    SubsetSize(Elements(rows), Elements(request));
    if AllSeatsOf(db, show, request) {
      assert Elements(rows) == Elements(request);
    } else {
      var s :| s in request && !IsSeatOf(db, show, s);
      assert s in Elements(request) && s !in Elements(rows);
    }
  }

  lemma {:induction false} MissingCounts(request: seq<SeatId>, rows: seq<SeatId>, s: SeatId)
    ensures multiset(NotIn(request, rows))[s] == if s in rows then 0 else multiset(request)[s]
    decreases |request|
  {
    if request != [] {
      MissingCounts(request[1..], rows, s);
      assert request == [request[0]] + request[1..];
    }
  }

  lemma {:induction false} NotFreeAscends(seats: map<SeatId, SeatState>, rows: seq<SeatId>)
    requires IsAscending(rows) && forall s | s in rows :: s in seats
    ensures IsAscending(NotFree(seats, rows))
    decreases |rows|
  {
    if rows != [] {
      NotFreeAscends(seats, rows[1..]);
      var front := if seats[rows[0]].status != FREE then [rows[0]] else [];
      AscendingAppend(front, NotFree(seats, rows[1..]));
    }
  }

  lemma HoldSucceedsOn(db: Db, user: UserId, show: ShowId, request: seq<SeatId>, now: Time)
    requires CanHold(db, show, request)
    ensures var h := CreateHold(db, user, show, request, now);
      h.outcome == HoldCreated(|db.bookings|) && HoldsExactly(db, h.db, user, show, request, now)
  {
    var rows := RequestedRows(db, show, request);
    AllFoundIff(db, show, request);
    FreeRowsCommit(db, user, show, request, now);
    assert forall s :: s in Elements(rows) <==> s in request;
  }

  /** Exactly when the show exists and every seat requested is a FREE seat of it, and at least one is requested, a hold
      creates one booking of exactly those seats, each HELD by it. Otherwise nothing changes. */
  lemma HoldsAllOrNothing(db: Db, user: UserId, show: ShowId, request: seq<SeatId>, now: Time)
    ensures var h := CreateHold(db, user, show, request, now);
      && (h.outcome.HoldCreated? <==> CanHold(db, show, request))
      && if CanHold(db, show, request) then
           h.outcome == HoldCreated(|db.bookings|) && HoldsExactly(db, h.db, user, show, request, now)
         else h.db == db
  {
    if CanHold(db, show, request) {
      HoldSucceedsOn(db, user, show, request, now);
    } else {
      RefusalNamesTheCulprits(db, user, show, request, now);
    }
  }

  lemma MissingAreNamed(db: Db, user: UserId, show: ShowId, request: seq<SeatId>, now: Time)
    requires show in db.shows && !AllSeatsOf(db, show, request)
    ensures var outcome := CreateHold(db, user, show, request, now).outcome;
      outcome.SeatsMissing? &&
      forall s :: multiset(outcome.ids)[s] == if IsSeatOf(db, show, s) then 0 else multiset(request)[s]
  {
    var rows := RequestedRows(db, show, request);
    AllFoundIff(db, show, request);
    forall s ensures multiset(NotIn(request, rows))[s] == if IsSeatOf(db, show, s) then 0 else multiset(request)[s] {
      MissingCounts(request, rows, s);
    }
  }

  /** `ids` are the requested seats that are not FREE, in id order. */
  ghost predicate NamesTaken(db: Db, request: seq<SeatId>, ids: seq<SeatId>) {
    IsAscending(ids) && forall s :: s in ids <==> s in request && s in db.seats && db.seats[s].status != FREE
  }

  lemma TakenRows(db: Db, show: ShowId, request: seq<SeatId>)
    requires AllSeatsOf(db, show, request) && exists s :: s in request && db.seats[s].status != FREE
    ensures var ids := NotFree(db.seats, RequestedRows(db, show, request)); ids != [] && NamesTaken(db, request, ids)
  {
    var rows := RequestedRows(db, show, request);
    SameMembers(db, show, request);
    NotFreeAscends(db.seats, rows);
    var s :| s in request && db.seats[s].status != FREE;
    NotFreeNames(db.seats, rows, s);
  }

  lemma SameMembers(db: Db, show: ShowId, request: seq<SeatId>)
    requires AllSeatsOf(db, show, request)
    ensures forall s :: s in RequestedRows(db, show, request) <==> s in request
    ensures forall s | s in request :: s in db.seats
  {
  }

  lemma NotFreeNames(seats: map<SeatId, SeatState>, rows: seq<SeatId>, s: SeatId)
    requires (forall t | t in rows :: t in seats) && s in rows && seats[s].status != FREE
    ensures NotFree(seats, rows) != []
  {
    assert s in NotFree(seats, rows);
  }

  lemma TakenAreNamed(db: Db, user: UserId, show: ShowId, request: seq<SeatId>, now: Time)
    requires show in db.shows && AllSeatsOf(db, show, request)
    requires exists s :: s in request && db.seats[s].status != FREE
    ensures var outcome := CreateHold(db, user, show, request, now).outcome;
      outcome.SeatsUnavailable? && NamesTaken(db, request, outcome.ids)
  {
    AllFoundIff(db, show, request);
    TakenRows(db, show, request);
    TakenOutcome(db, user, show, request, now);
  }

  lemma TakenOutcome(db: Db, user: UserId, show: ShowId, request: seq<SeatId>, now: Time)
    requires show in db.shows && |RequestedRows(db, show, request)| == |Elements(request)|
    requires NotFree(db.seats, RequestedRows(db, show, request)) != []
    ensures CreateHold(db, user, show, request, now).outcome
      == SeatsUnavailable(NotFree(db.seats, RequestedRows(db, show, request)))
  {
  }

  lemma NothingIsRefused(db: Db, user: UserId, show: ShowId, now: Time)
    requires show in db.shows
    ensures CreateHold(db, user, show, [], now).outcome == NoSeatsRequested
  {
    AllFoundIff(db, show, []);
    var rows := RequestedRows(db, show, []);
    if rows != [] {
      HasElement(rows);
    }
  }

  /** The reason a hold is refused: first the show, then the requested ids that are no seat of it, as often as they were
      requested, then its seats that are not FREE, in id order, then the empty request. */
  lemma RefusalNamesTheCulprits(db: Db, user: UserId, show: ShowId, request: seq<SeatId>, now: Time)
    ensures var outcome := CreateHold(db, user, show, request, now).outcome;
      && (outcome.ShowNotFound? <==> show !in db.shows)
      && (outcome.SeatsMissing? <==> show in db.shows && !AllSeatsOf(db, show, request))
      && (outcome.SeatsMissing? ==>
           forall s :: multiset(outcome.ids)[s] == if IsSeatOf(db, show, s) then 0 else multiset(request)[s])
      && (outcome.SeatsUnavailable? <==>
           && show in db.shows && AllSeatsOf(db, show, request)
           && exists s :: s in request && db.seats[s].status != FREE)
      && (outcome.SeatsUnavailable? ==> NamesTaken(db, request, outcome.ids))
      && (outcome.NoSeatsRequested? <==> show in db.shows && request == [])
  {
    if show in db.shows {
      if !AllSeatsOf(db, show, request) {
        MissingAreNamed(db, user, show, request, now);
      } else if s :| s in request && db.seats[s].status != FREE {
        TakenAreNamed(db, user, show, request, now);
      } else if request == [] {
        NothingIsRefused(db, user, show, now);
      } else {
        HoldSucceedsOn(db, user, show, request, now);
      }
    }
  }
}
