/** The services as they run: statements that update tables in place, each proved to have
    the effect of its transition function. */
module Database {
  import opened Commons
  import opened Records
  import opened Waitlist
  import opened Holds
  import opened Bookings
  import opened Expiry

  lemma {:induction false} NotFreeAppend(seats: map<SeatId, SeatState>, rows: seq<SeatId>, s: SeatId)
    requires s in seats && forall t | t in rows :: t in seats
    ensures NotFree(seats, rows + [s]) == NotFree(seats, rows) + if seats[s].status != FREE then [s] else []
    decreases |rows|
  {
    if rows == [] {
      assert [s][1..] == [];
    } else {
      assert (rows + [s])[1..] == rows[1..] + [s];
      NotFreeAppend(seats, rows[1..], s);
    }
  }

  lemma {:induction false} TotalPriceAppend(catalog: map<SeatId, SeatInfo>, rows: seq<SeatId>, s: SeatId)
    requires s in catalog && forall t | t in rows :: t in catalog
    ensures TotalPrice(catalog, rows + [s]) == TotalPrice(catalog, rows) + catalog[s].price
    decreases |rows|
  {
    if rows == [] {
      assert [s][1..] == [];
    } else {
      assert (rows + [s])[1..] == rows[1..] + [s];
      TotalPriceAppend(catalog, rows[1..], s);
    }
  }

  lemma PutOneMore(seats: map<SeatId, SeatState>, ids: seq<SeatId>, s: SeatId, state: SeatState)
    ensures Put(Put(seats, Elements(ids), state), {s}, state) == Put(seats, Elements(ids + [s]), state)
  {
    assert Elements(ids + [s]) == Elements(ids) + {s};
  }

  /** What the loop of `create_hold` has built once it has been through `rows`. */
  ghost predicate Acquired(catalog: map<SeatId, SeatInfo>, before: map<SeatId, SeatState>, rows: seq<SeatId>,
                           state: SeatState, after: map<SeatId, SeatState>, unavailable: seq<SeatId>,
                           acquired: seq<SeatId>, total: int)
    requires forall s | s in rows :: s in before && s in catalog
  {
    && after == Put(before, Elements(acquired), state)
    && (forall s | s in acquired :: s in rows)
    && unavailable == NotFree(before, rows)
    && total == TotalPrice(catalog, acquired)
    && (unavailable == [] ==> acquired == rows)
  }

  lemma NotTakenYet(catalog: map<SeatId, SeatInfo>, before: map<SeatId, SeatState>, rows: seq<SeatId>, state: SeatState,
                    after: map<SeatId, SeatState>, unavailable: seq<SeatId>, acquired: seq<SeatId>, total: int,
                    s: SeatId)
    requires forall t | t in rows :: t in before && t in catalog
    requires Acquired(catalog, before, rows, state, after, unavailable, acquired, total)
    requires s in before && s !in rows
    ensures after.Keys == before.Keys && after[s] == before[s]
  {
  }

  /** The conditional UPDATE matched: the row joins `acquired`. */
  lemma TakeOne(catalog: map<SeatId, SeatInfo>, before: map<SeatId, SeatState>, rows: seq<SeatId>, state: SeatState,
                after: map<SeatId, SeatState>, unavailable: seq<SeatId>, acquired: seq<SeatId>, total: int, s: SeatId)
    requires forall t | t in rows + [s] :: t in before && t in catalog
    requires Acquired(catalog, before, rows, state, after, unavailable, acquired, total)
    requires before[s].status == FREE
    ensures Acquired(catalog, before, rows + [s], state, Put(after, {s}, state), unavailable, acquired + [s],
                     total + catalog[s].price)
  {
    NotFreeAppend(before, rows, s);
    TotalPriceAppend(catalog, acquired, s);
    PutOneMore(before, acquired, s, state);
  }

  /** The conditional UPDATE matched no row: the seat joins `unavailable`. */
  lemma RefuseOne(catalog: map<SeatId, SeatInfo>, before: map<SeatId, SeatState>, rows: seq<SeatId>, state: SeatState,
                  after: map<SeatId, SeatState>, unavailable: seq<SeatId>, acquired: seq<SeatId>, total: int, s: SeatId)
    requires forall t | t in rows + [s] :: t in before && t in catalog
    requires Acquired(catalog, before, rows, state, after, unavailable, acquired, total)
    requires before[s].status != FREE
    ensures Acquired(catalog, before, rows + [s], state, after, unavailable + [s], acquired, total)
  {
    NotFreeAppend(before, rows, s);
  }

  lemma OneMoreRow(catalog: map<SeatId, SeatInfo>, before: map<SeatId, SeatState>, rows: seq<SeatId>, state: SeatState,
                   after: map<SeatId, SeatState>, unavailable: seq<SeatId>, acquired: seq<SeatId>, total: int,
                   s: SeatId)
    requires forall t | t in rows + [s] :: t in before && t in catalog
    requires Acquired(catalog, before, rows, state, after, unavailable, acquired, total)
    ensures if before[s].status == FREE
      then Acquired(catalog, before, rows + [s], state, Put(after, {s}, state), unavailable, acquired + [s],
                    total + catalog[s].price)
      else Acquired(catalog, before, rows + [s], state, after, unavailable + [s], acquired, total)
  {
    if before[s].status == FREE {
      TakeOne(catalog, before, rows, state, after, unavailable, acquired, total, s);
    } else {
      RefuseOne(catalog, before, rows, state, after, unavailable, acquired, total, s);
    }
  }

  /** A row of an ascending list does not occur among the rows before it. */
  lemma RowsSoFar(rows: seq<SeatId>, i: nat)
    requires IsAscending(rows) && i < |rows|
    ensures rows[i] !in rows[..i] && rows[..i + 1] == rows[..i] + [rows[i]]
  {
  }

  /** The entries before `n` whose offer has lapsed. */
  function StaleBelow(waitlist: seq<Entry>, n: nat, now: Time): set<EntryId>
    requires n <= |waitlist|
  {
    set i: EntryId | i < n && StaleOffer(waitlist[i], now)
  }

  lemma OneMoreStale(waitlist: seq<Entry>, n: nat, now: Time)
    requires n < |waitlist|
    ensures |StaleBelow(waitlist, n + 1, now)|
      == |StaleBelow(waitlist, n, now)| + if StaleOffer(waitlist[n], now) then 1 else 0
  {
    assert StaleBelow(waitlist, n + 1, now)
      == StaleBelow(waitlist, n, now) + if StaleOffer(waitlist[n], now) then {n} else {};
  }

  class Tables {
    const shows: set<ShowId>
    const catalog: map<SeatId, SeatInfo>
    var seats: map<SeatId, SeatState>
    var bookings: seq<Booking>
    var payments: map<PaymentRef, Payment>
    var waitlist: seq<Entry>
    var log: seq<Event>

    constructor (shows: set<ShowId>, catalog: map<SeatId, SeatInfo>)
      ensures State() == Db(shows, catalog, map s | s in catalog :: FREE_SEAT, [], map[], [], [])
    {
      this.shows := shows;
      this.catalog := catalog;
      seats := map s | s in catalog :: FREE_SEAT;
      bookings := [];
      payments := map[];
      waitlist := [];
      log := [];
    }

    function State(): Db
      reads this
    {
      Db(shows, catalog, seats, bookings, payments, waitlist, log)
    }

    method Emit(e: Event)
      modifies this`log
      ensures log == old(log) + [e]
    {
      log := log + [e];
    }

    /** `create_hold`. */
    method CreateHold(user: UserId, show: ShowId, request: seq<SeatId>, now: Time) returns (outcome: HoldOutcome)
      modifies this
      ensures HoldResult(State(), outcome) == Holds.CreateHold(old(State()), user, show, request, now)
    {
      if show !in shows {
        return ShowNotFound;
      }
      var rows := RequestedRows(State(), show, request);
      if |rows| != |Elements(request)| {
        return SeatsMissing(NotIn(request, rows));
      }
      outcome := HoldRows(user, show, rows, now);
    }

    /** `create_hold` from the insertion of the booking on: commit or rollback. */
    method HoldRows(user: UserId, show: ShowId, rows: seq<SeatId>, now: Time) returns (outcome: HoldOutcome)
      requires IsAscending(rows) && forall s | s in rows :: s in seats && s in catalog
      modifies this
      ensures var unavailable := NotFree(old(seats), rows);
        if unavailable != [] then State() == old(State()) && outcome == SeatsUnavailable(unavailable)
        else if rows == [] then State() == old(State()) && outcome == NoSeatsRequested
        else State() == CommitHold(old(State()), user, show, rows, now) && outcome == HoldCreated(|old(bookings)|)
    {
      var savedSeats, savedBookings := seats, bookings;
      var b := |bookings|;
      var deadline := now + HOLD_TTL_SECONDS;
      bookings := bookings + [Booking(user, show, Held, [], deadline, 0, false)];
      var unavailable, acquired, total := AcquireRows(rows, b, deadline);
      if unavailable != [] || acquired == [] {
        // The whole transaction is rolled back.
        seats, bookings := savedSeats, savedBookings;
        return if unavailable != [] then SeatsUnavailable(unavailable) else NoSeatsRequested;
      }
      bookings := bookings[b := bookings[b].(seats := acquired, total := total)];
      Emit(BookingHeld(b, show));
      outcome := HoldCreated(b);
    }

    /** UPDATE show_seats ... WHERE id = s AND status = 'FREE', reporting whether a row matched. */
    method TryHoldSeat(s: SeatId, b: BookingId, deadline: Time) returns (matched: bool)
      requires s in seats
      modifies this`seats
      ensures matched <==> old(seats)[s].status == FREE
      ensures seats == if matched then Put(old(seats), {s}, HeldBy(b, deadline)) else old(seats)
    {
      matched := seats[s].status == FREE;
      if matched {
        seats := Put(seats, {s}, HeldBy(b, deadline));
      }
    }

    /** The loop of `create_hold`: one conditional UPDATE per row, in id order. */
    method AcquireRows(rows: seq<SeatId>, b: BookingId, deadline: Time)
      returns (unavailable: seq<SeatId>, acquired: seq<SeatId>, total: int)
      requires IsAscending(rows) && forall s | s in rows :: s in seats && s in catalog
      modifies this`seats
      ensures unavailable == NotFree(old(seats), rows)
      ensures unavailable == [] ==>
        acquired == rows && total == TotalPrice(catalog, rows)
        && seats == Put(old(seats), Elements(rows), HeldBy(b, deadline))
    {
      unavailable, acquired, total := [], [], 0;
      var i := 0;
      ghost var state := HeldBy(b, deadline);
      while i < |rows|
        invariant i <= |rows|
        invariant Acquired(catalog, old(seats), rows[..i], state, seats, unavailable, acquired, total)
      {
        var s := rows[i];
        ghost var before := seats;
        RowsSoFar(rows, i);
        NotTakenYet(catalog, old(seats), rows[..i], state, seats, unavailable, acquired, total, s);
        var matched := TryHoldSeat(s, b, deadline);
        OneMoreRow(catalog, old(seats), rows[..i], state, before, unavailable, acquired, total, s);
        if matched {
          acquired := acquired + [s];
          total := total + catalog[s].price;
        } else {
          unavailable := unavailable + [s];
        }
        i := i + 1;
      }
      assert rows[..i] == rows;
    }

    /** `free_held_seats`. */
    method FreeHeldSeats(b: BookingId)
      requires b < |bookings|
      modifies this`seats
      ensures State() == Holds.FreeHeldSeats(old(State()), b)
    {
      seats := Put(seats, OwnedAmong(seats, bookings[b].seats, b), FREE_SEAT);
    }

    /** `release_hold`. */
    method ReleaseHold(b: BookingId, expired: bool)
      requires b < |bookings|
      modifies this`seats, this`bookings, this`log
      ensures State() == Holds.ReleaseHold(old(State()), b, expired)
    {
      FreeHeldSeats(b);
      bookings := bookings[b := bookings[b].(status := if expired then Expired else Cancelled)];
      var show := bookings[b].show;
      Emit(if expired then BookingExpired(b, show) else BookingCancelled(b, show));
    }

    /** `join_waitlist`. */
    method JoinWaitlist(user: UserId, show: ShowId, section: SectionId)
      modifies this`waitlist, this`log
      ensures State() == Waitlist.Join(old(State()), user, show, section)
    {
      var count := 0;
      for i := 0 to |waitlist|
        invariant count == |set j: EntryId | j < i && j < |waitlist| && WaitingFor(waitlist[j], show, section)|
      {
        ghost var seen := set j: EntryId | j < i && j < |waitlist| && WaitingFor(waitlist[j], show, section);
        if WaitingFor(waitlist[i], show, section) {
          count := count + 1;
          assert (set j: EntryId | j < i + 1 && j < |waitlist| && WaitingFor(waitlist[j], show, section)) == seen + {i};
        } else {
          assert (set j: EntryId | j < i + 1 && j < |waitlist| && WaitingFor(waitlist[j], show, section)) == seen;
        }
      }
      assert Waiters(waitlist, show, section)
        == set j: EntryId | j < |waitlist| && j < |waitlist| && WaitingFor(waitlist[j], show, section);
      var position := count + 1;
      waitlist := waitlist + [Entry(show, section, user, position, Waiting, None, None)];
      Emit(WaitlistJoined(user, show, position));
    }

    /** `_offer_seat_to_next_waiter`. */
    method OfferSeatToNextWaiter(show: ShowId, s: SeatId, now: Time, hint: EntryId)
      requires s in catalog && s in seats
      modifies this`waitlist, this`seats, this`bookings, this`log
      ensures State() == OfferToNext(old(State()), show, s, now, hint)
    {
      var next := NextWaiter(waitlist, show, catalog[s].section, hint);
      if next.None? {
        return;
      }
      var e := next.value;
      var deadline := now + WAITLIST_OFFER_TTL_SECONDS;
      waitlist := waitlist[e :=
        waitlist[e].(status := Offered, offeredSeat := Some(s), offerDeadline := Some(deadline))];
      if seats[s].status != FREE {
        // The seat was taken in between: put the entry back.
        waitlist := waitlist[e := waitlist[e].(status := Waiting, offeredSeat := None, offerDeadline := None)];
        return;
      }
      seats := seats[s := SeatState(HELD, seats[s].owner, Some(deadline))];
      var b := |bookings|;
      bookings := bookings + [Booking(waitlist[e].user, show, Held, [s], deadline, catalog[s].price, false)];
      seats := seats[s := seats[s].(owner := Some(b))];
      Emit(WaitlistOffered(e, b, show, s));
      assert seats == Put(old(seats), {s}, HeldBy(b, deadline));
    }

    /** `try_offer_freed_seats`. */
    method TryOfferFreedSeats(show: ShowId, ids: seq<SeatId>, now: Time, ties: Ties)
      modifies this`waitlist, this`seats, this`bookings, this`log
      ensures State() == OfferFreed(old(State()), show, ids, now, ties)
    {
      var i := 0;
      while i < |ids|
        invariant i <= |ids|
        invariant OfferFreed(old(State()), show, ids, now, ties) == OfferFreed(State(), show, ids[i..], now, ties)
      {
        var s := ids[i];
        assert ids[i..][0] == s && ids[i..][1..] == ids[i + 1..];
        if s in catalog && s in seats && seats[s].status == FREE {
          OfferSeatToNextWaiter(show, s, now, Hint(ties, s));
        }
        i := i + 1;
      }
    }

    /** `mark_claimed_if_applicable`. */
    method MarkClaimedIfApplicable(b: BookingId)
      requires b < |bookings|
      modifies this`waitlist
      ensures waitlist == MarkClaimed(old(waitlist), Elements(bookings[b].seats))
    {
      var ids := Elements(bookings[b].seats);
      for i := 0 to |waitlist|
        invariant |waitlist| == |old(waitlist)|
        invariant forall j | 0 <= j < |waitlist| ::
          waitlist[j] == if j < i then ClaimEntry(old(waitlist)[j], ids) else old(waitlist)[j]
      {
        if waitlist[i].status == Offered && waitlist[i].offeredSeat.Some? && waitlist[i].offeredSeat.value in ids {
          waitlist := waitlist[i := waitlist[i].(status := Claimed)];
        }
      }
    }

    /** `expire_stale_offers`. */
    method ExpireStaleOffers(now: Time) returns (count: nat)
      modifies this`waitlist
      ensures State() == Waitlist.ExpireStaleOffers(old(State()), now)
      ensures count == |StaleBelow(old(waitlist), |old(waitlist)|, now)|
    {
      count := 0;
      for i := 0 to |waitlist|
        invariant |waitlist| == |old(waitlist)|
        invariant forall j | 0 <= j < |waitlist| ::
          waitlist[j] == if j < i then ExpireEntry(old(waitlist)[j], now) else old(waitlist)[j]
        invariant count == |StaleBelow(old(waitlist), i, now)|
      {
        OneMoreStale(old(waitlist), i, now);
        if StaleOffer(waitlist[i], now) {
          waitlist := waitlist[i := waitlist[i].(status := OfferExpired)];
          count := count + 1;
        }
      }
    }

    /** `expire_booking`. */
    method ExpireBooking(b: BookingId, now: Time, ties: Ties)
      requires b < |bookings|
      modifies this`waitlist, this`seats, this`bookings, this`log
      ensures State() == Bookings.ExpireBooking(old(State()), b, now, ties)
    {
      if !Live(bookings[b].status) {
        return;
      }
      var ids := bookings[b].seats;
      ReleaseHold(b, true);
      TryOfferFreedSeats(bookings[b].show, ids, now, ties);
    }

    /** `initiate_payment`. */
    method InitiatePayment(b: BookingId, now: Time, ties: Ties) returns (outcome: PayOutcome)
      requires b < |bookings|
      modifies this`waitlist, this`seats, this`bookings, this`log
      ensures PayResult(State(), outcome) == Bookings.InitiatePayment(old(State()), b, now, ties)
    {
      if bookings[b].expiresAt < now {
        ExpireBooking(b, now, ties);
        return HoldAlreadyExpired;
      }
      if !InTable(bookings[b].status, PaymentPending) {
        return PayRejected;
      }
      bookings := bookings[b := bookings[b].(status := PaymentPending)];
      Emit(BookingPaymentPending(b));
      outcome := PaymentStarted;
    }

    /** `record_payment_pending`, for the booking's total. */
    method RecordPaymentPending(b: BookingId, ref: PaymentRef)
      requires b < |bookings|
      modifies this`payments
      ensures State() == RecordPayment(old(State()), b, ref)
    {
      if ref !in payments {
        payments := payments[ref := Payment(b, Pending, bookings[b].total)];
      }
    }

    /** `_confirm_booking`. */
    method ConfirmBooking(b: BookingId, fromExpired: bool)
      requires b < |bookings|
      modifies this`seats, this`bookings, this`waitlist, this`log
      ensures State() == Confirm(old(State()), b, fromExpired)
    {
      if !fromExpired {
        seats := Put(seats, OwnedAmong(seats, bookings[b].seats, b), SoldTo(b));
      }
      bookings := bookings[b := bookings[b].(status := Confirmed, ticketed := true)];
      MarkClaimedIfApplicable(b);
      Emit(BookingConfirmed(b, bookings[b].show));
    }

    /** `_try_reacquire_seats`: returns at the first seat that is not FREE, keeping what it has sold. */
    method TryReacquireSeats(b: BookingId) returns (all: bool)
      requires b < |bookings|
      modifies this`seats
      ensures Reacquisition(seats, all) == Reacquire(old(seats), Ascending(Elements(bookings[b].seats)), b)
    {
      all := SellInOrder(Ascending(Elements(bookings[b].seats)), b);
    }

    method SellInOrder(ids: seq<SeatId>, b: BookingId) returns (all: bool)
      modifies this`seats
      ensures Reacquisition(seats, all) == Reacquire(old(seats), ids, b)
    {
      var i := 0;
      while i < |ids|
        invariant i <= |ids|
        invariant Reacquire(old(seats), ids, b) == Reacquire(seats, ids[i..], b)
      {
        var s := ids[i];
        assert ids[i..][0] == s && ids[i..][1..] == ids[i + 1..];
        if !(s in seats && seats[s].status == FREE) {
          return false;
        }
        seats := Put(seats, {s}, SoldTo(b));
        i := i + 1;
      }
      all := true;
    }

    method RefundPayment(ref: PaymentRef)
      requires ref in payments
      modifies this`payments, this`log
      ensures State() == Refund(old(State()), ref)
    {
      var b := payments[ref].booking;
      payments := payments[ref := payments[ref].(status := Refunded)];
      Emit(PaymentRefunded(ref, b));
    }

    /** `handle_webhook`. */
    method HandleWebhook(ref: PaymentRef, succeeded: bool, now: Time, ties: Ties) returns (outcome: WebhookOutcome)
      requires ref in payments ==> payments[ref].booking < |bookings|
      modifies this`seats, this`bookings, this`waitlist, this`payments, this`log
      ensures WebhookResult(State(), outcome) == Bookings.HandleWebhook(old(State()), ref, succeeded, now, ties)
    {
      if ref !in payments {
        return UnknownProviderRef;
      }
      if payments[ref].status != Pending {
        return AlreadyProcessed;
      }
      if !succeeded {
        HandleFailure(ref, now, ties);
        return PaymentFailedOutcome;
      }
      var b := payments[ref].booking;
      match bookings[b].status {
        case PaymentPending =>
          payments := payments[ref := payments[ref].(status := Succeeded)];
          ConfirmBooking(b, false);
          outcome := ConfirmedOutcome;
        case Expired =>
          outcome := HandleLateSuccess(ref);
        case Confirmed =>
          RefundPayment(ref);
          outcome := RefundedDuplicatePayment;
        case _ =>
          RefundPayment(ref);
          outcome := RefundedBookingTerminal;
      }
    }

    /** The EXPIRED branch of `handle_webhook`. */
    method HandleLateSuccess(ref: PaymentRef) returns (outcome: WebhookOutcome)
      requires ref in payments && payments[ref].booking < |bookings|
      requires bookings[payments[ref].booking].status == Expired
      modifies this`seats, this`bookings, this`waitlist, this`payments, this`log
      ensures WebhookResult(State(), outcome) == SucceedLate(old(State()), ref)
    {
      var b := payments[ref].booking;
      var reacquired := TryReacquireSeats(b);
      if reacquired {
        payments := payments[ref := payments[ref].(status := Succeeded)];
        ConfirmBooking(b, true);
        outcome := ConfirmedLateReacquired;
      } else {
        RefundPayment(ref);
        outcome := RefundedSeatsGone;
      }
    }

    /** The branch of `handle_webhook` for a payment that did not succeed. */
    method HandleFailure(ref: PaymentRef, now: Time, ties: Ties)
      requires ref in payments && payments[ref].booking < |bookings|
      modifies this`seats, this`bookings, this`waitlist, this`payments, this`log
      ensures State() == WebhookFailed(old(State()), ref, now, ties)
    {
      var b := payments[ref].booking;
      payments := payments[ref := payments[ref].(status := PaymentFailed)];
      if bookings[b].status == PaymentPending {
        var ids := bookings[b].seats;
        FreeHeldSeats(b);
        bookings := bookings[b := bookings[b].(status := Failed)];
        Emit(BookingFailed(b, bookings[b].show));
        TryOfferFreedSeats(bookings[b].show, ids, now, ties);
      }
    }

    /** `cancel_booking`. */
    method CancelBooking(b: BookingId, now: Time, ties: Ties) returns (accepted: bool)
      requires b < |bookings|
      modifies this`seats, this`bookings, this`waitlist, this`log
      ensures CancelResult(State(), accepted) == Bookings.CancelBooking(old(State()), b, now, ties)
    {
      var booking := bookings[b];
      if !Live(booking.status) && booking.status != Confirmed {
        return false;
      }
      if booking.status == Confirmed {
        seats := Put(seats, Elements(booking.seats), FREE_SEAT);
        bookings := bookings[b := booking.(status := Cancelled)];
        Emit(BookingCancelled(b, booking.show));
      } else {
        if !InTable(booking.status, Cancelled) {
          return false;
        }
        ReleaseHold(b, false);
      }
      TryOfferFreedSeats(booking.show, booking.seats, now, ties);
      accepted := true;
    }

    /** `sweep_once` on the candidates its query returned; the clock stands still during a sweep. */
    method SweepOnce(candidates: seq<BookingId>, now: Time, ties: Ties) returns (expired: nat)
      modifies this`seats, this`bookings, this`waitlist, this`log
      ensures State() == Expiry.SweepOnce(old(State()), candidates, now, ties)
      ensures expired == ExpiredCount(old(State()), candidates, now, ties)
    {
      expired := 0;
      var i := 0;
      while i < |candidates|
        invariant i <= |candidates|
        invariant ExpireCandidates(old(State()), candidates, now, ties) ==
          ExpireCandidates(State(), candidates[i..], now, ties)
        invariant ExpiredCount(old(State()), candidates, now, ties)
          == expired + ExpiredCount(State(), candidates[i..], now, ties)
      {
        var b := candidates[i];
        assert candidates[i..][0] == b && candidates[i..][1..] == candidates[i + 1..];
        if b < |bookings| && bookings[b].expiresAt < now && Live(bookings[b].status) {
          ExpireBooking(b, now, ties);
          expired := expired + 1;
        }
        i := i + 1;
      }
      var stale := ExpireStaleOffers(now);
    }
  }
}
