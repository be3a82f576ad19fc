/** waitlist_service: joining, offering freed seats, claiming and expiring offers. */
module Waitlist {
  import opened Commons
  import opened Records

  predicate WaitingFor(e: Entry, show: ShowId, section: SectionId) {
    e.status == Waiting && e.show == show && e.section == section
  }

  /** The ids of the entries waiting for a section of a show. */
  function Waiters(w: seq<Entry>, show: ShowId, section: SectionId): set<EntryId> {
    set i: EntryId | i < |w| && WaitingFor(w[i], show, section)
  }

  /** Entry `i` may be returned by `... ORDER BY position ASC LIMIT 1`. */
  predicate IsNext(w: seq<Entry>, show: ShowId, section: SectionId, i: EntryId) {
    i < |w| && WaitingFor(w[i], show, section)
    && forall j | 0 <= j < |w| && WaitingFor(w[j], show, section) :: w[i].position <= w[j].position
  }

  function FirstLeast(w: seq<Entry>, show: ShowId, section: SectionId, n: nat): (r: Option<EntryId>)
    requires n <= |w|
    ensures r.None? ==> forall j | 0 <= j < n :: !WaitingFor(w[j], show, section)
    ensures r.Some? ==> r.value < n && WaitingFor(w[r.value], show, section)
    ensures r.Some? ==> forall j | 0 <= j < n && WaitingFor(w[j], show, section) :: w[r.value].position <= w[j].position
  {
    if n == 0 then None else
      var r := FirstLeast(w, show, section, n - 1);
      if WaitingFor(w[n - 1], show, section) && (r.None? || w[n - 1].position < w[r.value].position)
      then Some(n - 1) else r
  }

  /** The entry that the database picks. Positions can tie, and then the database may
      return any of the least ones: `hint` stands for that choice. */
  function NextWaiter(w: seq<Entry>, show: ShowId, section: SectionId, hint: EntryId): (r: Option<EntryId>)
    ensures r.Some? ==> IsNext(w, show, section, r.value)
    ensures r.None? <==> Waiters(w, show, section) == {}
    ensures IsNext(w, show, section, hint) ==> r == Some(hint)
  {
    if IsNext(w, show, section, hint) then
      assert hint in Waiters(w, show, section);
      Some(hint)
    else
      var r := FirstLeast(w, show, section, |w|);
      assert r.Some? ==> r.value in Waiters(w, show, section);
      r
  }

  function Join(db: Db, user: UserId, show: ShowId, section: SectionId): Db {
    var position := |Waiters(db.waitlist, show, section)| + 1;
    db.(waitlist := db.waitlist + [Entry(show, section, user, position, Waiting, None, None)],
        log := db.log + [WaitlistJoined(user, show, position)])
  }

  /** How the database breaks position ties, seat by seat. */
  type Ties = map<SeatId, EntryId>

  function Hint(ties: Ties, s: SeatId): EntryId {
    if s in ties then ties[s] else 0
  }

  /** The offer to entry `e` of seat `s`: hold the seat for a new one-seat booking. */
  function Offer(db: Db, show: ShowId, s: SeatId, e: EntryId, now: Time): Db
    requires Known(db, s) && e < |db.waitlist|
  {
    var b := |db.bookings|;
    var deadline := now + WAITLIST_OFFER_TTL_SECONDS;
    var entry := db.waitlist[e];
    db.(waitlist := db.waitlist[e :=
          entry.(status := Offered, offeredSeat := Some(s), offerDeadline := Some(deadline))],
        seats := Put(db.seats, {s}, HeldBy(b, deadline)),
        bookings := db.bookings + [Booking(entry.user, show, Held, [s], deadline, db.catalog[s].price, false)],
        log := db.log + [WaitlistOffered(e, b, show, s)])
  }

  /** `_offer_seat_to_next_waiter`, including the branch that puts the entry back. */
  function OfferToNext(db: Db, show: ShowId, s: SeatId, now: Time, hint: EntryId): Db
    requires Known(db, s)
  {
    match NextWaiter(db.waitlist, show, db.catalog[s].section, hint)
    case None => db
    case Some(e) =>
      if db.seats[s].status == FREE then Offer(db, show, s, e, now)
      else db.(waitlist := db.waitlist[e :=
        db.waitlist[e].(status := Waiting, offeredSeat := None, offerDeadline := None)])
  }

  /** One iteration of the loop in `try_offer_freed_seats`. */
  function OfferOne(db: Db, show: ShowId, s: SeatId, now: Time, ties: Ties): (r: Db)
    ensures SameFloor(db, r) && |r.waitlist| == |db.waitlist|
  {
    if Known(db, s) && db.seats[s].status == FREE then OfferToNext(db, show, s, now, Hint(ties, s)) else db
  }

  /** `try_offer_freed_seats`. */
  function OfferFreed(db: Db, show: ShowId, ids: seq<SeatId>, now: Time, ties: Ties): (r: Db)
    ensures SameFloor(db, r) && r.payments == db.payments && |r.waitlist| == |db.waitlist|
    decreases |ids|
  {
    if ids == [] then db
    else OfferFreed(OfferOne(db, show, ids[0], now, ties), show, ids[1..], now, ties)
  }

  function ClaimEntry(e: Entry, ids: set<SeatId>): Entry {
    if e.status == Offered && e.offeredSeat.Some? && e.offeredSeat.value in ids then e.(status := Claimed) else e
  }

  /** `mark_claimed_if_applicable`: matched on the seat alone. */
  function MarkClaimed(w: seq<Entry>, ids: set<SeatId>): (r: seq<Entry>)
    ensures |r| == |w| && forall i | 0 <= i < |w| :: r[i] == ClaimEntry(w[i], ids)
  {
    seq(|w|, i requires 0 <= i < |w| => ClaimEntry(w[i], ids))
  }

  predicate StaleOffer(e: Entry, now: Time) {
    e.status == Offered && e.offerDeadline.Some? && e.offerDeadline.value < now
  }

  function ExpireEntry(e: Entry, now: Time): Entry {
    if StaleOffer(e, now) then e.(status := OfferExpired) else e
  }

  /** `expire_stale_offers`. */
  function ExpireStaleOffers(db: Db, now: Time): (r: Db)
    ensures r == db.(waitlist := r.waitlist) && |r.waitlist| == |db.waitlist|
    ensures forall i | 0 <= i < |r.waitlist| :: r.waitlist[i] == ExpireEntry(db.waitlist[i], now)
  {
    db.(waitlist := seq(|db.waitlist|, i requires 0 <= i < |db.waitlist| => ExpireEntry(db.waitlist[i], now)))
  }

  /** What a round of offers leaves alone: payments, existing bookings and seats that are not FREE.
      Whatever it changes belongs to a new HELD booking with the offer deadline. */
  lemma {:induction false} OfferFreedFrame(db: Db, show: ShowId, ids: seq<SeatId>, now: Time, ties: Ties)
    ensures var after := OfferFreed(db, show, ids, now, ties);
      && after.payments == db.payments
      && |db.bookings| <= |after.bookings| && |after.waitlist| == |db.waitlist|
      && (forall b | 0 <= b < |db.bookings| :: after.bookings[b] == db.bookings[b])
      && (forall b | |db.bookings| <= b < |after.bookings| ::
           after.bookings[b].status == Held && after.bookings[b].expiresAt == now + WAITLIST_OFFER_TTL_SECONDS)
      && (forall s | s in db.seats :: after.seats[s] == db.seats[s]
           || (db.seats[s].status == FREE && after.seats[s].status == HELD))
    decreases |ids|
  {
    if ids != [] {
      OfferFreedFrame(OfferOne(db, show, ids[0], now, ties), show, ids[1..], now, ties);
    }
  }
}
