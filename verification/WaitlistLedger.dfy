/** Every offer in the log is one booking for one entry, and every entry that stopped waiting has one. */
module WaitlistLedger {
  import opened Commons
  import opened Records
  import opened Waitlist
  import opened Holds
  import opened Bookings
  import opened System

  /** The `waitlist.offered` rows of the log. */
  function Offers(log: seq<Event>): (r: seq<Event>)
    ensures forall i | 0 <= i < |r| :: r[i].WaitlistOffered?
    decreases |log|
  {
    if log == [] then [] else
      var last := log[|log| - 1];
      Offers(log[..|log| - 1]) + if last.WaitlistOffered? then [last] else []
  }

  lemma OffersAppend(log: seq<Event>, e: Event)
    ensures Offers(log + [e]) == Offers(log) + if e.WaitlistOffered? then [e] else []
  {
    assert (log + [e])[..|log|] == log;
  }

  /** The offer made a one-seat booking for the entry's user at the seat's price. */
  predicate OfferOk(catalog: map<SeatId, SeatInfo>, bookings: seq<Booking>, waitlist: seq<Entry>, e: Event)
    requires e.WaitlistOffered?
  {
    && e.entry < |waitlist| && waitlist[e.entry].status != Waiting
    && e.booking < |bookings| && e.seat in catalog
    && bookings[e.booking].seats == [e.seat]
    && bookings[e.booking].user == waitlist[e.entry].user
    && bookings[e.booking].show == e.show == waitlist[e.entry].show
    && bookings[e.booking].total == catalog[e.seat].price
    && catalog[e.seat].section == waitlist[e.entry].section
    && waitlist[e.entry].offeredSeat == Some(e.seat)
    && waitlist[e.entry].offerDeadline == Some(bookings[e.booking].expiresAt)
  }

  ghost predicate LedgerOk(
      catalog: map<SeatId, SeatInfo>, bookings: seq<Booking>, waitlist: seq<Entry>, log: seq<Event>) {
    var offers := Offers(log);
    && (forall i | 0 <= i < |offers| :: OfferOk(catalog, bookings, waitlist, offers[i]))
    && (forall i, j | 0 <= i < j < |offers| ::
      offers[i].entry != offers[j].entry && offers[i].booking != offers[j].booking)
    && (forall e | 0 <= e < |waitlist| && waitlist[e].status != Waiting ::
         exists i :: 0 <= i < |offers| && offers[i].entry == e)
  }

  /** Bookings change status and ticket only; new ones may be added. */
  ghost predicate SameTerms(before: seq<Booking>, after: seq<Booking>) {
    && |before| <= |after|
    && forall b | 0 <= b < |before| ::
         after[b] == before[b].(status := after[b].status, ticketed := after[b].ticketed)
  }

  /** What may happen to one waitlist entry in one transaction. */
  predicate EntryEdge(before: Entry, after: Entry) {
    || after == before
    || (before.status == Waiting
        && after == before.(status := Offered, offeredSeat := after.offeredSeat, offerDeadline := after.offerDeadline))
    || (before.status == Offered && (after == before.(status := Claimed) || after == before.(status := OfferExpired)))
  }

  ghost predicate EntriesMove(before: seq<Entry>, after: seq<Entry>) {
    && |before| <= |after|
    && (forall i | 0 <= i < |before| :: EntryEdge(before[i], after[i]))
    && (forall i | |before| <= i < |after| :: after[i].status == Waiting)
  }

  /** Nobody stops or starts waiting, except new entries. */
  ghost predicate SameWaiting(before: seq<Entry>, after: seq<Entry>) {
    EntriesMove(before, after) &&
    forall i | 0 <= i < |before| :: before[i].status == Waiting <==> after[i].status == Waiting
  }

  lemma LedgerFrame(
      catalog: map<SeatId, SeatInfo>, bookings: seq<Booking>, waitlist: seq<Entry>, log: seq<Event>,
      bookings': seq<Booking>, waitlist': seq<Entry>, log': seq<Event>)
    requires LedgerOk(catalog, bookings, waitlist, log)
    requires SameTerms(bookings, bookings') && SameWaiting(waitlist, waitlist') && Offers(log') == Offers(log)
    ensures LedgerOk(catalog, bookings', waitlist', log')
  {
    var offers := Offers(log);
    forall i | 0 <= i < |offers| ensures OfferOk(catalog, bookings', waitlist', offers[i]) {
      assert OfferOk(catalog, bookings, waitlist, offers[i]);
      assert EntryEdge(waitlist[offers[i].entry], waitlist'[offers[i].entry]);
    }
    forall e | 0 <= e < |waitlist'| && waitlist'[e].status != Waiting
      ensures exists i :: 0 <= i < |offers| && offers[i].entry == e
    {
      assert e < |waitlist| && waitlist[e].status != Waiting;
    }
  }

  lemma OfferKeeps(db: Db, show: ShowId, s: SeatId, e: EntryId, now: Time)
    requires LedgerOk(db.catalog, db.bookings, db.waitlist, db.log)
    requires Known(db, s) && e < |db.waitlist| && WaitingFor(db.waitlist[e], show, db.catalog[s].section)
    ensures var after := Offer(db, show, s, e, now);
      && LedgerOk(after.catalog, after.bookings, after.waitlist, after.log)
      && Offers(after.log) == Offers(db.log) + [WaitlistOffered(e, |db.bookings|, show, s)]
  {
    var after := Offer(db, show, s, e, now);
    var offers := Offers(db.log);
    var made := WaitlistOffered(e, |db.bookings|, show, s);
    OffersAppend(db.log, made);
    forall i | 0 <= i < |offers|
      ensures OfferOk(after.catalog, after.bookings, after.waitlist, offers[i])
      ensures offers[i].entry != e && offers[i].booking != |db.bookings|
    {
      EarlierOfferOk(db, show, s, e, now, offers[i]);
    }
    LedgerGrows(db.catalog, db.bookings, db.waitlist, db.log, after.bookings, after.waitlist, after.log, made);
  }

  lemma LedgerGrows(
      catalog: map<SeatId, SeatInfo>, bookings: seq<Booking>, waitlist: seq<Entry>, log: seq<Event>,
      bookings': seq<Booking>, waitlist': seq<Entry>, log': seq<Event>, made: Event)
    requires LedgerOk(catalog, bookings, waitlist, log)
    requires made.WaitlistOffered? && Offers(log') == Offers(log) + [made] &&
      OfferOk(catalog, bookings', waitlist', made)
    requires forall i | 0 <= i < |Offers(log)| :: OfferOk(catalog, bookings', waitlist', Offers(log)[i])
    requires forall i | 0 <= i < |Offers(log)| ::
      Offers(log)[i].entry != made.entry && Offers(log)[i].booking != made.booking
    requires |waitlist'| == |waitlist| && forall f | 0 <= f < |waitlist| && f != made.entry ::
      waitlist'[f] == waitlist[f]
    ensures LedgerOk(catalog, bookings', waitlist', log')
  {
    StillListed(waitlist, waitlist', Offers(log), made, made.entry);
  }

  lemma EarlierOfferOk(db: Db, show: ShowId, s: SeatId, e: EntryId, now: Time, offer: Event)
    requires offer.WaitlistOffered? && OfferOk(db.catalog, db.bookings, db.waitlist, offer)
    requires Known(db, s) && e < |db.waitlist| && WaitingFor(db.waitlist[e], show, db.catalog[s].section)
    ensures var after := Offer(db, show, s, e, now);
      OfferOk(after.catalog, after.bookings, after.waitlist, offer) &&
      offer.entry != e && offer.booking != |db.bookings|
  {
  }

  lemma StillListed(waitlist: seq<Entry>, after: seq<Entry>, offers: seq<Event>, made: Event, e: EntryId)
    requires forall i | 0 <= i < |offers| :: offers[i].WaitlistOffered?
    requires forall f | 0 <= f < |waitlist| && waitlist[f].status != Waiting ::
      exists i :: 0 <= i < |offers| && offers[i].entry == f
    requires made.WaitlistOffered? && made.entry == e
    requires |after| == |waitlist| && forall f | 0 <= f < |waitlist| && f != e :: after[f] == waitlist[f]
    ensures forall f | 0 <= f < |after| && after[f].status != Waiting ::
      exists i :: 0 <= i < |offers + [made]| && (offers + [made])[i].entry == f
  {
    var offers' := offers + [made];
    forall f | 0 <= f < |after| && after[f].status != Waiting
      ensures exists i :: 0 <= i < |offers'| && offers'[i].entry == f
    {
      if f == e {
        assert offers'[|offers|].entry == e;
      } else {
        var i :| 0 <= i < |offers| && offers[i].entry == f;
        assert offers'[i].entry == f;
      }
    }
  }

  /** A release moves entries from WAITING to OFFERED and does nothing else to the waitlist. */
  lemma {:induction false} OfferFreedOnlyOffers(db: Db, show: ShowId, ids: seq<SeatId>, now: Time, ties: Ties)
    ensures var after := OfferFreed(db, show, ids, now, ties).waitlist;
      && |after| == |db.waitlist|
      && forall i | 0 <= i < |db.waitlist| :: after[i] == db.waitlist[i]
           || (db.waitlist[i].status == Waiting && after[i].status == Offered && EntryEdge(db.waitlist[i], after[i]))
    decreases |ids|
  {
    if ids != [] {
      OfferFreedOnlyOffers(OfferOne(db, show, ids[0], now, ties), show, ids[1..], now, ties);
    }
  }

  lemma OfferOneKeeps(db: Db, show: ShowId, s: SeatId, now: Time, ties: Ties)
    requires LedgerOk(db.catalog, db.bookings, db.waitlist, db.log)
    ensures var one := OfferOne(db, show, s, now, ties);
      && LedgerOk(one.catalog, one.bookings, one.waitlist, one.log)
      && |one.bookings| - |db.bookings| == |Offers(one.log)| - |Offers(db.log)|
  {
    if Known(db, s) && db.seats[s].status == FREE {
      var next := NextWaiter(db.waitlist, show, db.catalog[s].section, Hint(ties, s));
      if next.Some? {
        OfferKeeps(db, show, s, next.value, now);
      }
    }
  }

  /** A release creates exactly as many bookings as it makes offers. */
  lemma {:induction false} OfferFreedKeeps(db: Db, show: ShowId, ids: seq<SeatId>, now: Time, ties: Ties)
    requires LedgerOk(db.catalog, db.bookings, db.waitlist, db.log)
    ensures var after := OfferFreed(db, show, ids, now, ties);
      && LedgerOk(after.catalog, after.bookings, after.waitlist, after.log)
      && |after.bookings| - |db.bookings| == |Offers(after.log)| - |Offers(db.log)|
    decreases |ids|
  {
    if ids != [] {
      OfferOneKeeps(db, show, ids[0], now, ties);
      OfferFreedKeeps(OfferOne(db, show, ids[0], now, ties), show, ids[1..], now, ties);
    }
  }

  /** What every transaction keeps: the ledger, the terms of bookings, and the order of entry statuses. */
  ghost predicate Sound(db: Db, after: Db) {
    && LedgerOk(after.catalog, after.bookings, after.waitlist, after.log)
    && SameTerms(db.bookings, after.bookings)
    && EntriesMove(db.waitlist, after.waitlist)
  }

  /** Re-statusing a booking, then offering what it frees. */
  lemma RestatusThenOffer(db: Db, moved: Db, ids: seq<SeatId>, show: ShowId, now: Time, ties: Ties)
    requires LedgerOk(db.catalog, db.bookings, db.waitlist, db.log)
    requires moved.catalog == db.catalog && moved.waitlist == db.waitlist
    requires SameTerms(db.bookings, moved.bookings) && Offers(moved.log) == Offers(db.log)
    ensures Sound(db, OfferFreed(moved, show, ids, now, ties))
  {
    LedgerFrame(db.catalog, db.bookings, db.waitlist, db.log, moved.bookings, moved.waitlist, moved.log);
    OfferFreedKeeps(moved, show, ids, now, ties);
    OfferFreedOnlyOffers(moved, show, ids, now, ties);
    OfferFreedFrame(moved, show, ids, now, ties);
  }

  lemma ExpireKeeps(db: Db, b: BookingId, now: Time, ties: Ties)
    requires LedgerOk(db.catalog, db.bookings, db.waitlist, db.log) && b < |db.bookings|
    ensures Sound(db, ExpireBooking(db, b, now, ties))
  {
    var booking := db.bookings[b];
    OffersAppend(db.log, BookingExpired(b, booking.show));
    if Live(booking.status) {
      RestatusThenOffer(db, ReleaseHold(db, b, true), booking.seats, booking.show, now, ties);
    }
  }

  lemma PayKeeps(db: Db, b: BookingId, now: Time, ties: Ties)
    requires LedgerOk(db.catalog, db.bookings, db.waitlist, db.log) && b < |db.bookings|
    ensures Sound(db, InitiatePayment(db, b, now, ties).db)
  {
    ExpireKeeps(db, b, now, ties);
    var paying := SetStatus(db, b, PaymentPending, BookingPaymentPending(b));
    OffersAppend(db.log, BookingPaymentPending(b));
    LedgerFrame(db.catalog, db.bookings, db.waitlist, db.log, paying.bookings, paying.waitlist, paying.log);
  }

  lemma CancelKeeps(db: Db, b: BookingId, now: Time, ties: Ties)
    requires LedgerOk(db.catalog, db.bookings, db.waitlist, db.log) && b < |db.bookings|
    ensures Sound(db, CancelBooking(db, b, now, ties).db)
  {
    var booking := db.bookings[b];
    var event := BookingCancelled(b, booking.show);
    OffersAppend(db.log, event);
    if booking.status == Confirmed {
      var freed := db.(seats := Put(db.seats, Elements(booking.seats), FREE_SEAT));
      RestatusThenOffer(db, SetStatus(freed, b, Cancelled, event), booking.seats, booking.show, now, ties);
    } else if booking.status == Held {
      RestatusThenOffer(db, ReleaseHold(db, b, false), booking.seats, booking.show, now, ties);
    } else {
      assert CancelBooking(db, b, now, ties).db == db;
    }
  }

  lemma RefundSound(db: Db, after: Db, ref: PaymentRef)
    requires LedgerOk(db.catalog, db.bookings, db.waitlist, db.log)
    requires after.catalog == db.catalog && after.bookings == db.bookings && after.waitlist == db.waitlist
    requires ref in db.payments && after.log == db.log + [PaymentRefunded(ref, db.payments[ref].booking)]
    ensures Sound(db, after)
  {
    OffersAppend(db.log, PaymentRefunded(ref, db.payments[ref].booking));
    LedgerFrame(db.catalog, db.bookings, db.waitlist, db.log, after.bookings, after.waitlist, after.log);
  }

  lemma TicketSound(db: Db, after: Db, b: BookingId)
    requires LedgerOk(db.catalog, db.bookings, db.waitlist, db.log) && b < |db.bookings|
    requires after.catalog == db.catalog
    requires after.bookings == Ticket(db, b).bookings && after.waitlist == Ticket(db, b).waitlist &&
      after.log == Ticket(db, b).log
    ensures Sound(db, after)
  {
    OffersAppend(db.log, BookingConfirmed(b, db.bookings[b].show));
    LedgerFrame(db.catalog, db.bookings, db.waitlist, db.log, after.bookings, after.waitlist, after.log);
  }

  lemma WebhookSucceededKeeps(db: Db, ref: PaymentRef)
    requires LedgerOk(db.catalog, db.bookings, db.waitlist, db.log)
    requires ref in db.payments && db.payments[ref].booking < |db.bookings|
    ensures Sound(db, WebhookSucceeded(db, ref).db)
  {
    var b := db.payments[ref].booking;
    var after := WebhookSucceeded(db, ref).db;
    match db.bookings[b].status
    case PaymentPending => TicketSound(db, after, b);
    case Expired =>
      if Reacquire(db.seats, Ascending(Elements(db.bookings[b].seats)), b).all {
        TicketSound(db, after, b);
      } else {
        RefundSound(db, after, ref);
      }
    case _ => RefundSound(db, after, ref);
  }

  lemma WebhookFailedKeeps(db: Db, ref: PaymentRef, now: Time, ties: Ties)
    requires LedgerOk(db.catalog, db.bookings, db.waitlist, db.log)
    requires ref in db.payments && db.payments[ref].booking < |db.bookings|
    ensures Sound(db, WebhookFailed(db, ref, now, ties))
  {
    var b := db.payments[ref].booking;
    var booking := db.bookings[b];
    var event := BookingFailed(b, booking.show);
    OffersAppend(db.log, event);
    var freed := FreeHeldSeats(SettlePayment(db, ref, PaymentFailed), b);
    RestatusThenOffer(db, SetStatus(freed, b, Failed, event), booking.seats, booking.show, now, ties);
  }

  lemma HoldKeeps(db: Db, user: UserId, show: ShowId, request: seq<SeatId>, now: Time)
    requires LedgerOk(db.catalog, db.bookings, db.waitlist, db.log)
    ensures Sound(db, CreateHold(db, user, show, request, now).db)
  {
    var result := CreateHold(db, user, show, request, now);
    if result.outcome.HoldCreated? {
      var after := CommitHold(db, user, show, RequestedRows(db, show, request), now);
      OffersAppend(db.log, BookingHeld(|db.bookings|, show));
      LedgerFrame(db.catalog, db.bookings, db.waitlist, db.log, after.bookings, after.waitlist, after.log);
    }
  }

  lemma WebhookKeeps(db: Db, ref: PaymentRef, succeeded: bool, now: Time, ties: Ties)
    requires LedgerOk(db.catalog, db.bookings, db.waitlist, db.log)
    ensures Sound(db, Apply(db, WebhookStep(ref, succeeded, now, ties)))
  {
    if ref in db.payments && db.payments[ref].booking < |db.bookings| && db.payments[ref].status == Pending {
      if succeeded { WebhookSucceededKeeps(db, ref); } else { WebhookFailedKeeps(db, ref, now, ties); }
    }
  }

  lemma RecordKeeps(db: Db, b: BookingId, ref: PaymentRef)
    requires LedgerOk(db.catalog, db.bookings, db.waitlist, db.log)
    ensures Sound(db, Apply(db, RecordStep(b, ref)))
  {
  }

  lemma JoinKeeps(db: Db, user: UserId, show: ShowId, section: SectionId)
    requires LedgerOk(db.catalog, db.bookings, db.waitlist, db.log)
    ensures Sound(db, Join(db, user, show, section))
  {
    var after := Join(db, user, show, section);
    OffersAppend(db.log, WaitlistJoined(user, show, |Waiters(db.waitlist, show, section)| + 1));
    LedgerFrame(db.catalog, db.bookings, db.waitlist, db.log, after.bookings, after.waitlist, after.log);
  }

  lemma LapsesKeep(db: Db, now: Time)
    requires LedgerOk(db.catalog, db.bookings, db.waitlist, db.log)
    ensures Sound(db, ExpireStaleOffers(db, now))
  {
    var after := ExpireStaleOffers(db, now);
    LedgerFrame(db.catalog, db.bookings, db.waitlist, db.log, after.bookings, after.waitlist, after.log);
  }

  lemma ApplySound(db: Db, step: Step)
    requires LedgerOk(db.catalog, db.bookings, db.waitlist, db.log)
    ensures Sound(db, Apply(db, step))
  {
    match step
    case HoldStep(user, show, request, now) => HoldKeeps(db, user, show, request, now);
    case PayStep(b, now, ties) => if b < |db.bookings| { PayKeeps(db, b, now, ties); }
    case RecordStep(b, ref) => RecordKeeps(db, b, ref);
    case WebhookStep(ref, succeeded, now, ties) => WebhookKeeps(db, ref, succeeded, now, ties);
    case SweepStep(b, now, ties) => if b < |db.bookings| { ExpireKeeps(db, b, now, ties); }
    case CancelStep(b, now, ties) => if b < |db.bookings| { CancelKeeps(db, b, now, ties); }
    case JoinStep(user, show, section) => JoinKeeps(db, user, show, section);
    case ExpireOffersStep(now) => LapsesKeep(db, now);
  }

  lemma {:induction false} Reachable(db: Db, steps: seq<Step>)
    requires Initial(db)
    ensures var now := Run(db, steps); LedgerOk(now.catalog, now.bookings, now.waitlist, now.log)
    decreases |steps|
  {
    if steps != [] {
      Reachable(db, steps[..|steps| - 1]);
      ApplySound(Run(db, steps[..|steps| - 1]), steps[|steps| - 1]);
    }
  }

  function OfferedEntries(offers: seq<Event>): (r: seq<EntryId>)
    requires forall i | 0 <= i < |offers| :: offers[i].WaitlistOffered?
    ensures |r| == |offers| && forall i | 0 <= i < |r| :: r[i] == offers[i].entry
  {
    seq(|offers|, i requires 0 <= i < |offers| => offers[i].entry)
  }

  function LeftWaiting(waitlist: seq<Entry>): set<EntryId> {
    set e: EntryId | e < |waitlist| && waitlist[e].status != Waiting
  }

  lemma EntryHasOffer(offers: seq<Event>, e: EntryId)
    requires forall i | 0 <= i < |offers| :: offers[i].WaitlistOffered?
    requires exists i :: 0 <= i < |offers| && offers[i].entry == e
    ensures e in OfferedEntries(offers)
  {
    var i :| 0 <= i < |offers| && offers[i].entry == e;
    assert OfferedEntries(offers)[i] == e;
  }

  lemma LedgerCounts(catalog: map<SeatId, SeatInfo>, bookings: seq<Booking>, waitlist: seq<Entry>, log: seq<Event>)
    requires LedgerOk(catalog, bookings, waitlist, log)
    ensures |Offers(log)| == |LeftWaiting(waitlist)|
  {
    var offers := Offers(log);
    var entries := OfferedEntries(offers);
    assert LeftWaiting(waitlist) == Elements(entries) by {
      forall e | e in LeftWaiting(waitlist) ensures e in entries {
        EntryHasOffer(offers, e);
      }
      forall i | 0 <= i < |entries| ensures entries[i] in LeftWaiting(waitlist) {
        assert OfferOk(catalog, bookings, waitlist, offers[i]);
      }
    }
    DistinctCardinality(entries);
  }

  /** In every reachable state the bookings created by offers number exactly the entries that
      no longer wait: one one-seat booking each, for that entry's user at that seat's price. */
  lemma OffersMatchEntries(db: Db, steps: seq<Step>)
    requires Initial(db)
    ensures var now := Run(db, steps);
      && |Offers(now.log)| == |LeftWaiting(now.waitlist)|
      && forall i | 0 <= i < |Offers(now.log)| :: OfferOk(now.catalog, now.bookings, now.waitlist, Offers(now.log)[i])
  {
    Reachable(db, steps);
    var now := Run(db, steps);
    LedgerCounts(now.catalog, now.bookings, now.waitlist, now.log);
  }
}
