/** Positions are COUNT(WAITING) + 1: when they follow the order of joining, and when they do not. */
module WaitlistOrder {
  import opened Commons
  import opened Records
  import opened Waitlist
  import opened Holds
  import opened Bookings
  import opened Expiry
  import opened System
  import opened Scenarios
  import Ledger = WaitlistLedger

  predicate OfSection(e: Entry, show: ShowId, section: SectionId) {
    e.show == show && e.section == section
  }

  /** Among those waiting for a section, earlier joiners have smaller positions. */
  ghost predicate InJoinOrder(w: seq<Entry>, show: ShowId, section: SectionId) {
    forall i, j | 0 <= i < j < |w| && WaitingFor(w[i], show, section) && WaitingFor(w[j], show, section) ::
      w[i].position < w[j].position
  }

  /** What a caller can look up before joining: nobody waits, or position 1 still does. */
  predicate JoinFits(w: seq<Entry>, show: ShowId, section: SectionId) {
    Waiters(w, show, section) == {} || exists i :: i in Waiters(w, show, section) && w[i].position == 1
  }

  function EarlierWaiters(w: seq<Entry>, show: ShowId, section: SectionId, i: EntryId): set<EntryId> {
    set j | j in Waiters(w, show, section) && j < i
  }

  /** The waiting positions are k + 1, k + 2, ... in the order of joining. */
  ghost predicate Places(w: seq<Entry>, show: ShowId, section: SectionId, k: nat) {
    forall i | i in Waiters(w, show, section) :: w[i].position == k + 1 + |EarlierWaiters(w, show, section, i)|
  }

  lemma PlacesInOrder(w: seq<Entry>, show: ShowId, section: SectionId, k: nat)
    requires Places(w, show, section, k)
    ensures InJoinOrder(w, show, section)
  {
    forall i, j | 0 <= i < j < |w| && WaitingFor(w[i], show, section) && WaitingFor(w[j], show, section)
      ensures w[i].position < w[j].position
    {
      assert i in EarlierWaiters(w, show, section, j) && i !in EarlierWaiters(w, show, section, i);
      SubsetSize(EarlierWaiters(w, show, section, i), EarlierWaiters(w, show, section, j));
    }
  }

  /** The first waiter stands at k + 1 and nobody stands before it; the last stands at k + |W|. */
  lemma FirstAndLast(w: seq<Entry>, show: ShowId, section: SectionId, k: nat) returns (first: EntryId, last: EntryId)
    requires Places(w, show, section, k) && Waiters(w, show, section) != {}
    ensures first in Waiters(w, show, section) && w[first].position == k + 1
    ensures last in Waiters(w, show, section) && w[last].position == k + |Waiters(w, show, section)|
  {
    var all := Waiters(w, show, section);
    first := Minimum(all);
    assert EarlierWaiters(w, show, section, first) == {};
    last := Greatest(all);
    assert all == EarlierWaiters(w, show, section, last) + {last};
  }

  /** In place, the guard of a join says that position k + 1 is 1. */
  lemma FitsMeansFromOne(w: seq<Entry>, show: ShowId, section: SectionId, k: nat)
    requires Places(w, show, section, k)
    ensures JoinFits(w, show, section) <==> Waiters(w, show, section) == {} || k == 0
  {
    if Waiters(w, show, section) != {} {
      var first, last := FirstAndLast(w, show, section, k);
    }
  }

  lemma JoinWaiters(db: Db, user: UserId, show: ShowId, section: SectionId)
    ensures var w := db.waitlist;
      var after := Join(db, user, show, section).waitlist;
      && |after| == |w| + 1 && Waiters(after, show, section) == Waiters(w, show, section) + {|w|}
      && (forall i | 0 <= i < |w| :: after[i] == w[i] &&
           EarlierWaiters(after, show, section, i) == EarlierWaiters(w, show, section, i))
      && EarlierWaiters(after, show, section, |w|) == Waiters(w, show, section)
      && after[|w|].position == |Waiters(w, show, section)| + 1
  {
    var w := db.waitlist;
    var after := Join(db, user, show, section).waitlist;
    assert forall i | 0 <= i < |w| :: after[i] == w[i];
    forall i | 0 <= i < |w| ensures EarlierWaiters(after, show, section, i) == EarlierWaiters(w, show, section, i) {
    }
  }

  /** Where a line starts once somebody has joined it. */
  function Base(w: seq<Entry>, show: ShowId, section: SectionId, k: nat): nat {
    if Waiters(w, show, section) == {} then 0 else k
  }

  /** Joining a line that is in place: the newcomer goes behind everyone waiting exactly when nobody waits or
      position 1 still does. Then the line stays in place; otherwise its order is broken. */
  lemma JoinGoesLastIff(db: Db, user: UserId, show: ShowId, section: SectionId, k: nat)
    requires Places(db.waitlist, show, section, k)
    ensures var w := db.waitlist;
      var after := Join(db, user, show, section).waitlist;
      && |after| == |w| + 1
      && (JoinFits(w, show, section) <==>
           forall i | i in Waiters(w, show, section) :: after[i].position < after[|w|].position)
      && (JoinFits(w, show, section) ==> Places(after, show, section, Base(w, show, section, k)))
      && (!JoinFits(w, show, section) ==> !InJoinOrder(after, show, section))
  {
    var w := db.waitlist;
    JoinWaiters(db, user, show, section);
    FitsMeansFromOne(w, show, section, k);
    if Waiters(w, show, section) != {} {
      var first, last := FirstAndLast(w, show, section, k);
      if k == 0 {
        forall i | i in Waiters(w, show, section) ensures w[i].position < |Waiters(w, show, section)| + 1 {
          assert i !in EarlierWaiters(w, show, section, i);
          SubsetSize(EarlierWaiters(w, show, section, i), Waiters(w, show, section));
        }
      }
    }
  }

  /** Nobody has been offered a seat of the section yet. */
  predicate NoOfferYet(w: seq<Entry>, show: ShowId, section: SectionId) {
    forall i | 0 <= i < |w| && OfSection(w[i], show, section) :: w[i].status == Waiting
  }

  /** Whoever joined a section before somebody that has been offered a seat of it, has been offered one too. */
  ghost predicate OfferedFirst(w: seq<Entry>, show: ShowId, section: SectionId) {
    forall i, j | 0 <= i < j < |w| && OfSection(w[i], show, section) && OfSection(w[j], show, section) ::
      w[j].status != Waiting ==> w[i].status != Waiting
  }

  predicate IsOfferIn(w: seq<Entry>, offer: Event, show: ShowId, section: SectionId) {
    offer.WaitlistOffered? && offer.entry < |w| && OfSection(w[offer.entry], show, section)
  }

  /** The offers of a section were made in the order of joining, within one release as across transactions. */
  ghost predicate OffersInOrder(w: seq<Entry>, log: seq<Event>, show: ShowId, section: SectionId) {
    var offers := Ledger.Offers(log);
    forall i, j | 0 <= i < j < |offers| && IsOfferIn(w, offers[i], show, section) &&
      IsOfferIn(w, offers[j], show, section) ::
      offers[i].entry < offers[j].entry
  }

  ghost predicate OfferedHaveLeft(w: seq<Entry>, log: seq<Event>) {
    forall i | 0 <= i < |Ledger.Offers(log)| ::
      Ledger.Offers(log)[i].entry < |w| && w[Ledger.Offers(log)[i].entry].status != Waiting
  }

  /** A section served first come, first served, with its next position at k + 1. */
  ghost predicate Served(w: seq<Entry>, log: seq<Event>, show: ShowId, section: SectionId, k: nat) {
    && Places(w, show, section, k) && OfferedFirst(w, show, section)
    && OffersInOrder(w, log, show, section) && OfferedHaveLeft(w, log)
    && (NoOfferYet(w, show, section) ==> k == 0)
  }

  /** The same line: nobody starts or stops waiting. */
  ghost predicate SameLine(w: seq<Entry>, after: seq<Entry>) {
    && |after| == |w|
    && forall i | 0 <= i < |w| ::
         && after[i].show == w[i].show && after[i].section == w[i].section && after[i].position == w[i].position
         && (after[i].status == Waiting <==> w[i].status == Waiting)
  }

  lemma ServedFrame(
      w: seq<Entry>, log: seq<Event>, w': seq<Entry>, log': seq<Event>, show: ShowId, section: SectionId, k: nat)
    requires Served(w, log, show, section, k) && SameLine(w, w') && Ledger.Offers(log') == Ledger.Offers(log)
    ensures Served(w', log', show, section, k)
  {
    assert Waiters(w', show, section) == Waiters(w, show, section);
    forall i ensures EarlierWaiters(w', show, section, i) == EarlierWaiters(w, show, section, i) {
    }
  }

  /** The least position of a line in place is that of its first waiter. */
  lemma NextIsFirst(w: seq<Entry>, show: ShowId, section: SectionId, k: nat, e: EntryId)
    requires Places(w, show, section, k) && IsNext(w, show, section, e)
    ensures forall j | j in Waiters(w, show, section) :: e <= j
  {
    PlacesInOrder(w, show, section, k);
  }

  /** Offering to the first waiter moves the line up by one. */
  lemma PlacesAfterOffer(w: seq<Entry>, w': seq<Entry>, show: ShowId, section: SectionId, k: nat, e: EntryId)
    requires Places(w, show, section, k) && IsNext(w, show, section, e)
    requires |w'| == |w| && w'[e].status != Waiting && forall i | 0 <= i < |w| && i != e :: w'[i] == w[i]
    ensures Places(w', show, section, k + 1)
  {
    NextIsFirst(w, show, section, k, e);
    assert Waiters(w', show, section) == Waiters(w, show, section) - {e};
    forall i | i in Waiters(w', show, section)
      ensures w'[i].position == k + 2 + |EarlierWaiters(w', show, section, i)|
    {
      assert EarlierWaiters(w, show, section, i) == EarlierWaiters(w', show, section, i) + {e};
    }
  }

  /** An offer in another section leaves the line alone. */
  lemma PlacesElsewhere(w: seq<Entry>, w': seq<Entry>, show: ShowId, section: SectionId, k: nat, e: EntryId)
    requires Places(w, show, section, k) && e < |w| && |w'| == |w| && forall i | 0 <= i < |w| && i != e :: w'[i] == w[i]
    requires !OfSection(w[e], show, section) && !OfSection(w'[e], show, section)
    ensures Places(w', show, section, k)
  {
    assert Waiters(w', show, section) == Waiters(w, show, section);
    forall i ensures EarlierWaiters(w', show, section, i) == EarlierWaiters(w, show, section, i) {
    }
  }

  lemma OffersExtend(
      w: seq<Entry>, log: seq<Event>, w': seq<Entry>, log': seq<Event>, made: Event, show: ShowId, section: SectionId)
    requires OffersInOrder(w, log, show, section) && OfferedHaveLeft(w, log)
    requires made.WaitlistOffered? && made.entry < |w| && Ledger.Offers(log') == Ledger.Offers(log) + [made]
    requires |w'| == |w| && forall i | 0 <= i < |w| :: w'[i].show == w[i].show && w'[i].section == w[i].section
    requires w'[made.entry].status != Waiting && forall i | 0 <= i < |w| && i != made.entry :: w'[i] == w[i]
    requires OfSection(w[made.entry], show, section) ==>
      forall j | 0 <= j < |w| && OfSection(w[j], show, section) && w[j].status != Waiting :: j < made.entry
    ensures OffersInOrder(w', log', show, section) && OfferedHaveLeft(w', log')
  {
    var offers := Ledger.Offers(log);
    forall i | 0 <= i < |offers| ensures offers[i].entry < |w| && w[offers[i].entry].status != Waiting {
    }
  }

  lemma OfferWrites(db: Db, show: ShowId, s: SeatId, e: EntryId, now: Time)
    requires Known(db, s) && e < |db.waitlist|
    ensures var w, w' := db.waitlist, Offer(db, show, s, e, now).waitlist;
      && |w'| == |w| && w'[e].status == Offered && (forall i | 0 <= i < |w| && i != e :: w'[i] == w[i])
      && w'[e].show == w[e].show && w'[e].section == w[e].section
    ensures Ledger.Offers(Offer(db, show, s, e, now).log) ==
      Ledger.Offers(db.log) + [WaitlistOffered(e, |db.bookings|, show, s)]
  {
    Ledger.OffersAppend(db.log, WaitlistOffered(e, |db.bookings|, show, s));
  }

  lemma FirstOfferServes(
      w: seq<Entry>, log: seq<Event>, w': seq<Entry>, log': seq<Event>, made: Event, show: ShowId, section: SectionId,
      k: nat)
    requires Served(w, log, show, section, k) && made.WaitlistOffered? && IsNext(w, show, section, made.entry)
    requires |w'| == |w| && w'[made.entry].status == Offered && OfSection(w'[made.entry], show, section)
    requires forall i | 0 <= i < |w| && i != made.entry :: w'[i] == w[i]
    requires Ledger.Offers(log') == Ledger.Offers(log) + [made]
    ensures Served(w', log', show, section, k + 1)
  {
    NextIsFirst(w, show, section, k, made.entry);
    PlacesAfterOffer(w, w', show, section, k, made.entry);
    EarlierHaveLeft(w, show, section, made.entry);
    OffersExtend(w, log, w', log', made, show, section);
    assert !NoOfferYet(w', show, section);
  }

  lemma OtherOfferServes(
      w: seq<Entry>, log: seq<Event>, w': seq<Entry>, log': seq<Event>, made: Event, show: ShowId, section: SectionId,
      k: nat)
    requires Served(w, log, show, section, k) && made.WaitlistOffered? && made.entry < |w|
    requires |w'| == |w| && w'[made.entry].status == Offered
    requires !OfSection(w[made.entry], show, section)
    requires w'[made.entry].show == w[made.entry].show && w'[made.entry].section == w[made.entry].section
    requires forall i | 0 <= i < |w| && i != made.entry :: w'[i] == w[i]
    requires Ledger.Offers(log') == Ledger.Offers(log) + [made]
    ensures Served(w', log', show, section, k)
  {
    PlacesElsewhere(w, w', show, section, k, made.entry);
    OffersExtend(w, log, w', log', made, show, section);
    assert NoOfferYet(w', show, section) ==> NoOfferYet(w, show, section);
  }

  /** One offer, to entry `e` of the section that `s` is in, keeps any section served. */
  lemma OfferServes(db: Db, show: ShowId, s: SeatId, e: EntryId, now: Time, show': ShowId, section': SectionId, k: nat)
    returns (next: nat)
    requires Known(db, s) && IsNext(db.waitlist, show, db.catalog[s].section, e)
    requires Served(db.waitlist, db.log, show', section', k)
    ensures var after := Offer(db, show, s, e, now); Served(after.waitlist, after.log, show', section', next)
  {
    var after := Offer(db, show, s, e, now);
    var made := WaitlistOffered(e, |db.bookings|, show, s);
    OfferWrites(db, show, s, e, now);
    if OfSection(db.waitlist[e], show', section') {
      next := k + 1;
      FirstOfferServes(db.waitlist, db.log, after.waitlist, after.log, made, show', section', k);
    } else {
      next := k;
      OtherOfferServes(db.waitlist, db.log, after.waitlist, after.log, made, show', section', k);
    }
  }

  /** Before the first waiter of a section everybody has left; behind it nobody has. */
  lemma EarlierHaveLeft(w: seq<Entry>, show: ShowId, section: SectionId, e: EntryId)
    requires OfferedFirst(w, show, section) && e in Waiters(w, show, section)
    requires forall j | j in Waiters(w, show, section) :: e <= j
    ensures forall j | 0 <= j < |w| && OfSection(w[j], show, section) :: w[j].status != Waiting <==> j < e
  {
    forall j | 0 <= j < |w| && OfSection(w[j], show, section) ensures w[j].status != Waiting <==> j < e {
      if w[j].status == Waiting {
        assert j in Waiters(w, show, section);
      }
    }
  }

  lemma OfferOneServes(
      db: Db, show: ShowId, s: SeatId, now: Time, ties: Ties, show': ShowId, section': SectionId, k: nat)
    returns (next: nat)
    requires Served(db.waitlist, db.log, show', section', k)
    ensures var one := OfferOne(db, show, s, now, ties); Served(one.waitlist, one.log, show', section', next)
  {
    next := k;
    if Known(db, s) && db.seats[s].status == FREE {
      var e := NextWaiter(db.waitlist, show, db.catalog[s].section, Hint(ties, s));
      if e.Some? {
        next := OfferServes(db, show, s, e.value, now, show', section', k);
      }
    }
  }

  lemma {:induction false} OfferFreedServes(
      db: Db, show: ShowId, ids: seq<SeatId>, now: Time, ties: Ties, show': ShowId, section': SectionId, k: nat)
    returns (next: nat)
    requires Served(db.waitlist, db.log, show', section', k)
    ensures var after := OfferFreed(db, show, ids, now, ties); Served(after.waitlist, after.log, show', section', next)
    decreases |ids|
  {
    next := k;
    if ids != [] {
      next := OfferOneServes(db, show, ids[0], now, ties, show', section', k);
      next := OfferFreedServes(OfferOne(db, show, ids[0], now, ties), show, ids[1..], now, ties, show', section', next);
    }
  }

  /** The part of a transaction before its offers. */
  ghost predicate Quiet(db: Db, x: Db) {
    SameLine(db.waitlist, x.waitlist) && Ledger.Offers(x.log) == Ledger.Offers(db.log)
  }

  datatype Round = Round(start: Db, show: ShowId, ids: seq<SeatId>, now: Time, ties: Ties)

  /** `after` is `db`, changed quietly and then by the round of offers. */
  ghost predicate IsRound(db: Db, r: Round, after: Db) {
    Quiet(db, r.start) && after == OfferFreed(r.start, r.show, r.ids, r.now, r.ties)
  }

  function NoOffers(x: Db): Round {
    Round(x, 0, [], 0, map[])
  }

  lemma NothingOffered(db: Db, x: Db)
    requires Quiet(db, x)
    ensures IsRound(db, NoOffers(x), x)
  {
  }

  lemma ExpireRound(db: Db, b: BookingId, now: Time, ties: Ties) returns (r: Round)
    requires b < |db.bookings|
    ensures IsRound(db, r, ExpireBooking(db, b, now, ties))
  {
    var booking := db.bookings[b];
    Ledger.OffersAppend(db.log, BookingExpired(b, booking.show));
    r := if Live(booking.status) then Round(ReleaseHold(db, b, true), booking.show, booking.seats, now, ties)
      else NoOffers(db);
  }

  lemma PayRound(db: Db, b: BookingId, now: Time, ties: Ties) returns (r: Round)
    requires b < |db.bookings|
    ensures IsRound(db, r, InitiatePayment(db, b, now, ties).db)
  {
    if db.bookings[b].expiresAt < now {
      r := ExpireRound(db, b, now, ties);
    } else if InTable(db.bookings[b].status, PaymentPending) {
      r := NoOffers(SetStatus(db, b, PaymentPending, BookingPaymentPending(b)));
      Ledger.OffersAppend(db.log, BookingPaymentPending(b));
    } else {
      r := NoOffers(db);
    }
  }

  lemma CancelConfirmed(db: Db, b: BookingId, now: Time, ties: Ties)
    requires b < |db.bookings| && db.bookings[b].status == Confirmed
    ensures Apply(db, CancelStep(b, now, ties)) ==
      OfferFreed(TicketCancelled(db, b), db.bookings[b].show, db.bookings[b].seats, now, ties)
  {
  }

  /** A CONFIRMED booking cancelled, before its seats are offered. */
  function TicketCancelled(db: Db, b: BookingId): Db
    requires b < |db.bookings|
  {
    var freed := db.(seats := Put(db.seats, Elements(db.bookings[b].seats), FREE_SEAT));
    SetStatus(freed, b, Cancelled, BookingCancelled(b, db.bookings[b].show))
  }

  lemma CancelRefused(db: Db, b: BookingId, now: Time, ties: Ties)
    requires b < |db.bookings| && db.bookings[b].status != Confirmed && db.bookings[b].status != Held
    ensures Apply(db, CancelStep(b, now, ties)) == db
  {
  }

  lemma CancelWrites(db: Db, b: BookingId)
    requires b < |db.bookings|
    ensures Quiet(db, TicketCancelled(db, b)) && Quiet(db, ReleaseHold(db, b, false))
  {
    Ledger.OffersAppend(db.log, BookingCancelled(b, db.bookings[b].show));
  }

  lemma CancelRound(db: Db, b: BookingId, now: Time, ties: Ties) returns (r: Round)
    requires b < |db.bookings|
    ensures IsRound(db, r, Apply(db, CancelStep(b, now, ties)))
  {
    var booking := db.bookings[b];
    CancelWrites(db, b);
    if booking.status == Confirmed {
      CancelConfirmed(db, b, now, ties);
      r := Round(TicketCancelled(db, b), booking.show, booking.seats, now, ties);
    } else if booking.status == Held {
      CancelHeld(db, b, now, ties);
      r := Round(ReleaseHold(db, b, false), booking.show, booking.seats, now, ties);
    } else {
      CancelRefused(db, b, now, ties);
      r := NoOffers(db);
      NothingOffered(db, db);
    }
  }

  lemma FailureRound(db: Db, ref: PaymentRef, now: Time, ties: Ties) returns (r: Round)
    requires ref in db.payments && db.payments[ref].booking < |db.bookings|
    ensures IsRound(db, r, WebhookFailed(db, ref, now, ties))
  {
    var b := db.payments[ref].booking;
    var booking := db.bookings[b];
    var event := BookingFailed(b, booking.show);
    Ledger.OffersAppend(db.log, event);
    var settled := SettlePayment(db, ref, PaymentFailed);
    r := if booking.status == PaymentPending
      then Round(SetStatus(FreeHeldSeats(settled, b), b, Failed, event), booking.show, booking.seats, now, ties)
      else NoOffers(settled);
  }

  lemma LogQuiet(db: Db, after: Db, e: Event)
    requires after.waitlist == db.waitlist && after.log == db.log + [e] && !e.WaitlistOffered?
    ensures Quiet(db, after)
  {
    Ledger.OffersAppend(db.log, e);
  }

  lemma ClaimQuiet(db: Db, after: Db, ids: set<SeatId>, e: Event)
    requires after.waitlist == MarkClaimed(db.waitlist, ids) && after.log == db.log + [e] && !e.WaitlistOffered?
    ensures Quiet(db, after)
  {
    Ledger.OffersAppend(db.log, e);
  }

  /** What a successful payment writes to the waitlist and the log. */
  lemma SuccessWrites(db: Db, ref: PaymentRef)
    requires ref in db.payments && db.payments[ref].booking < |db.bookings|
    ensures var b := db.payments[ref].booking;
      var after := WebhookSucceeded(db, ref).db;
      || (after.waitlist == MarkClaimed(db.waitlist, Elements(db.bookings[b].seats))
          && after.log == db.log + [BookingConfirmed(b, db.bookings[b].show)])
      || (after.waitlist == db.waitlist && after.log == db.log + [PaymentRefunded(ref, b)])
  {
    var b := db.payments[ref].booking;
    if db.bookings[b].status == Expired {
      var attempt := Reacquire(db.seats, Ascending(Elements(db.bookings[b].seats)), b);
      assert WebhookSucceeded(db, ref) == Conclude(db.(seats := attempt.seats), ref, attempt.all);
    }
  }

  lemma SuccessQuiet(db: Db, ref: PaymentRef)
    requires ref in db.payments && db.payments[ref].booking < |db.bookings|
    ensures Quiet(db, WebhookSucceeded(db, ref).db)
  {
    var b := db.payments[ref].booking;
    var after := WebhookSucceeded(db, ref).db;
    SuccessWrites(db, ref);
    if after.log == db.log + [PaymentRefunded(ref, b)] && after.waitlist == db.waitlist {
      LogQuiet(db, after, PaymentRefunded(ref, b));
    } else {
      ClaimQuiet(db, after, Elements(db.bookings[b].seats), BookingConfirmed(b, db.bookings[b].show));
    }
  }

  lemma WebhookRound(db: Db, ref: PaymentRef, succeeded: bool, now: Time, ties: Ties) returns (r: Round)
    ensures IsRound(db, r, Apply(db, WebhookStep(ref, succeeded, now, ties)))
  {
    r := NoOffers(db);
    if ref in db.payments && db.payments[ref].booking < |db.bookings| && db.payments[ref].status == Pending {
      if succeeded {
        SuccessQuiet(db, ref);
        r := NoOffers(WebhookSucceeded(db, ref).db);
      } else {
        r := FailureRound(db, ref, now, ties);
      }
    }
  }

  lemma HoldWrites(db: Db, user: UserId, show: ShowId, request: seq<SeatId>, now: Time)
    ensures var after := CreateHold(db, user, show, request, now).db;
      && after.waitlist == db.waitlist
      && (after.log == db.log || after.log == db.log + [BookingHeld(|db.bookings|, show)])
  {
  }

  lemma HoldRound(db: Db, user: UserId, show: ShowId, request: seq<SeatId>, now: Time) returns (r: Round)
    ensures IsRound(db, r, Apply(db, HoldStep(user, show, request, now)))
  {
    var after := CreateHold(db, user, show, request, now).db;
    HoldWrites(db, user, show, request, now);
    if after.log != db.log {
      LogQuiet(db, after, BookingHeld(|db.bookings|, show));
    }
    r := NoOffers(after);
    NothingOffered(db, after);
  }

  /** Every transaction but a join is quiet up to one round of offers. */
  lemma RoundOf(db: Db, step: Step) returns (r: Round)
    requires !step.JoinStep?
    ensures IsRound(db, r, Apply(db, step))
  {
    r := NoOffers(Apply(db, step));
    match step
    case HoldStep(user, show, request, now) => r := HoldRound(db, user, show, request, now);
    case PayStep(b, now, ties) => if b < |db.bookings| { r := PayRound(db, b, now, ties); }
    case RecordStep(_, _) =>
    case WebhookStep(ref, succeeded, now, ties) => r := WebhookRound(db, ref, succeeded, now, ties);
    case SweepStep(b, now, ties) =>
      if b < |db.bookings| && OverdueAt(db.bookings[b], now) { r := ExpireRound(db, b, now, ties); }
    case CancelStep(b, now, ties) => if b < |db.bookings| { r := CancelRound(db, b, now, ties); }
    case ExpireOffersStep(_) =>
  }

  /** A join of one section leaves the others served. */
  lemma JoinElsewhereServes(
      db: Db, user: UserId, show: ShowId, section: SectionId, show': ShowId, section': SectionId, k: nat)
    requires Served(db.waitlist, db.log, show', section', k) && !(show == show' && section == section')
    ensures var after := Join(db, user, show, section); Served(after.waitlist, after.log, show', section', k)
  {
    var entry := Join(db, user, show, section).waitlist[|db.waitlist|];
    Ledger.OffersAppend(db.log, WaitlistJoined(user, show, |Waiters(db.waitlist, show, section)| + 1));
    PlacesBeside(db.waitlist, entry, show', section', k);
    OffersBeside(db.waitlist, db.log, entry, show', section');
    assert Join(db, user, show, section).waitlist == db.waitlist + [entry];
  }

  lemma PlacesBeside(w: seq<Entry>, entry: Entry, show: ShowId, section: SectionId, k: nat)
    requires Places(w, show, section, k) && !OfSection(entry, show, section)
    ensures Places(w + [entry], show, section, k)
  {
    var after := w + [entry];
    assert Waiters(after, show, section) == Waiters(w, show, section);
    forall i ensures EarlierWaiters(after, show, section, i) == EarlierWaiters(w, show, section, i) {
    }
  }

  lemma OffersBeside(w: seq<Entry>, log: seq<Event>, entry: Entry, show: ShowId, section: SectionId)
    requires OfferedFirst(w, show, section) && OffersInOrder(w, log, show, section) && OfferedHaveLeft(w, log)
    requires !OfSection(entry, show, section)
    ensures var after := w + [entry];
      && OfferedFirst(after, show, section) && OffersInOrder(after, log, show, section) && OfferedHaveLeft(after, log)
      && (NoOfferYet(after, show, section) ==> NoOfferYet(w, show, section))
  {
    var after := w + [entry];
    var offers := Ledger.Offers(log);
    assert forall i | 0 <= i < |w| :: after[i] == w[i];
    forall i | 0 <= i < |offers| && IsOfferIn(after, offers[i], show, section)
      ensures IsOfferIn(w, offers[i], show, section)
    {
      assert offers[i].entry < |w|;
    }
  }

  lemma JoinServes(db: Db, user: UserId, show: ShowId, section: SectionId, k: nat)
    requires Served(db.waitlist, db.log, show, section, k) && JoinFits(db.waitlist, show, section)
    ensures var after := Join(db, user, show, section);
      Served(after.waitlist, after.log, show, section, Base(db.waitlist, show, section, k))
  {
    var w := db.waitlist;
    var after := Join(db, user, show, section);
    Ledger.OffersAppend(db.log, WaitlistJoined(user, show, |Waiters(w, show, section)| + 1));
    JoinGoesLastIff(db, user, show, section, k);
    assert forall i | 0 <= i < |w| :: after.waitlist[i] == w[i];
    assert NoOfferYet(after.waitlist, show, section) ==> NoOfferYet(w, show, section);
  }

  predicate Joins(step: Step, show: ShowId, section: SectionId) {
    step.JoinStep? && step.show == show && step.section == section
  }

  /** Every join of the section in the run was made with nobody waiting there, or position 1 still waiting. */
  predicate JoinsFit(db: Db, steps: seq<Step>, show: ShowId, section: SectionId)
    decreases |steps|
  {
    steps == [] ||
    var shorter := steps[..|steps| - 1];
    && JoinsFit(db, shorter, show, section)
    && (Joins(steps[|steps| - 1], show, section) ==> JoinFits(Run(db, shorter).waitlist, show, section))
  }

  /** After the run and after each part of it from the start, the section's waiters are in the order of joining. */
  ghost predicate AlwaysInJoinOrder(db: Db, steps: seq<Step>, show: ShowId, section: SectionId)
    decreases |steps|
  {
    InJoinOrder(Run(db, steps).waitlist, show, section) &&
    (steps == [] || AlwaysInJoinOrder(db, steps[..|steps| - 1], show, section))
  }

  lemma ApplyServes(db: Db, step: Step, show: ShowId, section: SectionId, k: nat) returns (next: nat)
    requires Served(db.waitlist, db.log, show, section, k)
    requires Joins(step, show, section) ==> JoinFits(db.waitlist, show, section)
    ensures Served(Apply(db, step).waitlist, Apply(db, step).log, show, section, next)
  {
    if Joins(step, show, section) {
      JoinServes(db, step.user, show, section, k);
      next := Base(db.waitlist, show, section, k);
    } else if step.JoinStep? {
      JoinElsewhereServes(db, step.user, step.show, step.section, show, section, k);
      next := k;
    } else {
      var r := RoundOf(db, step);
      ServedFrame(db.waitlist, db.log, r.start.waitlist, r.start.log, show, section, k);
      next := OfferFreedServes(r.start, r.show, r.ids, r.now, r.ties, show, section, k);
    }
  }

  lemma {:induction false} ServedWhileJoinsFit(
      db: Db, steps: seq<Step>, show: ShowId, section: SectionId) returns (k: nat)
    requires Initial(db) && JoinsFit(db, steps, show, section)
    ensures Served(Run(db, steps).waitlist, Run(db, steps).log, show, section, k)
    decreases |steps|
  {
    k := 0;
    if steps != [] {
      k := ServedWhileJoinsFit(db, steps[..|steps| - 1], show, section);
      k := ApplyServes(Run(db, steps[..|steps| - 1]), steps[|steps| - 1], show, section, k);
    }
  }

  /** Join order is kept throughout a run exactly when each join of the section is made with nobody waiting
      there or with position 1 still waiting. */
  lemma {:induction false} OrderKeptIff(db: Db, steps: seq<Step>, show: ShowId, section: SectionId)
    requires Initial(db)
    ensures AlwaysInJoinOrder(db, steps, show, section) <==> JoinsFit(db, steps, show, section)
    decreases |steps|
  {
    if steps != [] {
      var shorter, last := steps[..|steps| - 1], steps[|steps| - 1];
      OrderKeptIff(db, shorter, show, section);
      if JoinsFit(db, shorter, show, section) {
        LastStepKeepsIff(db, shorter, last, show, section);
      }
    }
  }

  lemma LastStepKeepsIff(db: Db, steps: seq<Step>, last: Step, show: ShowId, section: SectionId)
    requires Initial(db) && JoinsFit(db, steps, show, section)
    ensures InJoinOrder(Apply(Run(db, steps), last).waitlist, show, section) <==>
      (Joins(last, show, section) ==> JoinFits(Run(db, steps).waitlist, show, section))
  {
    var k := ServedWhileJoinsFit(db, steps, show, section);
    StepKeepsIff(Run(db, steps), Apply(Run(db, steps), last), last, show, section, k);
  }

  lemma ServedInOrder(w: seq<Entry>, log: seq<Event>, show: ShowId, section: SectionId, k: nat)
    requires Served(w, log, show, section, k)
    ensures InJoinOrder(w, show, section)
  {
    PlacesInOrder(w, show, section, k);
  }

  lemma JoinKeepsIff(db: Db, user: UserId, show: ShowId, section: SectionId, k: nat)
    requires Served(db.waitlist, db.log, show, section, k)
    ensures InJoinOrder(Join(db, user, show, section).waitlist, show, section) <==> JoinFits(db.waitlist, show, section)
  {
    var w := db.waitlist;
    var after := Join(db, user, show, section);
    if JoinFits(w, show, section) {
      JoinServes(db, user, show, section, k);
      ServedInOrder(after.waitlist, after.log, show, section, Base(w, show, section, k));
    } else {
      JoinGoesLastIff(db, user, show, section, k);
    }
  }

  lemma OtherStepsKeep(db: Db, after: Db, step: Step, show: ShowId, section: SectionId, k: nat)
    requires after == Apply(db, step)
    requires Served(db.waitlist, db.log, show, section, k) && !Joins(step, show, section)
    ensures InJoinOrder(after.waitlist, show, section)
  {
    var next := ApplyServes(db, step, show, section, k);
    ServedInOrder(after.waitlist, after.log, show, section, next);
  }

  lemma StepKeepsIff(db: Db, after: Db, step: Step, show: ShowId, section: SectionId, k: nat)
    requires after == Apply(db, step)
    requires Served(db.waitlist, db.log, show, section, k)
    ensures InJoinOrder(after.waitlist, show, section) <==>
      (Joins(step, show, section) ==> JoinFits(db.waitlist, show, section))
  {
    if Joins(step, show, section) {
      JoinKeepsIff(db, step.user, show, section, k);
    } else {
      OtherStepsKeep(db, after, step, show, section, k);
    }
  }

  /** While the joins fit: whoever has been offered a seat of the section, so has everyone who joined it earlier;
      all offers of the section, also those of one release, were made in the order of joining; the next goes to the
      earliest still waiting; and those waiting stand at k + 1 .. k + |W|. */
  lemma FirstComeFirstServed(db: Db, steps: seq<Step>, show: ShowId, section: SectionId, hint: EntryId)
    requires Initial(db) && JoinsFit(db, steps, show, section)
    ensures var w, log := Run(db, steps).waitlist, Run(db, steps).log;
      && OfferedFirst(w, show, section) && OffersInOrder(w, log, show, section)
      && (var next := NextWaiter(w, show, section, hint);
          next.Some? ==> forall j | j in Waiters(w, show, section) :: next.value <= j)
      && exists k: nat :: Places(w, show, section, k)
  {
    var k := ServedWhileJoinsFit(db, steps, show, section);
    var w := Run(db, steps).waitlist;
    var next := NextWaiter(w, show, section, hint);
    if next.Some? {
      NextIsFirst(w, show, section, k, next.value);
    }
  }

  lemma {:induction false} JoinsFitUntilOffers(db: Db, steps: seq<Step>, show: ShowId, section: SectionId)
    requires Initial(db) && NoOfferYet(Run(db, steps).waitlist, show, section)
    ensures JoinsFit(db, steps, show, section)
    decreases |steps|
  {
    if steps != [] {
      var shorter, last := steps[..|steps| - 1], steps[|steps| - 1];
      Ledger.Reachable(db, shorter);
      Ledger.ApplySound(Run(db, shorter), last);
      NoOfferBefore(Run(db, shorter).waitlist, Run(db, steps).waitlist, show, section);
      JoinsFitUntilOffers(db, shorter, show, section);
      var k := ServedWhileJoinsFit(db, shorter, show, section);
      FitsMeansFromOne(Run(db, shorter).waitlist, show, section, k);
    }
  }

  lemma NoOfferBefore(w: seq<Entry>, after: seq<Entry>, show: ShowId, section: SectionId)
    requires Ledger.EntriesMove(w, after) && NoOfferYet(after, show, section)
    ensures NoOfferYet(w, show, section)
  {
    forall i | 0 <= i < |w| && OfSection(w[i], show, section) ensures w[i].status == Waiting {
      assert Ledger.EntryEdge(w[i], after[i]);
    }
  }

  /** It is enough that all joins of the section precede its first offer, wherever else people join meanwhile. */
  lemma {:induction false} JoinsBeforeOffersFit(
      db: Db, joins: seq<Step>, rest: seq<Step>, show: ShowId, section: SectionId)
    requires Initial(db) && NoOfferYet(Run(db, joins).waitlist, show, section)
    requires forall i | 0 <= i < |rest| :: !Joins(rest[i], show, section)
    ensures JoinsFit(db, joins + rest, show, section)
    decreases |rest|
  {
    if rest == [] {
      assert joins + rest == joins;
      JoinsFitUntilOffers(db, joins, show, section);
    } else {
      var all := joins + rest;
      assert all[..|all| - 1] == joins + rest[..|rest| - 1];
      JoinsBeforeOffersFit(db, joins, rest[..|rest| - 1], show, section);
    }
  }

  lemma TwoOffers(db: Db, show: ShowId, ids: seq<SeatId>, now: Time, ties: Ties)
    requires |ids| == 2
    ensures OfferFreed(db, show, ids, now, ties) ==
      OfferOne(OfferOne(db, show, ids[0], now, ties), show, ids[1], now, ties)
  {
    var one := OfferOne(db, show, ids[0], now, ties);
    var two := OfferOne(one, show, ids[1], now, ties);
    assert ids[1..] == [ids[1]] && [ids[1]][1..] == [];
    assert OfferFreed(one, show, [ids[1]], now, ties) == OfferFreed(two, show, [], now, ties);
  }

  /** Three entries wait and two seats are released: the next to join overtakes the third. */
  lemma JoinAfterTwoOffers(
      db: Db, show: ShowId, section: SectionId, ids: seq<SeatId>, now: Time, ties: Ties, user: UserId)
    requires |ids| == 2 && ids[0] != ids[1]
    requires forall s | s in ids :: Known(db, s) && db.catalog[s].section == section && db.seats[s].status == FREE
    requires |db.waitlist| == 3 && forall i | 0 <= i < 3 ::
      WaitingFor(db.waitlist[i], show, section) && db.waitlist[i].position == i + 1
    ensures var after := Join(OfferFreed(db, show, ids, now, ties), user, show, section).waitlist;
      && |after| == 4 && after[2] == db.waitlist[2] && WaitingFor(after[3], show, section)
      && after[3].position == 2 && after[3].user == user
      && after[0].status == Offered && after[1].status == Offered
  {
    var one := OfferOne(db, show, ids[0], now, ties);
    OfferGoesTo(db, show, section, ids[0], 0, now, ties);
    assert ids[1] in ids;
    OfferGoesTo(one, show, section, ids[1], 1, now, ties);
    var two := OfferOne(one, show, ids[1], now, ties);
    TwoOffers(db, show, ids, now, ties);
    assert Waiters(two.waitlist, show, section) == {2};
  }

  /** Three joins of an empty waitlist. */
  lemma ThreeJoins(db: Db, show: ShowId, section: SectionId, p: UserId, q: UserId, r: UserId)
    requires db.waitlist == []
    ensures var after := Join(Join(Join(db, p, show, section), q, show, section), r, show, section);
      && after == db.(waitlist := after.waitlist, log := after.log)
      && after.waitlist == [Entry(show, section, p, 1, Waiting, None, None),
                            Entry(show, section, q, 2, Waiting, None, None),
                            Entry(show, section, r, 3, Waiting, None, None)]
  {
    var one := Join(db, p, show, section);
    var two := Join(one, q, show, section);
    assert Waiters(db.waitlist, show, section) == {};
    assert Waiters(one.waitlist, show, section) == {0};
    assert Waiters(two.waitlist, show, section) == {0, 1};
  }

  /** Hold the two seats and let p, q and r join ... */
  function ThreeWaitRun(
      u: UserId, p: UserId, q: UserId, r: UserId, show: ShowId, section: SectionId, ids: seq<SeatId>, now: Time)
    : seq<Step>
  {
    [HoldStep(u, show, ids, now)]
    + [JoinStep(p, show, section), JoinStep(q, show, section), JoinStep(r, show, section)]
  }

  /** ... then cancel the hold and let v join. */
  function OvertakingRun(
      u: UserId, p: UserId, q: UserId, r: UserId, v: UserId,
      show: ShowId, section: SectionId, ids: seq<SeatId>, now: Time, ties: Ties): seq<Step> {
    ThreeWaitRun(u, p, q, r, show, section, ids, now) + [CancelStep(0, now, ties), JoinStep(v, show, section)]
  }

  /** A held booking of the two seats, and three users waiting, the last of them `r`. */
  ghost predicate ThreeWait(db: Db, show: ShowId, section: SectionId, ids: seq<SeatId>, r: UserId) {
    && (forall s | s in ids :: Known(db, s) && db.catalog[s].section == section && db.seats[s].owner == Some(0))
    && |db.bookings| == 1 && db.bookings[0].status == Held && db.bookings[0].seats == ids && db.bookings[0].show == show
    && |db.waitlist| == 3 && db.waitlist[2].user == r
    && forall i | 0 <= i < 3 :: WaitingFor(db.waitlist[i], show, section) && db.waitlist[i].position == i + 1
  }

  /** `v`, in the last entry, stands before `r`, in the one before it, and before everyone else who waits. */
  ghost predicate Overtaken(w: seq<Entry>, show: ShowId, section: SectionId, r: UserId, v: UserId) {
    && |w| == 4 && w[2].user == r && w[3].user == v
    && WaitingFor(w[2], show, section) && WaitingFor(w[3], show, section) && w[3].position < w[2].position
    && forall hint :: NextWaiter(w, show, section, hint) == Some(3)
  }

  lemma ThreeWaiting(
      db: Db, u: UserId, p: UserId, q: UserId, r: UserId, show: ShowId, section: SectionId, ids: seq<SeatId>, now: Time)
    requires Initial(db) && show in db.shows && |ids| == 2 && ids[0] < ids[1]
    requires forall s | s in ids :: s in db.catalog && db.catalog[s].show == show && db.catalog[s].section == section
    ensures ThreeWait(Run(db, ThreeWaitRun(u, p, q, r, show, section, ids, now)), show, section, ids, r)
  {
    var hold := [HoldStep(u, show, ids, now)];
    var joins := [JoinStep(p, show, section), JoinStep(q, show, section), JoinStep(r, show, section)];
    HoldOnSeeded(db, u, show, ids, now);
    RunOne(db, hold);
    RunConcat(db, hold, joins);
    JoinsWait(Run(db, hold), p, q, r, show, section, ids, joins);
  }

  lemma JoinsWait(
      db: Db, p: UserId, q: UserId, r: UserId, show: ShowId, section: SectionId, ids: seq<SeatId>, joins: seq<Step>)
    requires joins == [JoinStep(p, show, section), JoinStep(q, show, section), JoinStep(r, show, section)]
    requires forall s | s in ids :: Known(db, s) && db.catalog[s].section == section && db.seats[s].owner == Some(0)
    requires |db.bookings| == 1 && db.bookings[0].status == Held && db.bookings[0].seats == ids &&
      db.bookings[0].show == show
    requires db.waitlist == []
    ensures ThreeWait(Run(db, joins), show, section, ids, r)
  {
    RunThree(db, joins);
    ThreeJoins(db, show, section, p, q, r);
  }

  /** Cancelling a hold of two seats that three users wait for, then one more join. */
  lemma CancelThenJoin(db: Db, show: ShowId, section: SectionId, ids: seq<SeatId>, now: Time, ties: Ties, v: UserId)
    requires |ids| == 2 && ids[0] != ids[1]
    requires forall s | s in ids :: Known(db, s) && db.catalog[s].section == section && db.seats[s].owner == Some(0)
    requires |db.bookings| == 1 && db.bookings[0].status == Held && db.bookings[0].seats == ids &&
      db.bookings[0].show == show
    requires |db.waitlist| == 3 && forall i | 0 <= i < 3 ::
      WaitingFor(db.waitlist[i], show, section) && db.waitlist[i].position == i + 1
    ensures var after := Join(Apply(db, CancelStep(0, now, ties)), v, show, section).waitlist;
      && |after| == 4 && after[2] == db.waitlist[2] && WaitingFor(after[3], show, section)
      && after[3].position == 2 && after[3].user == v
      && after[0].status == Offered && after[1].status == Offered
  {
    var released := ReleaseHold(db, 0, false);
    assert forall s | s in ids :: s in OwnedAmong(db.seats, ids, 0);
    JoinAfterTwoOffers(released, show, section, ids, now, ties, v);
    CancelHeld(db, 0, now, ties);
  }

  lemma NewcomerIsNext(w: seq<Entry>, show: ShowId, section: SectionId, hint: EntryId)
    requires |w| == 4 && w[0].status == Offered && w[1].status == Offered
    requires WaitingFor(w[2], show, section) && WaitingFor(w[3], show, section) && w[3].position < w[2].position
    ensures NextWaiter(w, show, section, hint) == Some(3)
  {
    assert 3 in Waiters(w, show, section);
    var next := NextWaiter(w, show, section, hint);
    assert next.Some? && IsNext(w, show, section, next.value);
  }

  lemma CancelJoinOvertakes(
      db: Db, show: ShowId, section: SectionId, ids: seq<SeatId>, now: Time, ties: Ties, r: UserId, v: UserId,
      steps: seq<Step>)
    requires |ids| == 2 && ids[0] != ids[1] && ThreeWait(db, show, section, ids, r)
    requires steps == [CancelStep(0, now, ties), JoinStep(v, show, section)]
    ensures Overtaken(Run(db, steps).waitlist, show, section, r, v)
  {
    RunTwo(db, steps);
    CancelThenJoin(db, show, section, ids, now, ties, v);
    var w := Join(Apply(db, CancelStep(0, now, ties)), v, show, section).waitlist;
    forall hint ensures NextWaiter(w, show, section, hint) == Some(3) {
      NewcomerIsNext(w, show, section, hint);
    }
  }

  /** The promise that the waitlist is first come, first served fails in a reachable state of any database with
      two seats of a section: `v`, who joined last, is next, and `r`, who joined before, is not. */
  lemma LateJoinOvertakes(
      db: Db, u: UserId, p: UserId, q: UserId, r: UserId, v: UserId,
      show: ShowId, section: SectionId, ids: seq<SeatId>, now: Time, ties: Ties)
    requires Initial(db) && show in db.shows && |ids| == 2 && ids[0] < ids[1]
    requires forall s | s in ids :: s in db.catalog && db.catalog[s].show == show && db.catalog[s].section == section
    ensures var after := Run(db, OvertakingRun(u, p, q, r, v, show, section, ids, now, ties));
      Overtaken(after.waitlist, show, section, r, v)
  {
    var front := ThreeWaitRun(u, p, q, r, show, section, ids, now);
    var back := [CancelStep(0, now, ties), JoinStep(v, show, section)];
    ThreeWaiting(db, u, p, q, r, show, section, ids, now);
    CancelJoinOvertakes(Run(db, front), show, section, ids, now, ties, r, v, back);
    RunConcat(db, front, back);
  }
}
