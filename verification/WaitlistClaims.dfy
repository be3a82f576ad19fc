/** What CLAIMED means: claims are matched on the seat, not on the user or the booking. */
module WaitlistClaims {
  import opened Commons
  import opened Records
  import opened Waitlist
  import opened Holds
  import opened Bookings
  import opened Expiry
  import opened System
  import opened Ownership
  import opened Scenarios
  import Ledger = WaitlistLedger

  /** Whether a successful payment confirms its booking now. */
  predicate Confirms(db: Db, ref: PaymentRef)
    requires ref in db.payments && db.payments[ref].booking < |db.bookings|
  {
    var b := db.payments[ref].booking;
    db.bookings[b].status == PaymentPending || (db.bookings[b].status == Expired && AllFree(db, b))
  }

  /** A success that confirms claims the offers of the booking's seats, and any other success none. */
  lemma SuccessClaims(db: Db, ref: PaymentRef)
    requires Owned(db) && ref in db.payments && db.payments[ref].booking < |db.bookings|
    ensures WebhookSucceeded(db, ref).db.waitlist ==
      if Confirms(db, ref) then MarkClaimed(db.waitlist, Elements(db.bookings[db.payments[ref].booking].seats))
      else db.waitlist
  {
    var b := db.payments[ref].booking;
    if db.bookings[b].status == Expired {
      assert BookingOk(db, b);
      LateOutcome(db, ref);
      assert WebhookSucceeded(db, ref) == Conclude(PrefixSold(db, b), ref, AllFree(db, b));
    }
  }

  /** Two bookings cannot both be about to have, or have, the same seat. */
  lemma OtherClaimantIsGone(db: Db, ref: PaymentRef, c: BookingId, s: SeatId)
    requires Owned(db) && ref in db.payments && db.payments[ref].booking < |db.bookings| && Confirms(db, ref)
    requires c < |db.bookings| && c != db.payments[ref].booking
    requires s in db.bookings[c].seats && s in db.bookings[db.payments[ref].booking].seats
    ensures !Claims(db.bookings[c].status)
  {
    var b := db.payments[ref].booking;
    assert BookingOk(db, b) && BookingOk(db, c);
    if db.bookings[b].status == Expired {
      AllFreeSoldWhole(db, b);
    }
  }

  /** In every reachable state: an entry that a successful payment marks CLAIMED was offered the very booking
      that the payment confirms, or the booking it was offered has lapsed. */
  lemma ClaimedOwnOrLapsed(db: Db, steps: seq<Step>, ref: PaymentRef, i: nat)
    requires Initial(db)
    requires var now := Run(db, steps);
      && ref in now.payments && now.payments[ref].booking < |now.bookings|
      && i < |Ledger.Offers(now.log)|
    ensures var now := Run(db, steps);
      var offer := Ledger.Offers(now.log)[i];
      var after := WebhookSucceeded(now, ref).db;
      && offer.entry < |now.waitlist| && offer.booking < |now.bookings|
      && (after.waitlist[offer.entry].status == Claimed && now.waitlist[offer.entry].status != Claimed ==>
           offer.booking == now.payments[ref].booking || !Claims(now.bookings[offer.booking].status))
  {
    Reachable(db, steps);
    Ledger.Reachable(db, steps);
    ClaimedInState(Run(db, steps), ref, Ledger.Offers(Run(db, steps).log)[i]);
  }

  lemma ClaimedInState(db: Db, ref: PaymentRef, offer: Event)
    requires Owned(db) && ref in db.payments && db.payments[ref].booking < |db.bookings|
    requires offer.WaitlistOffered? && Ledger.OfferOk(db.catalog, db.bookings, db.waitlist, offer)
    ensures var after := WebhookSucceeded(db, ref).db;
      after.waitlist[offer.entry].status == Claimed && db.waitlist[offer.entry].status != Claimed ==>
        offer.booking == db.payments[ref].booking || !Claims(db.bookings[offer.booking].status)
  {
    SuccessClaims(db, ref);
    var b := db.payments[ref].booking;
    var entry := db.waitlist[offer.entry];
    if Confirms(db, ref) && offer.booking != b && entry.status == Offered && offer.seat in db.bookings[b].seats {
      OtherClaimantIsGone(db, ref, offer.booking, offer.seat);
    }
  }

  /** Whenever two open offers name one seat, confirming the booking of one marks both entries CLAIMED,
      although the other's booking has lapsed. */
  lemma ForeignClaim(db: Db, ref: PaymentRef, first: Event, second: Event)
    requires Owned(db) && ref in db.payments && db.payments[ref].booking < |db.bookings| && Confirms(db, ref)
    requires first.WaitlistOffered? && Ledger.OfferOk(db.catalog, db.bookings, db.waitlist, first)
    requires second.WaitlistOffered? && Ledger.OfferOk(db.catalog, db.bookings, db.waitlist, second)
    requires second.booking == db.payments[ref].booking && first.booking != second.booking && first.seat == second.seat
    requires db.waitlist[first.entry].status == Offered && db.waitlist[second.entry].status == Offered
    ensures var after := WebhookSucceeded(db, ref).db;
      && after.waitlist[first.entry].status == Claimed && after.waitlist[second.entry].status == Claimed
      && !Claims(after.bookings[first.booking].status) && after.bookings[second.booking].status == Confirmed
  {
    SuccessClaims(db, ref);
    OtherClaimantIsGone(db, ref, first.booking, first.seat);
    if db.bookings[second.booking].status == Expired {
      assert BookingOk(db, second.booking);
      LateOutcome(db, ref);
      assert WebhookSucceeded(db, ref) == Conclude(PrefixSold(db, second.booking), ref, AllFree(db, second.booking));
    }
  }

  /** An open offer of a seat of booking `b` that was made for another booking, one that has lapsed since. */
  predicate LapsedButOpen(db: Db, b: BookingId, offer: Event)
    requires b < |db.bookings|
    requires offer.WaitlistOffered? && offer.entry < |db.waitlist| && offer.booking < |db.bookings|
  {
    && db.waitlist[offer.entry].status == Offered && offer.seat in db.bookings[b].seats
    && offer.booking != b && !Claims(db.bookings[offer.booking].status)
  }

  /** Every entry that changes was offered booking `b`. */
  ghost predicate OnlyOwnClaim(before: Db, after: Db, b: BookingId) {
    var offers := Ledger.Offers(before.log);
    |after.waitlist| == |before.waitlist| &&
    forall e | 0 <= e < |before.waitlist| && after.waitlist[e] != before.waitlist[e] ::
      exists i :: 0 <= i < |offers| && offers[i].entry == e && offers[i].booking == b
  }

  ghost predicate SomeLapsedButOpen(db: Db, b: BookingId)
    requires b < |db.bookings| && Ledger.LedgerOk(db.catalog, db.bookings, db.waitlist, db.log)
  {
    exists i :: 0 <= i < |Ledger.Offers(db.log)| && OfferAt(db, b, i)
  }

  ghost predicate OfferAt(db: Db, b: BookingId, i: nat)
    requires b < |db.bookings| && Ledger.LedgerOk(db.catalog, db.bookings, db.waitlist, db.log)
    requires i < |Ledger.Offers(db.log)|
  {
    assert Ledger.OfferOk(db.catalog, db.bookings, db.waitlist, Ledger.Offers(db.log)[i]);
    LapsedButOpen(db, b, Ledger.Offers(db.log)[i])
  }

  /** A lapsed booking's open offer is claimed by the confirmation of the booking that has the seat now. */
  lemma LapsedIsClaimed(db: Db, ref: PaymentRef, i: nat)
    requires Owned(db) && Ledger.LedgerOk(db.catalog, db.bookings, db.waitlist, db.log)
    requires ref in db.payments && db.payments[ref].booking < |db.bookings| && Confirms(db, ref)
    requires i < |Ledger.Offers(db.log)| && OfferAt(db, db.payments[ref].booking, i)
    ensures !OnlyOwnClaim(db, WebhookSucceeded(db, ref).db, db.payments[ref].booking)
  {
    var offers := Ledger.Offers(db.log);
    var after := WebhookSucceeded(db, ref).db;
    SuccessClaims(db, ref);
    assert Ledger.OfferOk(db.catalog, db.bookings, db.waitlist, offers[i]);
    assert after.waitlist[offers[i].entry].status == Claimed;
    forall j | 0 <= j < |offers| && offers[j].entry == offers[i].entry ensures offers[j].booking == offers[i].booking {
      assert i == j || i < j || j < i;
    }
  }

  /** An entry that a confirmation claims has an offer, which is for the confirmed booking unless it has lapsed. */
  lemma ClaimedWasOffered(db: Db, ref: PaymentRef, e: EntryId) returns (i: nat)
    requires Owned(db) && Ledger.LedgerOk(db.catalog, db.bookings, db.waitlist, db.log)
    requires ref in db.payments && db.payments[ref].booking < |db.bookings| && Confirms(db, ref)
    requires |WebhookSucceeded(db, ref).db.waitlist| == |db.waitlist|
    requires e < |db.waitlist| && WebhookSucceeded(db, ref).db.waitlist[e] != db.waitlist[e]
    ensures i < |Ledger.Offers(db.log)| && Ledger.Offers(db.log)[i].entry == e
    ensures Ledger.Offers(db.log)[i].booking == db.payments[ref].booking || OfferAt(db, db.payments[ref].booking, i)
  {
    SuccessClaims(db, ref);
    i :| 0 <= i < |Ledger.Offers(db.log)| && Ledger.Offers(db.log)[i].entry == e;
    var offer := Ledger.Offers(db.log)[i];
    assert Ledger.OfferOk(db.catalog, db.bookings, db.waitlist, offer);
    if offer.booking != db.payments[ref].booking {
      OtherClaimantIsGone(db, ref, offer.booking, offer.seat);
    }
  }

  lemma OwnClaimIffInState(db: Db, ref: PaymentRef)
    requires Owned(db) && Ledger.LedgerOk(db.catalog, db.bookings, db.waitlist, db.log)
    requires ref in db.payments && db.payments[ref].booking < |db.bookings| && Confirms(db, ref)
    ensures OnlyOwnClaim(db, WebhookSucceeded(db, ref).db, db.payments[ref].booking)
      <==> !SomeLapsedButOpen(db, db.payments[ref].booking)
  {
    var b := db.payments[ref].booking;
    var after := WebhookSucceeded(db, ref).db;
    if SomeLapsedButOpen(db, b) {
      var i :| 0 <= i < |Ledger.Offers(db.log)| && OfferAt(db, b, i);
      LapsedIsClaimed(db, ref, i);
    } else {
      forall e | 0 <= e < |db.waitlist| && after.waitlist[e] != db.waitlist[e]
        ensures exists i ::
          && 0 <= i < |Ledger.Offers(db.log)|
          && Ledger.Offers(db.log)[i].entry == e && Ledger.Offers(db.log)[i].booking == b
      {
        var i := ClaimedWasOffered(db, ref, e);
      }
    }
  }

  /** In every reachable state: a confirming success claims its own booking's entry only, exactly when no lapsed
      booking that was offered one of its seats still has an OFFERED entry. */
  lemma OwnClaimIff(db: Db, steps: seq<Step>, ref: PaymentRef)
    requires Initial(db)
    requires var now := Run(db, steps);
      ref in now.payments && now.payments[ref].booking < |now.bookings| && Confirms(now, ref)
    ensures var now := Run(db, steps);
      && Ledger.LedgerOk(now.catalog, now.bookings, now.waitlist, now.log)
      && (OnlyOwnClaim(now, WebhookSucceeded(now, ref).db, now.payments[ref].booking)
          <==> !SomeLapsedButOpen(now, now.payments[ref].booking))
  {
    Reachable(db, steps);
    Ledger.Reachable(db, steps);
    OwnClaimIffInState(Run(db, steps), ref);
  }

  /** No clock that a step reads is past `t`. */
  predicate NotAfter(step: Step, t: Time) {
    match step
    case HoldStep(_, _, _, now) => now <= t
    case PayStep(_, now, _) => now <= t
    case RecordStep(_, _) => true
    case WebhookStep(_, _, now, _) => now <= t
    case SweepStep(_, now, _) => now <= t
    case CancelStep(_, now, _) => now <= t
    case JoinStep(_, _, _) => true
    case ExpireOffersStep(now) => now <= t
  }

  /** EXPIRED bookings are past their deadline. */
  predicate ExpiredArePast(bookings: seq<Booking>, t: Time) {
    forall b: BookingId | b < |bookings| && bookings[b].status == Expired :: bookings[b].expiresAt < t
  }

  lemma OffersExpireNothing(
      db: Db, moved: Db, b: BookingId, ids: seq<SeatId>, show: ShowId, now: Time, ties: Ties, t: Time)
    requires ExpiredArePast(db.bookings, t) && b < |db.bookings|
    requires |moved.bookings| == |db.bookings|
    requires moved.bookings == db.bookings[b := db.bookings[b].(status := moved.bookings[b].status)]
    requires moved.bookings[b].status == Expired ==> db.bookings[b].expiresAt < t
    ensures ExpiredArePast(OfferFreed(moved, show, ids, now, ties).bookings, t)
  {
    OfferFreedFrame(moved, show, ids, now, ties);
  }

  lemma ExpiryIsPast(db: Db, b: BookingId, now: Time, ties: Ties, t: Time)
    requires ExpiredArePast(db.bookings, t) && b < |db.bookings| && db.bookings[b].expiresAt < now <= t
    ensures ExpiredArePast(ExpireBooking(db, b, now, ties).bookings, t)
  {
    if Live(db.bookings[b].status) {
      OffersExpireNothing(db, ReleaseHold(db, b, true), b, db.bookings[b].seats, db.bookings[b].show, now, ties, t);
    }
  }

  lemma PayKeepsPast(db: Db, b: BookingId, now: Time, ties: Ties, t: Time)
    requires ExpiredArePast(db.bookings, t) && b < |db.bookings| && now <= t
    ensures ExpiredArePast(InitiatePayment(db, b, now, ties).db.bookings, t)
  {
    if db.bookings[b].expiresAt < now {
      ExpiryIsPast(db, b, now, ties, t);
    }
  }

  lemma CancelKeepsPast(db: Db, b: BookingId, now: Time, ties: Ties, t: Time)
    requires ExpiredArePast(db.bookings, t) && b < |db.bookings|
    ensures ExpiredArePast(CancelBooking(db, b, now, ties).db.bookings, t)
  {
    var booking := db.bookings[b];
    if booking.status == Confirmed {
      var freed := db.(seats := Put(db.seats, Elements(booking.seats), FREE_SEAT));
      OffersExpireNothing(db, SetStatus(freed, b, Cancelled, BookingCancelled(b, booking.show)), b,
                          booking.seats, booking.show, now, ties, t);
    } else if booking.status == Held {
      OffersExpireNothing(db, ReleaseHold(db, b, false), b, booking.seats, booking.show, now, ties, t);
    }
  }

  lemma WebhookKeepsPast(db: Db, ref: PaymentRef, succeeded: bool, now: Time, ties: Ties, t: Time)
    requires ExpiredArePast(db.bookings, t) && ref in db.payments && db.payments[ref].booking < |db.bookings|
    ensures ExpiredArePast(HandleWebhook(db, ref, succeeded, now, ties).db.bookings, t)
  {
    var b := db.payments[ref].booking;
    var booking := db.bookings[b];
    if db.payments[ref].status == Pending && !succeeded && booking.status == PaymentPending {
      var freed := FreeHeldSeats(SettlePayment(db, ref, PaymentFailed), b);
      OffersExpireNothing(db, SetStatus(freed, b, Failed, BookingFailed(b, booking.show)), b,
                          booking.seats, booking.show, now, ties, t);
    }
  }

  lemma ApplyKeepsPast(db: Db, step: Step, t: Time)
    requires ExpiredArePast(db.bookings, t) && NotAfter(step, t)
    ensures ExpiredArePast(Apply(db, step).bookings, t)
  {
    match step
    case HoldStep(user, show, request, now) => HoldKeepsPast(db, user, show, request, now, t);
    case PayStep(b, now, ties) => if b < |db.bookings| { PayKeepsPast(db, b, now, ties, t); }
    case RecordStep(_, _) =>
    case WebhookStep(ref, succeeded, now, ties) =>
      if ref in db.payments && db.payments[ref].booking < |db.bookings| {
        WebhookKeepsPast(db, ref, succeeded, now, ties, t);
      }
    case SweepStep(b, now, ties) =>
      if b < |db.bookings| && OverdueAt(db.bookings[b], now) { ExpiryIsPast(db, b, now, ties, t); }
    case CancelStep(b, now, ties) => if b < |db.bookings| { CancelKeepsPast(db, b, now, ties, t); }
    case JoinStep(_, _, _) =>
    case ExpireOffersStep(_) =>
  }

  lemma HoldKeepsPast(db: Db, user: UserId, show: ShowId, request: seq<SeatId>, now: Time, t: Time)
    requires ExpiredArePast(db.bookings, t)
    ensures ExpiredArePast(CreateHold(db, user, show, request, now).db.bookings, t)
  {
  }

  lemma {:induction false} ReachablePast(db: Db, steps: seq<Step>, t: Time)
    requires Initial(db) && forall k | 0 <= k < |steps| :: NotAfter(steps[k], t)
    ensures ExpiredArePast(Run(db, steps).bookings, t)
    decreases |steps|
  {
    if steps != [] {
      ReachablePast(db, steps[..|steps| - 1], t);
      ApplyKeepsPast(Run(db, steps[..|steps| - 1]), steps[|steps| - 1], t);
    }
  }

  /** Where such offers come from. Right after the stale-offer step at `t`, an open offer of a lapsed booking is one
      given up before its deadline, by cancellation or a failed payment. An EXPIRED booking's offer is open only
      between its expiry and the next stale-offer step. */
  lemma LapsedButOpenWereGivenUp(db: Db, steps: seq<Step>, t: Time, i: nat)
    requires Initial(db) && forall k | 0 <= k < |steps| :: NotAfter(steps[k], t)
    requires i < |Ledger.Offers(Run(db, steps + [ExpireOffersStep(t)]).log)|
    ensures var now := Run(db, steps + [ExpireOffersStep(t)]);
      var offer := Ledger.Offers(now.log)[i];
      && offer.entry < |now.waitlist| && offer.booking < |now.bookings|
      && (now.waitlist[offer.entry].status == Offered && !Claims(now.bookings[offer.booking].status) ==>
           && (now.bookings[offer.booking].status == Cancelled || now.bookings[offer.booking].status == Failed)
           && t <= now.bookings[offer.booking].expiresAt)
  {
    var all := steps + [ExpireOffersStep(t)];
    ReachablePast(db, all, t);
    Ledger.Reachable(db, all);
    RunAppend(db, steps, ExpireOffersStep(t));
    OpenAfterLapses(Run(db, steps), t, Ledger.Offers(Run(db, all).log)[i]);
  }

  lemma OpenAfterLapses(before: Db, t: Time, offer: Event)
    requires var now := ExpireStaleOffers(before, t);
      && ExpiredArePast(now.bookings, t)
      && offer.WaitlistOffered? && Ledger.OfferOk(now.catalog, now.bookings, now.waitlist, offer)
    ensures var now := ExpireStaleOffers(before, t);
      now.waitlist[offer.entry].status == Offered && !Claims(now.bookings[offer.booking].status) ==>
        && (now.bookings[offer.booking].status == Cancelled || now.bookings[offer.booking].status == Failed)
        && t <= now.bookings[offer.booking].expiresAt
  {
    var now := ExpireStaleOffers(before, t);
    assert now.waitlist[offer.entry] == ExpireEntry(before.waitlist[offer.entry], t);
  }

  /** The two ways in which the example lets booking `b` lapse: its user cancels, or the sweep expires it. */
  predicate LapsesNow(db: Db, step: Step, b: BookingId)
    requires b < |db.bookings|
  {
    || (step.CancelStep? && step.b == b)
    || (step.SweepStep? && step.b == b && db.bookings[b].expiresAt < step.now)
  }

  function LapseTime(step: Step): Time
    requires step.CancelStep? || step.SweepStep?
  {
    step.now
  }

  function Released(db: Db, step: Step, b: BookingId): Db
    requires b < |db.bookings|
  {
    ReleaseHold(db, b, step.SweepStep?)
  }

  lemma LapseIsReleaseThenOffer(db: Db, step: Step, b: BookingId)
    requires b < |db.bookings| && db.bookings[b].status == Held && LapsesNow(db, step, b)
    ensures Apply(db, step)
      == OfferFreed(Released(db, step, b), db.bookings[b].show, db.bookings[b].seats, LapseTime(step), step.ties)
  {
  }

  /** A HELD one-seat booking lapses and its seat is offered to the first waiter. */
  lemma LapseOffers(db: Db, step: Step, b: BookingId, s: SeatId, section: SectionId, e: EntryId)
    requires b < |db.bookings| && db.bookings[b].status == Held && db.bookings[b].seats == [s] && LapsesNow(db, step, b)
    requires Known(db, s) && db.seats[s].owner == Some(b) && db.catalog[s].section == section
    requires e < |db.waitlist| && WaitingFor(db.waitlist[e], db.bookings[b].show, section)
    requires forall j | 0 <= j < |db.waitlist| && j != e && WaitingFor(db.waitlist[j], db.bookings[b].show, section) ::
      db.waitlist[e].position < db.waitlist[j].position
    ensures Apply(db, step) == Offer(Released(db, step, b), db.bookings[b].show, s, e, LapseTime(step))
  {
    var freed := Released(db, step, b);
    var show := db.bookings[b].show;
    assert s in OwnedAmong(db.seats, [s], b);
    OfferGoesTo(freed, show, section, s, e, step.now, step.ties);
    OneOffer(freed, show, [s], step.now, step.ties);
    LapseIsReleaseThenOffer(db, step, b);
  }

  lemma OneOffer(db: Db, show: ShowId, ids: seq<SeatId>, now: Time, ties: Ties)
    requires |ids| == 1
    ensures OfferFreed(db, show, ids, now, ties) == OfferOne(db, show, ids[0], now, ties)
  {
    assert OfferFreed(db, show, ids, now, ties) ==
      OfferFreed(OfferOne(db, show, ids[0], now, ties), show, ids[1..], now, ties);
  }

  /** Two wait for the seat of booking 0 ... */
  function TwoWaitRun(
      u: UserId, p: UserId, q: UserId, show: ShowId, section: SectionId, s: SeatId, now: Time): seq<Step> {
    [HoldStep(u, show, [s], now)] + [JoinStep(p, show, section), JoinStep(q, show, section)]
  }

  /** ... which is cancelled, so booking 1 is offered to `p`; that one lapses, so booking 2 is offered to
      `q`, who pays. */
  function ForeignClaimRun(
      u: UserId, p: UserId, q: UserId, show: ShowId, section: SectionId, s: SeatId, now: Time,
      lapse: Step, later: Time, ref: PaymentRef): seq<Step> {
    TwoWaitRun(u, p, q, show, section, s, now) + [CancelStep(0, now, map[]), lapse]
    + [PayStep(2, later, map[]), RecordStep(2, ref), WebhookStep(ref, true, later, map[])]
  }

  lemma TwoJoins(db: Db, show: ShowId, section: SectionId, p: UserId, q: UserId)
    requires db.waitlist == []
    ensures var after := Join(Join(db, p, show, section), q, show, section);
      && after == db.(waitlist := after.waitlist, log := after.log)
      && after.waitlist == [Entry(show, section, p, 1, Waiting, None, None),
                            Entry(show, section, q, 2, Waiting, None, None)]
  {
    var one := Join(db, p, show, section);
    assert Waiters(db.waitlist, show, section) == {};
    assert Waiters(one.waitlist, show, section) == {0};
  }

  /** Two open offers of one seat: the first made for a booking that has lapsed, the second for a HELD one. */
  ghost predicate OfferedTwice(db: Db, s: SeatId, p: UserId, q: UserId, deadline: Time) {
    && |db.waitlist| == 2 && db.payments == map[]
    && (forall e | 0 <= e < 2 :: db.waitlist[e].status == Offered && db.waitlist[e].offeredSeat == Some(s))
    && db.waitlist[0].user == p && db.waitlist[1].user == q
    && |db.bookings| == 3
    && db.bookings[1].user == p && !Claims(db.bookings[1].status)
    && db.bookings[2].user == q && db.bookings[2].status == Held && db.bookings[2].seats == [s]
    && db.bookings[2].expiresAt == deadline
  }

  ghost predicate TwoWait(db: Db, show: ShowId, section: SectionId, s: SeatId, p: UserId, q: UserId) {
    && |db.bookings| == 1 && db.bookings[0].status == Held && db.bookings[0].seats == [s] && db.bookings[0].show == show
    && Known(db, s) && db.seats[s].owner == Some(0) && db.catalog[s].section == section && db.payments == map[]
    && db.waitlist == [Entry(show, section, p, 1, Waiting, None, None), Entry(show, section, q, 2, Waiting, None, None)]
  }

  /** `p` and `q` are both marked CLAIMED; only `q` has a booking. */
  ghost predicate BothClaimed(db: Db, p: UserId, q: UserId) {
    && |db.waitlist| == 2 && |db.bookings| == 3
    && db.waitlist[0].user == p && db.waitlist[0].status == Claimed
    && db.bookings[1].user == p && !Claims(db.bookings[1].status)
    && db.waitlist[1].user == q && db.waitlist[1].status == Claimed
    && db.bookings[2].user == q && db.bookings[2].status == Confirmed
  }

  lemma TwoWaiting(db: Db, u: UserId, p: UserId, q: UserId, show: ShowId, section: SectionId, s: SeatId, now: Time)
    requires Initial(db) && show in db.shows && s in db.catalog
    requires db.catalog[s].show == show && db.catalog[s].section == section
    ensures TwoWait(Run(db, TwoWaitRun(u, p, q, show, section, s, now)), show, section, s, p, q)
  {
    var hold := [HoldStep(u, show, [s], now)];
    var joins := [JoinStep(p, show, section), JoinStep(q, show, section)];
    HoldOnSeeded(db, u, show, [s], now);
    RunOne(db, hold);
    assert s in [s];
    RunConcat(db, hold, joins);
    JoinsWait(Run(db, hold), p, q, show, section, s, joins);
  }

  lemma JoinsWait(db: Db, p: UserId, q: UserId, show: ShowId, section: SectionId, s: SeatId, joins: seq<Step>)
    requires joins == [JoinStep(p, show, section), JoinStep(q, show, section)]
    requires |db.bookings| == 1 && db.bookings[0].status == Held && db.bookings[0].seats == [s] &&
      db.bookings[0].show == show
    requires Known(db, s) && db.seats[s].owner == Some(0) && db.catalog[s].section == section && db.payments == map[]
    requires db.waitlist == []
    ensures TwoWait(Run(db, joins), show, section, s, p, q)
  {
    RunTwo(db, joins);
    TwoJoins(db, show, section, p, q);
  }

  /** The lapse that the example leaves open: a cancellation, or an expiry. */
  predicate IsLapse(lapse: Step, offered: Time) {
    || (lapse.CancelStep? && lapse.b == 1)
    || (lapse.SweepStep? && lapse.b == 1 && offered + WAITLIST_OFFER_TTL_SECONDS < lapse.now)
  }

  /** What the waitlist and the bookings are after the first offer. */
  ghost predicate OfferedOnce(
      db: Db, show: ShowId, section: SectionId, s: SeatId, p: UserId, q: UserId, deadline: Time) {
    && |db.bookings| == 2 && db.bookings[1] == Booking(p, show, Held, [s], deadline, db.bookings[1].total, false)
    && Known(db, s) && db.seats[s].owner == Some(1) && db.catalog[s].section == section && db.payments == map[]
    && |db.waitlist| == 2 && db.waitlist[0].user == p && db.waitlist[0].status == Offered &&
      db.waitlist[0].offeredSeat == Some(s)
    && db.waitlist[1] == Entry(show, section, q, 2, Waiting, None, None)
  }

  lemma CancelOffersFirst(db: Db, show: ShowId, section: SectionId, s: SeatId, p: UserId, q: UserId, now: Time)
    requires TwoWait(db, show, section, s, p, q)
    ensures OfferedOnce(Apply(db, CancelStep(0, now, map[])), show, section, s, p, q, now + WAITLIST_OFFER_TTL_SECONDS)
  {
    LapseOffers(db, CancelStep(0, now, map[]), 0, s, section, 0);
  }

  lemma LapseOffersSecond(
      db: Db, show: ShowId, section: SectionId, s: SeatId, p: UserId, q: UserId, offered: Time, lapse: Step)
    requires OfferedOnce(db, show, section, s, p, q, offered + WAITLIST_OFFER_TTL_SECONDS) && IsLapse(lapse, offered)
    ensures OfferedTwice(Apply(db, lapse), s, p, q, lapse.now + WAITLIST_OFFER_TTL_SECONDS)
  {
    LapseOffers(db, lapse, 1, s, section, 1);
    SecondOffer(db, show, section, s, p, q, offered + WAITLIST_OFFER_TTL_SECONDS, lapse);
  }

  lemma SecondOffer(
      db: Db, show: ShowId, section: SectionId, s: SeatId, p: UserId, q: UserId, deadline: Time, lapse: Step)
    requires OfferedOnce(db, show, section, s, p, q, deadline) && (lapse.CancelStep? || lapse.SweepStep?)
    ensures var freed := Released(db, lapse, 1);
      Known(freed, s) && |freed.waitlist| == 2
      && OfferedTwice(Offer(freed, show, s, 1, LapseTime(lapse)), s, p, q, lapse.now + WAITLIST_OFFER_TTL_SECONDS)
  {
  }

  lemma CancelThenLapse(
      db: Db, show: ShowId, section: SectionId, s: SeatId, p: UserId, q: UserId, now: Time, lapse: Step)
    requires TwoWait(db, show, section, s, p, q) && IsLapse(lapse, now)
    ensures OfferedTwice(Run(db, [CancelStep(0, now, map[]), lapse]), s, p, q, lapse.now + WAITLIST_OFFER_TTL_SECONDS)
  {
    RunTwo(db, [CancelStep(0, now, map[]), lapse]);
    CancelOffersFirst(db, show, section, s, p, q, now);
    LapseOffersSecond(Apply(db, CancelStep(0, now, map[])), show, section, s, p, q, now, lapse);
  }

  lemma PayClaimsBoth(
      db: Db, s: SeatId, p: UserId, q: UserId, deadline: Time, later: Time, ref: PaymentRef, pay: seq<Step>)
    requires OfferedTwice(db, s, p, q, deadline) && later <= deadline
    requires pay == [PayStep(2, later, map[]), RecordStep(2, ref), WebhookStep(ref, true, later, map[])]
    ensures BothClaimed(Run(db, pay), p, q)
  {
    RunThree(db, pay);
    PayAndRecord(db, 2, later, ref);
    SuccessConfirms(Apply(Apply(db, pay[0]), pay[1]), ref, later);
  }

  /** Two waiters for one seat of a seeded database, the first of whom lets the offered booking lapse: when the second
      pays, both entries end CLAIMED, and the first user has no booking. The lapse may be a cancellation, or an expiry
      whose stale-offer step has not run yet. */
  lemma ClaimedWithoutBooking(
      db: Db, u: UserId, p: UserId, q: UserId, show: ShowId, section: SectionId, s: SeatId, now: Time,
      lapse: Step, later: Time, ref: PaymentRef)
    requires Initial(db) && show in db.shows && s in db.catalog
    requires db.catalog[s].show == show && db.catalog[s].section == section
    requires IsLapse(lapse, now) && later <= lapse.now + WAITLIST_OFFER_TTL_SECONDS
    ensures BothClaimed(Run(db, ForeignClaimRun(u, p, q, show, section, s, now, lapse, later, ref)), p, q)
  {
    var front, middle := TwoWaitRun(u, p, q, show, section, s, now), [CancelStep(0, now, map[]), lapse];
    var pay := [PayStep(2, later, map[]), RecordStep(2, ref), WebhookStep(ref, true, later, map[])];
    TwoWaiting(db, u, p, q, show, section, s, now);
    CancelThenLapse(Run(db, front), show, section, s, p, q, now, lapse);
    PayClaimsBoth(Run(Run(db, front), middle), s, p, q, lapse.now + WAITLIST_OFFER_TTL_SECONDS, later, ref, pay);
    RunConcat(db, front, middle);
    RunConcat(db, front + middle, pay);
  }
}
