/** What each transaction writes to the outbox, and whom it reaches. */
module EventLog {
  import opened Commons
  import opened Records
  import opened Waitlist
  import opened HoldOutcomes
  import opened System
  import opened Ownership
  import opened RowTables
  import Outbox
  import StatusHistory

  /** The rows that the step writes before those of its offers. */
  function Told(db: Db, step: Step): seq<Event> {
    match step
    case HoldStep(_, show, request, _) =>
      if CanHold(db, show, request) then [BookingHeld(|db.bookings|, show)] else []
    case JoinStep(user, show, section) => [WaitlistJoined(user, show, |Waiters(db.waitlist, show, section)| + 1)]
    case _ => if Subject(db, step).None? then [] else ToldOf(db, step, Subject(db, step).value)
  }

  function ToldOf(db: Db, step: Step, b: BookingId): seq<Event>
    requires b < |db.bookings|
  {
    var show := db.bookings[b].show;
    if GivesUp(db, step, b) then [RetiredEvent(b, NextStatus(db, step, b), show)]
    else if Sells(db, step, b) then [BookingConfirmed(b, show)]
    else if StartsPaying(db, step, b) then [BookingPaymentPending(b)]
    else if step.WebhookStep? && step.succeeded then [PaymentRefunded(step.ref, b)]
    else []
  }

  /** The log has grown by `told`, and then by offers for the show. */
  ghost predicate GrewBy(log: seq<Event>, after: seq<Event>, told: seq<Event>, show: Option<ShowId>) {
    && log + told <= after && (show == None ==> after == log + told)
    && forall k | |log + told| <= k < |after| :: after[k].WaitlistOffered? && Some(after[k].show) == show
  }

  lemma {:induction false} OffersAreLogged(db: Db, show: ShowId, ids: seq<SeatId>, now: Time, ties: Ties)
    ensures GrewBy(db.log, OfferFreed(db, show, ids, now, ties).log, [], Some(show))
    decreases |ids|
  {
    if ids != [] {
      var one := OfferOne(db, show, ids[0], now, ties);
      OffersAreLogged(one, show, ids[1..], now, ties);
      OfferIsLogged(db, show, ids[0], now, ties);
    }
  }

  lemma OfferIsLogged(db: Db, show: ShowId, s: SeatId, now: Time, ties: Ties)
    ensures GrewBy(db.log, OfferOne(db, show, s, now, ties).log, [], Some(show))
  {
  }

  /** The show whose seats the step offers. */
  function Offering(db: Db, step: Step): Option<ShowId> {
    if Subject(db, step).Some? && GivesUp(db, step, Subject(db, step).value)
    then Some(db.bookings[Subject(db, step).value].show) else None
  }

  /** The log follows its table: the one row of what the transaction did, then the rows of its offers. */
  lemma LogIs(db: Db, step: Step)
    requires Owned(db)
    ensures GrewBy(db.log, Apply(db, step).log, Told(db, step), Offering(db, step))
  {
    if step.HoldStep? {
      HoldsAllOrNothing(db, step.user, step.show, step.request, step.now);
    } else if Subject(db, step).None? {
      NoSubjectLogIs(db, step);
    } else {
      var b := Subject(db, step).value;
      if GivesUp(db, step, b) {
        GivenUpLogIs(db, step, b);
      } else if step.WebhookStep? {
        SettledLogIs(db, step);
      } else if StartsPaying(db, step, b) {
        PayStartIs(db, step, b);
      } else {
        RefusedIs(db, step);
      }
    }
  }

  lemma GivenUpLogIs(db: Db, step: Step, b: BookingId)
    requires Owned(db) && GivesUp(db, step, b)
    ensures GrewBy(db.log, Apply(db, step).log, Told(db, step), Offering(db, step))
  {
    var freed := Freed(db, step, b);
    GivingUpFreesAndOffers(db, step, b);
    assert freed.log == db.log + Told(db, step);
    OffersAreLogged(freed, db.bookings[b].show, db.bookings[b].seats, Clock(step), TiesOf(step));
  }

  lemma SettledLogIs(db: Db, step: Step)
    requires Owned(db) && Settles(db, step) && !GivesUp(db, step, db.payments[step.ref].booking)
    ensures Apply(db, step).log == db.log + Told(db, step)
  {
    if step.succeeded {
      SuccessIs(db, step);
      assert AfterSuccess(db, step).log == db.log + Told(db, step);
    } else {
      IdleFailureIs(db, step);
    }
  }

  lemma NoSubjectLogIs(db: Db, step: Step)
    requires Subject(db, step).None? && !step.HoldStep?
    ensures Apply(db, step).log == db.log + Told(db, step)
  {
  }

  /** A row about a booking names its show, where it names one. */
  predicate ShowMatches(bookings: seq<Booking>, e: Event) {
    match e
    case BookingHeld(b, show) => b < |bookings| && bookings[b].show == show
    case BookingExpired(b, show) => b < |bookings| && bookings[b].show == show
    case BookingCancelled(b, show) => b < |bookings| && bookings[b].show == show
    case BookingFailed(b, show) => b < |bookings| && bookings[b].show == show
    case BookingConfirmed(b, show) => b < |bookings| && bookings[b].show == show
    case WaitlistOffered(_, b, show, _) => b < |bookings| && bookings[b].show == show
    case _ => true
  }

  ghost predicate ShowsMatch(bookings: seq<Booking>, log: seq<Event>) {
    forall k | 0 <= k < |log| :: ShowMatches(bookings, log[k])
  }

  lemma {:induction false} OffersMatch(db: Db, show: ShowId, ids: seq<SeatId>, now: Time, ties: Ties)
    requires ShowsMatch(db.bookings, db.log)
    ensures var after := OfferFreed(db, show, ids, now, ties); ShowsMatch(after.bookings, after.log)
    decreases |ids|
  {
    if ids != [] {
      OfferMatches(db, show, ids[0], now, ties);
      OffersMatch(OfferOne(db, show, ids[0], now, ties), show, ids[1..], now, ties);
    }
  }

  lemma OfferMatches(db: Db, show: ShowId, s: SeatId, now: Time, ties: Ties)
    requires ShowsMatch(db.bookings, db.log)
    ensures var one := OfferOne(db, show, s, now, ties); ShowsMatch(one.bookings, one.log)
  {
  }

  lemma StepMatches(db: Db, step: Step)
    requires Owned(db) && ShowsMatch(db.bookings, db.log)
    ensures ShowsMatch(Apply(db, step).bookings, Apply(db, step).log)
  {
    if Offering(db, step).Some? {
      OfferingMatches(db, step, Subject(db, step).value);
    } else {
      var after := Apply(db, step);
      LogIs(db, step);
      ToldAtMostOne(db, step);
      SameShows(db, step);
      ToldMatches(db, step);
      MatchesGrow(db.bookings, db.log, after.bookings, after.log, Told(db, step));
    }
  }

  lemma OfferingMatches(db: Db, step: Step, b: BookingId)
    requires Owned(db) && ShowsMatch(db.bookings, db.log) && GivesUp(db, step, b)
    ensures ShowsMatch(Apply(db, step).bookings, Apply(db, step).log)
  {
    GivingUpFreesAndOffers(db, step, b);
    OffersMatch(Freed(db, step, b), db.bookings[b].show, db.bookings[b].seats, Clock(step), TiesOf(step));
  }

  lemma SameShows(db: Db, step: Step)
    requires Owned(db)
    ensures var after := Apply(db, step).bookings;
      |db.bookings| <= |after| && forall b | 0 <= b < |db.bookings| :: after[b].show == db.bookings[b].show
  {
    var after := Apply(db, step).bookings;
    forall b: nat | b < |db.bookings| ensures b < |after| && after[b].show == db.bookings[b].show {
      BookingIs(db, step, b);
    }
    if |db.bookings| > 0 {
      BookingIs(db, step, |db.bookings| - 1);
    }
  }

  /** The row of what the transaction did names the show of its booking. */
  lemma ToldMatches(db: Db, step: Step)
    requires Owned(db)
    ensures forall k | 0 <= k < |Told(db, step)| :: ShowMatches(Apply(db, step).bookings, Told(db, step)[k])
  {
    if step.HoldStep? {
      HoldsAllOrNothing(db, step.user, step.show, step.request, step.now);
    } else if Subject(db, step).Some? {
      BookingIs(db, step, Subject(db, step).value);
    }
  }

  lemma MatchesGrow(
      bookings: seq<Booking>, log: seq<Event>, bookings': seq<Booking>, log': seq<Event>, told: seq<Event>)
    requires ShowsMatch(bookings, log) && GrewBy(log, log', told, None)
    requires |bookings| <= |bookings'| && forall b | 0 <= b < |bookings| :: bookings'[b].show == bookings[b].show
    requires forall k | 0 <= k < |told| :: ShowMatches(bookings', told[k])
    ensures ShowsMatch(bookings', log')
  {
    forall k | 0 <= k < |log'| ensures ShowMatches(bookings', log'[k]) {
      if k < |log| {
        assert ShowMatches(bookings, log[k]);
      } else {
        assert log'[k] == told[k - |log|];
      }
    }
  }

  lemma {:induction false} AlwaysMatches(db: Db, steps: seq<Step>)
    requires Initial(db)
    ensures ShowsMatch(Run(db, steps).bookings, Run(db, steps).log)
    decreases |steps|
  {
    if steps != [] {
      var shorter := steps[..|steps| - 1];
      AlwaysMatches(db, shorter);
      Reachable(db, shorter);
      StepMatches(Run(db, shorter), steps[|steps| - 1]);
    }
  }

  /** Every row that reports a status change of a booking goes to the channel of that booking's show, except for the
      start of a payment, which goes to none. */
  lemma ChangesReachTheirShow(db: Db, steps: seq<Step>, k: nat)
    requires Initial(db) && k < |Run(db, steps).log|
    requires StatusHistory.Reported(Run(db, steps).log[k]).Some?
    ensures var now := Run(db, steps);
      var (b, status) := StatusHistory.Reported(now.log[k]).value;
      (status != PaymentPending ==> b < |now.bookings|) &&
      Outbox.ChannelFor(now.log[k]) == if status == PaymentPending then None else Some(now.bookings[b].show)
  {
    AlwaysMatches(db, steps);
    assert ShowMatches(Run(db, steps).bookings, Run(db, steps).log[k]);
  }

  /** The rows of the log that report a refund of `ref`. */
  function Refunds(log: seq<Event>, ref: PaymentRef): set<nat> {
    set k: nat | k < |log| && log[k].PaymentRefunded? && log[k].ref == ref
  }

  /** Each refunded payment is reported once, and no other is. */
  ghost predicate RefundsOk(db: Db) {
    forall ref: PaymentRef ::
      |Refunds(db.log, ref)| == if ref in db.payments && db.payments[ref].status == Refunded then 1 else 0
  }

  lemma RefundsGrow(log: seq<Event>, after: seq<Event>, told: seq<Event>, show: Option<ShowId>, ref: PaymentRef)
    requires GrewBy(log, after, told, show) && |told| <= 1
    ensures Refunds(after, ref) == Refunds(log, ref) +
      if told != [] && told[0].PaymentRefunded? && told[0].ref == ref then {|log|} else {}
  {
    assert forall k | 0 <= k < |log + told| :: after[k] == (log + told)[k];
  }

  lemma ToldAtMostOne(db: Db, step: Step)
    ensures |Told(db, step)| <= 1
  {
  }

  /** A step reports a refund exactly when it makes one. */
  lemma RefundToldIff(db: Db, step: Step, ref: PaymentRef)
    requires ref in db.payments ==> db.payments[ref].booking < |db.bookings|
    ensures var told := Told(db, step);
      var refunded := NextPayment(db, step, ref) != None && NextPayment(db, step, ref).value.status == Refunded;
      var was := ref in db.payments && db.payments[ref].status == Refunded;
      && (told != [] && told[0].PaymentRefunded? && told[0].ref == ref <==> refunded && !was)
      && (was ==> refunded)
  {
  }

  lemma StepKeepsRefunds(db: Db, step: Step)
    requires Owned(db) && RefundsOk(db)
    ensures RefundsOk(Apply(db, step))
  {
    LogIs(db, step);
    ToldAtMostOne(db, step);
    forall ref: PaymentRef ensures |Refunds(Apply(db, step).log, ref)|
      == if ref in Apply(db, step).payments && Apply(db, step).payments[ref].status == Refunded then 1 else 0
    {
      assert ref in db.payments ==> PaymentOk(db, ref);
      PaymentIs(db, step, ref);
      RefundToldIff(db, step, ref);
      RefundsGrow(db.log, Apply(db, step).log, Told(db, step), Offering(db, step), ref);
      assert |db.log| !in Refunds(db.log, ref);
    }
  }

  /** In every reachable state the outbox reports a refund once for each REFUNDED payment and for no other. */
  lemma {:induction false} RefundsAreReported(db: Db, steps: seq<Step>)
    requires Initial(db)
    ensures RefundsOk(Run(db, steps))
    decreases |steps|
  {
    if steps == [] {
      assert forall ref :: Refunds([], ref) == {};
    } else {
      var shorter := steps[..|steps| - 1];
      RefundsAreReported(db, shorter);
      Reachable(db, shorter);
      StepKeepsRefunds(Run(db, shorter), steps[|steps| - 1]);
    }
  }

  /** The joins that the log reports, oldest first. */
  function Joins(log: seq<Event>): (r: seq<Event>)
    ensures forall k | 0 <= k < |r| :: r[k].WaitlistJoined?
    decreases |log|
  {
    if log == [] then [] else
      Joins(log[..|log| - 1]) + if log[|log| - 1].WaitlistJoined? then [log[|log| - 1]] else []
  }

  /** The k-th join reported is that of the k-th entry. */
  ghost predicate JoinsOk(db: Db) {
    && |Joins(db.log)| == |db.waitlist|
    && forall k | 0 <= k < |db.waitlist| :: Joins(db.log)[k] ==
         WaitlistJoined(db.waitlist[k].user, db.waitlist[k].show, db.waitlist[k].position)
  }

  lemma {:induction false} JoinsGrow(log: seq<Event>, after: seq<Event>, told: seq<Event>, show: Option<ShowId>)
    requires GrewBy(log, after, told, show) && |told| <= 1
    ensures Joins(after) == Joins(log) + if told != [] && told[0].WaitlistJoined? then told else []
    decreases |after|
  {
    if |after| > |log + told| {
      JoinsGrow(log, after[..|after| - 1], told, show);
    } else {
      assert after == log + told;
      if told == [] {
        assert after == log;
      } else {
        assert after[..|after| - 1] == log && told == [after[|after| - 1]];
      }
    }
  }

  /** An entry keeps who joined, for what and where. */
  lemma EntryIdentity(db: Db, step: Step, i: EntryId)
    requires Owned(db) && i < |db.waitlist|
    ensures i < |Apply(db, step).waitlist|
    ensures var before, after := db.waitlist[i], Apply(db, step).waitlist[i];
      after.user == before.user && after.show == before.show && after.position == before.position
  {
    EntryIs(db, step, i);
  }

  lemma StepKeepsJoins(db: Db, step: Step)
    requires Owned(db) && JoinsOk(db)
    ensures JoinsOk(Apply(db, step))
  {
    LogIs(db, step);
    ToldAtMostOne(db, step);
    JoinsGrow(db.log, Apply(db, step).log, Told(db, step), Offering(db, step));
    JoinAddsOne(db, step);
    JoinToldIff(db, step);
    forall i: nat | i < |db.waitlist|
      ensures i < |Apply(db, step).waitlist| && Apply(db, step).waitlist[i].user == db.waitlist[i].user
      ensures Apply(db, step).waitlist[i].show == db.waitlist[i].show
      ensures Apply(db, step).waitlist[i].position == db.waitlist[i].position
    {
      EntryIdentity(db, step, i);
    }
  }

  lemma JoinToldIff(db: Db, step: Step)
    ensures Told(db, step) != [] && Told(db, step)[0].WaitlistJoined? <==> step.JoinStep?
  {
  }

  /** In every reachable state the joins reported are those of the entries, in order, with user, show and position. */
  lemma {:induction false} JoinsAreReported(db: Db, steps: seq<Step>)
    requires Initial(db)
    ensures JoinsOk(Run(db, steps))
    decreases |steps|
  {
    if steps != [] {
      var shorter := steps[..|steps| - 1];
      JoinsAreReported(db, shorter);
      Reachable(db, shorter);
      StepKeepsJoins(Run(db, shorter), steps[|steps| - 1]);
    }
  }

  lemma {:induction false} JoinsCovers(log: seq<Event>, k: nat)
    requires k < |log| && log[k].WaitlistJoined?
    ensures log[k] in Joins(log)
    decreases |log|
  {
    if k < |log| - 1 {
      JoinsCovers(log[..|log| - 1], k);
    }
  }

  /** The other rows: a join goes to the channel of the show of its entry, a refund to none. */
  lemma OtherRowsReachTheirShow(db: Db, steps: seq<Step>, k: nat)
    requires Initial(db) && k < |Run(db, steps).log|
    requires StatusHistory.Reported(Run(db, steps).log[k]).None?
    ensures var now := Run(db, steps);
      if now.log[k].PaymentRefunded? then Outbox.ChannelFor(now.log[k]) == None
      else exists i | 0 <= i < |now.waitlist| ::
        now.log[k] == WaitlistJoined(now.waitlist[i].user, now.waitlist[i].show, now.waitlist[i].position)
        && Outbox.ChannelFor(now.log[k]) == Some(now.waitlist[i].show)
  {
    var now := Run(db, steps);
    JoinsAreReported(db, steps);
    if now.log[k].WaitlistJoined? {
      JoinsCovers(now.log, k);
      var i :| 0 <= i < |Joins(now.log)| && Joins(now.log)[i] == now.log[k];
      assert 0 <= i < |now.waitlist|;
    }
  }
}
