/** Requests and worker ticks, run one transaction at a time against the tables. */
module Service {
  import opened Records
  import opened System
  import opened Database
  import Ownership

  /** One transaction, carried out by the statements of its service. */
  method Execute(t: Tables, step: Step)
    modifies t
    ensures t.State() == Apply(old(t.State()), step)
  {
    match step {
      case HoldStep(user, show, request, now) =>
        var outcome := t.CreateHold(user, show, request, now);
      case PayStep(b, now, ties) =>
        if b < |t.bookings| {
          var outcome := t.InitiatePayment(b, now, ties);
        }
      case RecordStep(b, ref) =>
        if b < |t.bookings| {
          t.RecordPaymentPending(b, ref);
        }
      case WebhookStep(ref, succeeded, now, ties) =>
        if ref in t.payments && t.payments[ref].booking < |t.bookings| {
          var outcome := t.HandleWebhook(ref, succeeded, now, ties);
        }
      case SweepStep(b, now, ties) =>
        if b < |t.bookings| && Expiry.OverdueAt(t.bookings[b], now) {
          t.ExpireBooking(b, now, ties);
        }
      case CancelStep(b, now, ties) =>
        if b < |t.bookings| {
          var accepted := t.CancelBooking(b, now, ties);
        }
      case JoinStep(user, show, section) =>
        t.JoinWaitlist(user, show, section);
      case ExpireOffersStep(now) =>
        var count := t.ExpireStaleOffers(now);
    }
  }

  /** Any sequence of transactions on a freshly seeded database: the tables go through the states
      of the transition system, so they keep seat ownership. */
  method ExecuteAll(shows: set<ShowId>, catalog: map<SeatId, SeatInfo>, steps: seq<Step>) returns (t: Tables)
    ensures fresh(t) && t.State() == Run(Seeded(shows, catalog), steps)
    ensures Ownership.Owned(t.State())
  {
    t := new Tables(shows, catalog);
    ghost var db := Seeded(shows, catalog);
    var i := 0;
    while i < |steps|
      invariant i <= |steps| && fresh(t)
      invariant t.State() == Run(db, steps[..i])
    {
      Execute(t, steps[i]);
      i := i + 1;
      assert steps[..i][..i - 1] == steps[..i - 1];
    }
    assert steps[..i] == steps;
    Ownership.Reachable(db, steps);
  }
}
