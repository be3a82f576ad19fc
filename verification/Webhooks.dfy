/** Duplicated, reordered and contradictory webhook deliveries. */
module Webhooks {
  import opened Records
  import opened Waitlist
  import opened Bookings
  import opened System
  import Ownership

  /** A payment's booking and amount never change, and once it has left PENDING neither does its status. */
  ghost predicate Settles(before: map<PaymentRef, Payment>, after: map<PaymentRef, Payment>) {
    forall ref | ref in before ::
      && ref in after
      && after[ref].booking == before[ref].booking && after[ref].amount == before[ref].amount
      && (before[ref].status != Pending ==> after[ref] == before[ref])
  }

  lemma ApplySettles(db: Db, step: Step)
    ensures Settles(db.payments, Apply(db, step).payments)
  {
    match step
    case WebhookStep(ref, succeeded, now, ties) =>
      if ref in db.payments && db.payments[ref].booking < |db.bookings| && db.payments[ref].status == Pending {
        HandleSettles(db, ref, succeeded, now, ties);
      }
    case _ =>
  }

  /** A delivery for a PENDING payment rewrites the status of that payment only, and always. */
  lemma HandleSettles(db: Db, ref: PaymentRef, succeeded: bool, now: Time, ties: Ties)
    requires ref in db.payments && db.payments[ref].booking < |db.bookings| && db.payments[ref].status == Pending
    ensures var after := HandleWebhook(db, ref, succeeded, now, ties).db.payments;
      SettlesOnly(db.payments, ref, after)
  {
  }

  /** Whether some delivery for `ref` in the run found the payment recorded. */
  predicate Delivered(db: Db, steps: seq<Step>, ref: PaymentRef)
    decreases |steps|
  {
    steps != [] &&
    var before := steps[..|steps| - 1];
    var last := steps[|steps| - 1];
    Delivered(db, before, ref) || (last.WebhookStep? && last.ref == ref && ref in Run(db, before).payments)
  }

  /** The run without the deliveries that find no payment or come after the first that found one. */
  function FirstDeliveries(db: Db, steps: seq<Step>): seq<Step>
    decreases |steps|
  {
    if steps == [] then [] else
      var before := steps[..|steps| - 1];
      var last := steps[|steps| - 1];
      FirstDeliveries(db, before) +
        if last.WebhookStep? && (last.ref !in Run(db, before).payments || Delivered(db, before, last.ref))
        then [] else [last]
  }

  lemma {:induction false} DeliveredIsSettled(db: Db, steps: seq<Step>, ref: PaymentRef)
    requires Initial(db) && Delivered(db, steps, ref)
    ensures ref in Run(db, steps).payments && Run(db, steps).payments[ref].status != Pending
    decreases |steps|
  {
    var shorter := steps[..|steps| - 1];
    var last := steps[|steps| - 1];
    var before := Run(db, shorter);
    ApplySettles(before, last);
    if Delivered(db, shorter, ref) {
      DeliveredIsSettled(db, shorter, ref);
    } else {
      Ownership.Reachable(db, shorter);
      assert Ownership.PaymentOk(before, ref);
      if before.payments[ref].status == Pending {
        HandleSettles(before, ref, last.succeeded, last.now, last.ties);
      }
    }
  }

  /** Only the first delivery per recorded payment matters, whatever the later ones claim. */
  lemma {:induction false} OnlyFirstDeliveriesMatter(db: Db, steps: seq<Step>)
    requires Initial(db)
    ensures Run(db, FirstDeliveries(db, steps)) == Run(db, steps)
    decreases |steps|
  {
    if steps != [] {
      var shorter := steps[..|steps| - 1];
      var last := steps[|steps| - 1];
      OnlyFirstDeliveriesMatter(db, shorter);
      if last.WebhookStep? && Delivered(db, shorter, last.ref) {
        DeliveredIsSettled(db, shorter, last.ref);
      }
      var kept := FirstDeliveries(db, shorter);
      assert (kept + [last])[..|kept|] == kept && kept + [] == kept;
    }
  }

  lemma {:induction false} KeptWasDelivered(db: Db, steps: seq<Step>, i: nat)
    requires i < |FirstDeliveries(db, steps)| && FirstDeliveries(db, steps)[i].WebhookStep?
    ensures Delivered(db, steps, FirstDeliveries(db, steps)[i].ref)
    decreases |steps|
  {
    var shorter := steps[..|steps| - 1];
    if i < |FirstDeliveries(db, shorter)| {
      KeptWasDelivered(db, shorter, i);
    }
  }

  /** The reduced run delivers each payment at most once. */
  lemma {:induction false} KeptDeliveriesAreDistinct(db: Db, steps: seq<Step>, i: nat, j: nat)
    requires i < j < |FirstDeliveries(db, steps)|
    requires FirstDeliveries(db, steps)[i].WebhookStep? && FirstDeliveries(db, steps)[j].WebhookStep?
    ensures FirstDeliveries(db, steps)[i].ref != FirstDeliveries(db, steps)[j].ref
    decreases |steps|
  {
    var shorter := steps[..|steps| - 1];
    if j < |FirstDeliveries(db, shorter)| {
      KeptDeliveriesAreDistinct(db, shorter, i, j);
    } else {
      KeptWasDelivered(db, shorter, i);
    }
  }

  /** A payment that has left PENDING is the same in every later state. */
  lemma {:induction false} SettledForever(db: Db, steps: seq<Step>, ref: PaymentRef)
    requires ref in db.payments && db.payments[ref].status != Pending
    ensures ref in Run(db, steps).payments && Run(db, steps).payments[ref] == db.payments[ref]
    decreases |steps|
  {
    if steps != [] {
      SettledForever(db, steps[..|steps| - 1], ref);
      ApplySettles(Run(db, steps[..|steps| - 1]), steps[|steps| - 1]);
    }
  }
}
