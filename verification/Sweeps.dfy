/** Repeated sweeps with the clock held fixed. */
module Sweeps {
  import opened Commons
  import opened Records
  import opened Waitlist
  import opened Holds
  import opened Expiry
  import opened Ownership

  /** Expiring an overdue booking removes it from the overdue ones; the offers made on its seats
      create bookings that are not overdue themselves. */
  lemma ExpireRemovesOne(db: Db, b: BookingId, now: Time, ties: Ties)
    requires b in Overdue(db, now)
    ensures Overdue(ExpireCandidate(db, b, now, ties), now) == Overdue(db, now) - {b}
  {
    OfferFreedFrame(ReleaseHold(db, b, true), db.bookings[b].show, db.bookings[b].seats, now, ties);
  }

  lemma {:induction false} ExpireAll(db: Db, candidates: seq<BookingId>, now: Time, ties: Ties)
    requires Owned(db) && Distinct(candidates) && Elements(candidates) <= Overdue(db, now)
    ensures var after := ExpireCandidates(db, candidates, now, ties);
      && Overdue(after, now) == Overdue(db, now) - Elements(candidates)
      && ExpiredCount(db, candidates, now, ties) == |candidates|
      && Owned(after)
    decreases |candidates|
  {
    if candidates == [] {
      assert Elements(candidates) == {};
    } else {
      var b := candidates[0];
      var rest := candidates[1..];
      assert b in Elements(candidates);
      assert candidates == [b] + rest;
      assert Elements(candidates) == {b} + Elements(rest);
      ExpireRemovesOne(db, b, now, ties);
      ExpireKeeps(db, b, now, ties);
      ExpireAll(ExpireCandidate(db, b, now, ties), rest, now, ties);
    }
  }

  /** A sweep expires min(500, n) of the n overdue bookings and adds none. */
  lemma SweepShrinks(db: Db, candidates: seq<BookingId>, now: Time, ties: Ties)
    requires Owned(db) && IsSelection(db, candidates, now)
    ensures var n := |Overdue(db, now)|;
      var after := SweepOnce(db, candidates, now, ties);
      && Owned(after)
      && |Overdue(after, now)| == (if n < SWEEP_LIMIT then 0 else n - SWEEP_LIMIT)
      && ExpiredCount(db, candidates, now, ties) == (if n < SWEEP_LIMIT then n else SWEEP_LIMIT)
      && (forall i | 0 <= i < |after.waitlist| :: !StaleOffer(after.waitlist[i], now))
  {
    ExpireAll(db, candidates, now, ties);
    DistinctCardinality(candidates);
    var swept := ExpireCandidates(db, candidates, now, ties);
    OwnedIgnoresWaitlistAndLog(swept, ExpireStaleOffers(swept, now));
    assert Overdue(ExpireStaleOffers(swept, now), now) == Overdue(swept, now);
  }

  /** `after` is one possible result of sweeping `before`. */
  ghost predicate IsSweep(before: Db, after: Db, now: Time) {
    exists candidates, ties :: IsSelection(before, candidates, now) && after == SweepOnce(before, candidates, now, ties)
  }

  ghost predicate IsSweepRun(dbs: seq<Db>, now: Time) {
    dbs != [] && forall i | 0 <= i < |dbs| - 1 :: IsSweep(dbs[i], dbs[i + 1], now)
  }

  lemma {:induction false} OverdueAfter(dbs: seq<Db>, now: Time, k: nat)
    requires IsSweepRun(dbs, now) && Owned(dbs[0]) && k < |dbs|
    ensures Owned(dbs[k])
    ensures var n := |Overdue(dbs[0], now)|;
      |Overdue(dbs[k], now)| == if n < SWEEP_LIMIT * k then 0 else n - SWEEP_LIMIT * k
    ensures k > 0 ==> forall i | 0 <= i < |dbs[k].waitlist| :: !StaleOffer(dbs[k].waitlist[i], now)
    decreases k
  {
    if k > 0 {
      OverdueAfter(dbs, now, k - 1);
      assert IsSweep(dbs[k - 1], dbs[k - 1 + 1], now);
      var candidates, ties :| IsSelection(dbs[k - 1], candidates, now) &&
        dbs[k] == SweepOnce(dbs[k - 1], candidates, now, ties);
      SweepShrinks(dbs[k - 1], candidates, now, ties);
    }
  }

  /** A sweep with nothing overdue and no stale offer changes nothing. */
  lemma QuietSweep(db: Db, after: Db, now: Time)
    requires Overdue(db, now) == {} && IsSweep(db, after, now)
    requires forall i | 0 <= i < |db.waitlist| :: !StaleOffer(db.waitlist[i], now)
    ensures after == db
  {
    var candidates, ties :| IsSelection(db, candidates, now) && after == SweepOnce(db, candidates, now, ties);
    assert |candidates| == 0;
    assert after.waitlist == db.waitlist;
  }

  /** Enough sweeps of 500 clear every overdue hold: no seat stays HELD past its deadline,
      and any further sweep is the identity. */
  lemma SweepsConverge(dbs: seq<Db>, now: Time, k: nat)
    requires IsSweepRun(dbs, now) && Owned(dbs[0]) && 0 < k < |dbs|
    requires |Overdue(dbs[0], now)| <= SWEEP_LIMIT * k
    ensures forall s | s in dbs[k].seats && dbs[k].seats[s].status == HELD ::
      dbs[k].seats[s].deadline.Some? && now <= dbs[k].seats[s].deadline.value
    ensures forall after | IsSweep(dbs[k], after, now) :: after == dbs[k]
  {
    OverdueAfter(dbs, now, k);
    var db := dbs[k];
    assert Overdue(db, now) == {};
    forall s | s in db.seats && db.seats[s].status == HELD
      ensures db.seats[s].deadline.Some? && now <= db.seats[s].deadline.value
    {
      assert SeatOk(db, s);
      assert db.seats[s].owner.value !in Overdue(db, now);
    }
    forall after | IsSweep(db, after, now) ensures after == db {
      QuietSweep(db, after, now);
    }
  }

  lemma FirstOf(all: seq<BookingId>, limit: nat) returns (candidates: seq<BookingId>)
    requires IsAscending(all)
    ensures Distinct(candidates) && Elements(candidates) <= Elements(all)
    ensures |candidates| == if |all| < limit then |all| else limit
  {
    candidates := if |all| < limit then all else all[..limit];
  }

  /** Every database can be swept. */
  lemma SomeSweepExists(db: Db, now: Time) returns (after: Db)
    ensures IsSweep(db, after, now)
  {
    var all := Ascending(Overdue(db, now));
    assert Elements(all) == Overdue(db, now);
    var candidates := FirstOf(all, SWEEP_LIMIT);
    assert IsSelection(db, candidates, now);
    after := SweepOnce(db, candidates, now, map[]);
  }
}
