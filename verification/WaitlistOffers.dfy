/** Who gets the seats that a transaction frees, and in which order. */
module WaitlistOffers {
  import opened Records
  import opened Waitlist

  /** The released seats of a section that are FREE. */
  function FreeIn(db: Db, section: SectionId, ids: seq<SeatId>): set<SeatId> {
    set s | s in ids && Known(db, s) && db.catalog[s].section == section && db.seats[s].status == FREE
  }

  function Min(a: nat, b: nat): nat {
    if a < b then a else b
  }

  /** Seat `s` went to a least of the waiters `w`, leaving `w'`; or it is not FREE, or nobody waits. */
  ghost predicate OneServed(
      line: seq<Entry>, w: set<EntryId>, w': set<EntryId>, free: set<SeatId>, free': set<SeatId>, s: SeatId)
    requires forall i | i in w :: i < |line|
  {
    if s in free && w != {} then
      free' == free - {s} &&
      exists e | e in w :: w' == w - {e} && forall j | j in w :: line[e].position <= line[j].position
    else w' == w && free' == free
  }

  /** What one offer does to the waiters and the FREE seats of a section. */
  lemma OfferOneEffect(db: Db, show: ShowId, section: SectionId, s: SeatId, now: Time, ties: Ties, ids: seq<SeatId>)
    requires s in ids
    ensures var one := OfferOne(db, show, s, now, ties);
      var w := Waiters(db.waitlist, show, section);
      && |one.waitlist| == |db.waitlist|
      && (forall i | 0 <= i < |db.waitlist| :: one.waitlist[i].position == db.waitlist[i].position)
      && OneServed(db.waitlist, w, Waiters(one.waitlist, show, section),
                   FreeIn(db, section, ids), FreeIn(one, section, ids), s)
  {
    var one := OfferOne(db, show, s, now, ties);
    var w := Waiters(db.waitlist, show, section);
    if Known(db, s) && db.seats[s].status == FREE {
      var z := db.catalog[s].section;
      match NextWaiter(db.waitlist, show, z, Hint(ties, s))
      case None =>
      case Some(e) =>
        assert Waiters(one.waitlist, show, z) == Waiters(db.waitlist, show, z) - {e};
        if z == section {
          assert e in w;
          assert FreeIn(one, section, ids) == FreeIn(db, section, ids) - {s};
        } else {
          assert Waiters(one.waitlist, show, section) == w;
          assert FreeIn(one, section, ids) == FreeIn(db, section, ids);
        }
    }
  }

  /** What is left of the waiters `w` and of `free` seats once min(free, |w|) seats have gone to the least positions. */
  ghost predicate FirstServed(line: seq<Entry>, w: set<EntryId>, left: set<EntryId>, free: nat, rest: nat) {
    && left <= w && (forall i | i in w :: i < |line|)
    && |left| == |w| - Min(free, |w|) && rest == free - Min(free, |w|)
    && forall i, j | i in w - left && j in left :: line[i].position <= line[j].position
  }

  lemma FirstServedStep(line: seq<Entry>, w: set<EntryId>, e: EntryId, left: set<EntryId>, free: nat, rest: nat)
    requires free > 0 && e in w && e < |line|
    requires forall j | j in w :: j < |line| && line[e].position <= line[j].position
    requires FirstServed(line, w - {e}, left, free - 1, rest)
    ensures FirstServed(line, w, left, free, rest)
  {
    assert |w - {e}| == |w| - 1;
    forall i, j | i in w - left && j in left ensures line[i].position <= line[j].position {
      assert i != e ==> i in w - {e} - left;
    }
  }

  lemma OneThenRest(
      line: seq<Entry>, line': seq<Entry>, w: set<EntryId>, w': set<EntryId>, free: set<SeatId>, free': set<SeatId>,
      s: SeatId, left: set<EntryId>, rest: nat)
    requires |line'| == |line| && forall i | 0 <= i < |line| :: line'[i].position == line[i].position
    requires (forall i | i in w :: i < |line|) && OneServed(line, w, w', free, free', s)
    requires FirstServed(line', w', left, |free'|, rest)
    ensures FirstServed(line, w, left, |free|, rest)
  {
    if s in free && w != {} {
      var e :| e in w && w' == w - {e} && forall j | j in w :: line[e].position <= line[j].position;
      assert FirstServed(line, w', left, |free'|, rest);
      FirstServedStep(line, w, e, left, |free|, rest);
    }
  }

  /** A seat that no longer comes up in the release is FREE only when nobody waits. */
  lemma StillCovered(w: set<EntryId>, w': set<EntryId>, free: set<SeatId>, free': set<SeatId>, ids: seq<SeatId>)
    requires ids != [] && w' <= w && free' <= free && (forall s | s in free && s !in ids :: w == {})
    requires ids[0] in free' ==> w' == {}
    ensures forall s | s in free' && s !in ids[1..] :: w' == {}
  {
    assert forall s | s in ids :: s == ids[0] || s in ids[1..];
  }

  /** Releasing k FREE seats of a section with w waiters makes exactly min(k, w) offers there, to waiters
      no later in position than any left waiting; a seat stays FREE only when nobody is left. */
  lemma {:induction false} OffersGoToTheFirst(
      db: Db, show: ShowId, section: SectionId, ids: seq<SeatId>, all: seq<SeatId>, now: Time, ties: Ties)
    requires forall s | s in ids :: s in all
    requires forall s | s in FreeIn(db, section, all) && s !in ids :: Waiters(db.waitlist, show, section) == {}
    ensures var after := OfferFreed(db, show, ids, now, ties);
      FirstServed(db.waitlist, Waiters(db.waitlist, show, section), Waiters(after.waitlist, show, section),
                  |FreeIn(db, section, all)|, |FreeIn(after, section, all)|)
    decreases |ids|
  {
    var w := Waiters(db.waitlist, show, section);
    var free := FreeIn(db, section, all);
    if ids == [] {
      if free != {} {
        var s :| s in free;
        assert w == {};
      }
    } else {
      var one := OfferOne(db, show, ids[0], now, ties);
      var after := OfferFreed(one, show, ids[1..], now, ties);
      OfferOneEffect(db, show, section, ids[0], now, ties, all);
      StillCovered(w, Waiters(one.waitlist, show, section), free, FreeIn(one, section, all), ids);
      OffersGoToTheFirst(one, show, section, ids[1..], all, now, ties);
      OneThenRest(db.waitlist, one.waitlist, w, Waiters(one.waitlist, show, section), free, FreeIn(one, section, all),
                  ids[0], Waiters(after.waitlist, show, section), |FreeIn(after, section, all)|);
    }
  }

  lemma CountServed(line: seq<Entry>, w: set<EntryId>, left: set<EntryId>, free: set<SeatId>, rest: set<SeatId>)
    requires FirstServed(line, w, left, |free|, |rest|)
    ensures |w - left| == Min(|free|, |w|) && (rest != {} ==> left == {})
  {
    assert w == left + (w - left);
    assert rest != {} ==> |left| == 0;
  }

  /** The same, for the seats of one release. */
  lemma FreedSeatsGoToTheFirst(db: Db, show: ShowId, section: SectionId, ids: seq<SeatId>, now: Time, ties: Ties)
    ensures var after := OfferFreed(db, show, ids, now, ties);
      var w := Waiters(db.waitlist, show, section);
      var left := Waiters(after.waitlist, show, section);
      && left <= w && |w - left| == Min(|FreeIn(db, section, ids)|, |w|)
      && (forall i, j | i in w - left && j in left :: db.waitlist[i].position <= db.waitlist[j].position)
      && (FreeIn(after, section, ids) != {} ==> left == {})
  {
    var after := OfferFreed(db, show, ids, now, ties);
    OffersGoToTheFirst(db, show, section, ids, ids, now, ties);
    CountServed(db.waitlist, Waiters(db.waitlist, show, section), Waiters(after.waitlist, show, section),
                FreeIn(db, section, ids), FreeIn(after, section, ids));
  }
}
