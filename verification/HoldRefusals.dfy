/** What a refused hold is told: the seats that its own UPDATEs found taken, and when that list is true. */
module HoldRefusals {
  import opened Commons
  import opened Records
  import opened Holds
  import opened HoldOutcomes
  import opened System
  import opened HoldConcurrency
  import opened Scenarios

  /** A hold gets as far as its UPDATEs exactly when the show exists and all that is requested are seats of it. */
  lemma BeginsIff(w: World, user: UserId, show: ShowId, request: seq<SeatId>, start: Time)
    ensures Enabled(w, Begin(user, show, request, start)) <==>
      show in w.db.shows && request != [] && AllSeatsOf(w.db, show, request)
  {
    AllFoundIff(w.db, show, request);
  }

  /** The world in which action `n` is tried. */
  function Before(db: Db, actions: seq<Action>, n: nat): World
    requires n <= |actions|
  {
    ExecAll(Start(db), actions[..n])
  }

  predicate IsFree(db: Db, s: SeatId) {
    s in db.seats && db.seats[s].status == FREE
  }

  /** The action issues the next UPDATE of hold `i`, and it does not have to wait. */
  predicate Updates(w: World, a: Action, i: nat) {
    a.Update? && a.tx == i && RowsKnown(w) && Enabled(w, a)
  }

  /** Action `n` is the UPDATE of row `k` of hold `i`. */
  predicate UpdatedAt(db: Db, actions: seq<Action>, n: nat, i: nat, k: nat) {
    n < |actions| && Updates(Before(db, actions, n), actions[n], i) && Before(db, actions, n).txs[i].next == k
  }

  /** Row `k` of hold `i` has had its UPDATE. */
  ghost predicate HasUpdated(db: Db, actions: seq<Action>, i: nat, k: nat) {
    exists n: nat :: UpdatedAt(db, actions, n, i, k)
  }

  /** The list of a hold: in id order, from the rows updated so far; the other rows updated are taken.
      A listed row that is still locked is still not FREE. */
  ghost predicate ListOk(db: Db, t: HoldTx) {
    && t.next <= |t.rows| && IsAscending(t.rows) && IsAscending(t.unavailable)
    && (forall s | s in t.unavailable :: s in t.rows[..t.next])
    && (t.phase == Updating ==> t.taken == Elements(t.rows[..t.next]) - Elements(t.unavailable))
    && forall s | s in t.unavailable && s in t.locked :: !IsFree(db, s)
  }

  lemma LastIsNew(rows: seq<SeatId>, k: nat)
    requires IsAscending(rows) && k < |rows|
    ensures rows[..k + 1] == rows[..k] + [rows[k]]
    ensures forall s | s in rows[..k] :: s < rows[k]
  {
  }

  lemma UpdateListOk(db: Db, t: HoldTx, keepsLock: bool)
    requires ListOk(db, t) && t.phase == Updating && t.next < |t.rows|
    ensures ListOk(db, AfterUpdate(db, t, keepsLock))
  {
    LastIsNew(t.rows, t.next);
    var s := t.rows[t.next];
    var t' := AfterUpdate(db, t, keepsLock);
    assert Elements(t.rows[..t.next + 1]) == Elements(t.rows[..t.next]) + {s};
    assert Elements(t.unavailable + [s]) == Elements(t.unavailable) + {s};
    AscendingAppend(t.unavailable, [s]);
  }

  /** A commit writes only rows that its own transaction has locked. */
  lemma CommitListOk(w: World, i: nat, j: nat)
    requires RowsKnown(w) && Enabled(w, Finish(j)) && LocksDisjoint(w.txs) && TxOk(w.db, w.txs[j])
    requires i < |w.txs| && i != j && ListOk(w.db, w.txs[i])
    ensures ListOk(CommitWrites(w.db, w.txs[j]), w.txs[i])
  {
    var after := CommitWrites(w.db, w.txs[j]);
    forall s | s in w.txs[i].unavailable && s in w.txs[i].locked ensures !IsFree(after, s) {
      assert s !in w.txs[j].taken;
    }
  }

  lemma FinishListOk(w: World, i: nat, j: nat)
    requires RowsKnown(w) && Enabled(w, Finish(j)) && LocksDisjoint(w.txs) && TxOk(w.db, w.txs[j])
    requires i < |w.txs| && ListOk(w.db, w.txs[i])
    ensures ListOk(Act(w, Finish(j)).db, Act(w, Finish(j)).txs[i])
  {
    if j != i && !w.txs[j].Refused() {
      CommitListOk(w, i, j);
    }
  }

  lemma BeginListOk(w: World, a: Action, i: nat)
    requires a.Begin? && RowsKnown(w) && Enabled(w, a) && i < |Act(w, a).txs| &&
      (i < |w.txs| ==> ListOk(w.db, w.txs[i]))
    ensures ListOk(Act(w, a).db, Act(w, a).txs[i])
  {
  }

  lemma OtherListOk(w: World, step: Step, i: nat)
    requires Enabled(w, Other(step)) && i < |w.txs| && ListOk(w.db, w.txs[i])
    ensures RowsKnown(w) ==> ListOk(Act(w, Other(step)).db, Act(w, Other(step)).txs[i])
  {
    Ownership.ApplySeatsStay(w.db, step);
    var after := Apply(w.db, step);
    forall s | s in w.txs[i].unavailable && s in w.txs[i].locked ensures !IsFree(after, s) {
      assert !IsFree(w.db, s);
    }
  }

  lemma ActListOk(w: World, a: Action, i: nat)
    requires RowsKnown(w) && Enabled(w, a) && LocksDisjoint(w.txs)
    requires forall j: nat | j < |w.txs| :: TxOk(w.db, w.txs[j])
    requires i < |Act(w, a).txs| && (i < |w.txs| ==> ListOk(w.db, w.txs[i]))
    ensures ListOk(Act(w, a).db, Act(w, a).txs[i])
  {
    match a
    case Begin(_, _, _, _) => BeginListOk(w, a, i);
    case Update(j, keepsLock) => if j == i { UpdateListOk(w.db, w.txs[i], keepsLock); }
    case Finish(j) => FinishListOk(w, i, j);
    case Abort(j) =>
    case Other(step) => OtherListOk(w, step, i);
  }

  lemma ExecListOk(db0: Db, w: World, a: Action, i: nat)
    requires Consistent(db0, w) && i < |Exec(w, a).txs| && (i < |w.txs| ==> ListOk(w.db, w.txs[i]))
    ensures ListOk(Exec(w, a).db, Exec(w, a).txs[i])
  {
    if RowsKnown(w) && Enabled(w, a) {
      ActListOk(w, a, i);
    }
  }

  lemma {:induction false} AlwaysListOk(db: Db, actions: seq<Action>, i: nat)
    requires i < |ExecAll(Start(db), actions).txs|
    ensures ListOk(ExecAll(Start(db), actions).db, ExecAll(Start(db), actions).txs[i])
    decreases |actions|
  {
    if actions != [] {
      var shorter := actions[..|actions| - 1];
      AlwaysConsistent(db, shorter);
      if i < |ExecAll(Start(db), shorter).txs| {
        AlwaysListOk(db, shorter, i);
      }
      ExecListOk(db, ExecAll(Start(db), shorter), actions[|actions| - 1], i);
    }
  }

  lemma BeforeNext(db: Db, actions: seq<Action>, n: nat)
    requires n < |actions|
    ensures Before(db, actions, n + 1) == Exec(Before(db, actions, n), actions[n])
  {
    assert actions[..n + 1][..n] == actions[..n];
  }

  /** One action, as hold `i` sees it. */
  lemma ExecLists(w: World, a: Action, i: nat)
    requires i < |w.txs|
    ensures i < |Exec(w, a).txs|
    ensures var t, t' := w.txs[i], Exec(w, a).txs[i];
      t'.rows == t.rows &&
      if Updates(w, a, i) then
        && t'.next == t.next + 1
        && t'.unavailable == t.unavailable + if IsFree(w.db, t.rows[t.next]) then [] else [t.rows[t.next]]
      else t'.next == t.next && t'.unavailable == t.unavailable
  {
  }

  lemma BeginLists(w: World, a: Action, i: nat)
    requires |w.txs| <= i < |Exec(w, a).txs|
    ensures Exec(w, a).txs[i].next == 0
  {
  }

  /** Once row `k` has been updated, whether it is listed is settled. */
  lemma {:induction false} SettledOnceUpdated(db: Db, actions: seq<Action>, n: nat, i: nat, k: nat)
    requires n <= |actions| && i < |Before(db, actions, n).txs| && k < Before(db, actions, n).txs[i].next
    ensures i < |ExecAll(Start(db), actions).txs|
    ensures var t, t' := Before(db, actions, n).txs[i], ExecAll(Start(db), actions).txs[i];
      && t'.rows == t.rows && k < t'.next <= |t'.rows|
      && (t'.rows[k] in t'.unavailable <==> t'.rows[k] in t.unavailable)
    decreases |actions| - n
  {
    if n == |actions| {
      assert actions[..n] == actions;
      AlwaysListOk(db, actions, i);
    } else {
      var w := Before(db, actions, n);
      BeforeNext(db, actions, n);
      AlwaysListOk(db, actions[..n], i);
      ExecLists(w, actions[n], i);
      if Updates(w, actions[n], i) {
        LastIsNew(w.txs[i].rows, w.txs[i].next);
        assert w.txs[i].rows[k] in w.txs[i].rows[..w.txs[i].next];
      }
      SettledOnceUpdated(db, actions, n + 1, i, k);
    }
  }

  lemma ListedIffTaken(db: Db, actions: seq<Action>, n: nat, i: nat, k: nat)
    requires UpdatedAt(db, actions, n, i, k)
    ensures i < |ExecAll(Start(db), actions).txs|
    ensures var t := ExecAll(Start(db), actions).txs[i];
      k < t.next <= |t.rows| && (t.rows[k] in t.unavailable <==> !IsFree(Before(db, actions, n).db, t.rows[k]))
  {
    var w := Before(db, actions, n);
    BeforeNext(db, actions, n);
    AlwaysListOk(db, actions[..n], i);
    ExecLists(w, actions[n], i);
    LastIsNew(w.txs[i].rows, k);
    SettledOnceUpdated(db, actions, n + 1, i, k);
  }

  lemma {:induction false} EachRowUpdated(db: Db, actions: seq<Action>, i: nat, k: nat)
    requires i < |ExecAll(Start(db), actions).txs| && k < ExecAll(Start(db), actions).txs[i].next
    ensures HasUpdated(db, actions, i, k)
    decreases |actions|
  {
    if actions != [] {
      var shorter, last := actions[..|actions| - 1], |actions| - 1;
      var w := ExecAll(Start(db), shorter);
      assert Before(db, actions, last) == w;
      if i >= |w.txs| {
        BeginLists(w, actions[last], i);
      } else {
        ExecLists(w, actions[last], i);
        if k < w.txs[i].next {
          EachRowUpdated(db, shorter, i, k);
          var n: nat :| UpdatedAt(db, shorter, n, i, k);
          assert actions[..n] == shorter[..n];
          assert UpdatedAt(db, actions, n, i, k);
        } else {
          assert UpdatedAt(db, actions, last, i, k);
        }
      }
    }
  }

  /** The list of any hold at any time: in id order, without repetition, exactly those of the rows it has updated that
      were not FREE when it did. A hold that rolls back has updated all its rows, and its list is not empty. */
  lemma ListsExactlyWhatItFound(db: Db, actions: seq<Action>, i: nat)
    requires i < |ExecAll(Start(db), actions).txs|
    ensures var t := ExecAll(Start(db), actions).txs[i];
      && t.next <= |t.rows| && IsAscending(t.unavailable)
      && (forall s | s in t.unavailable :: s in t.rows[..t.next])
      && (forall k | 0 <= k < t.next :: HasUpdated(db, actions, i, k))
      && (forall n: nat, k: nat | UpdatedAt(db, actions, n, i, k) ::
           k < t.next && (t.rows[k] in t.unavailable <==> !IsFree(Before(db, actions, n).db, t.rows[k])))
      && (t.phase == RolledBack ==> t.next == |t.rows| && t.unavailable != [])
  {
    var t := ExecAll(Start(db), actions).txs[i];
    AlwaysListOk(db, actions, i);
    forall k | 0 <= k < t.next ensures HasUpdated(db, actions, i, k) {
      EachRowUpdated(db, actions, i, k);
    }
    forall n: nat, k: nat | UpdatedAt(db, actions, n, i, k)
      ensures k < t.next && (t.rows[k] in t.unavailable <==> !IsFree(Before(db, actions, n).db, t.rows[k]))
    {
      ListedIffTaken(db, actions, n, i, k);
    }
    RolledBackAtTheEnd(db, actions, i);
  }

  ghost predicate EndsOk(t: HoldTx) {
    t.phase == RolledBack ==> t.next == |t.rows| && t.Refused()
  }

  lemma ExecEndsOk(w: World, a: Action, i: nat)
    requires i < |Exec(w, a).txs| && (i < |w.txs| ==> EndsOk(w.txs[i]))
    ensures EndsOk(Exec(w, a).txs[i])
  {
  }

  lemma {:induction false} RolledBackAtTheEnd(db: Db, actions: seq<Action>, i: nat)
    requires i < |ExecAll(Start(db), actions).txs|
    ensures EndsOk(ExecAll(Start(db), actions).txs[i])
    decreases |actions|
  {
    if actions != [] {
      var shorter := actions[..|actions| - 1];
      if i < |ExecAll(Start(db), shorter).txs| {
        RolledBackAtTheEnd(db, shorter, i);
      }
      ExecEndsOk(ExecAll(Start(db), shorter), actions[|actions| - 1], i);
    }
  }

  /** A refused hold has been through all its rows: its list is what the whole hold would be refused with at this
      moment exactly when none of the listed seats has become FREE since. */
  lemma ListIsCurrentIff(db: Db, actions: seq<Action>, i: nat)
    requires Enabled(ExecAll(Start(db), actions), Finish(i)) && ExecAll(Start(db), actions).txs[i].Refused()
    ensures var w := ExecAll(Start(db), actions);
      var t := w.txs[i];
      CreateHold(w.db, t.user, t.show, t.request, t.start).outcome == SeatsUnavailable(t.unavailable)
      <==> forall s | s in t.unavailable :: !IsFree(w.db, s)
  {
    var w := ExecAll(Start(db), actions);
    AlwaysConsistent(db, actions);
    AlwaysListOk(db, actions, i);
    assert TxOk(w.db, w.txs[i]);
    SeatsAreKnown(w.db, w.txs[i]);
    CurrentIff(w.db, w.txs[i]);
    WholeOutcome(w.db, w.txs[i]);
  }

  lemma SeatsAreKnown(db: Db, t: HoldTx)
    requires TxOk(db, t) && t.phase == Updating
    ensures (forall s | s in t.rows :: s in db.seats) && forall s | s in t.taken :: IsFree(db, s)
  {
  }

  lemma CurrentIff(db: Db, t: HoldTx)
    requires ListOk(db, t) && t.phase == Updating && t.next == |t.rows|
    requires (forall s | s in t.rows :: s in db.seats) && forall s | s in t.taken :: IsFree(db, s)
    ensures NotFree(db.seats, t.rows) == t.unavailable <==> forall s | s in t.unavailable :: !IsFree(db, s)
  {
    assert t.rows[..t.next] == t.rows;
    assert forall s | s in t.rows && s !in t.unavailable :: s in t.taken;
    SameListIff(db.seats, t.rows, t.unavailable);
  }

  lemma SameListIff(seats: map<SeatId, SeatState>, rows: seq<SeatId>, ids: seq<SeatId>)
    requires IsAscending(rows) && IsAscending(ids) && (forall s | s in ids :: s in rows)
    requires forall s | s in rows :: s in seats && (s !in ids ==> seats[s].status == FREE)
    ensures NotFree(seats, rows) == ids <==> forall s | s in ids :: seats[s].status != FREE
  {
    NotFreeAscends(seats, rows);
    if forall s | s in ids :: seats[s].status != FREE {
      AscendingUnique(NotFree(seats, rows), ids);
    }
  }

  lemma WholeOutcome(db: Db, t: HoldTx)
    requires TxOk(db, t) && t.Refused()
    ensures CreateHold(db, t.user, t.show, t.request, t.start).outcome == SeatsUnavailable(t.unavailable)
      <==> NotFree(db.seats, t.rows) == t.unavailable
  {
  }

  /** If the database keeps a row locked after its check has failed, the list is always current. */
  lemma ListIsCurrentUnderLocks(db: Db, actions: seq<Action>, i: nat)
    requires Enabled(ExecAll(Start(db), actions), Finish(i)) && ExecAll(Start(db), actions).txs[i].Refused()
    requires Elements(ExecAll(Start(db), actions).txs[i].unavailable) <= ExecAll(Start(db), actions).txs[i].locked
    ensures var w := ExecAll(Start(db), actions);
      var t := w.txs[i];
      CreateHold(w.db, t.user, t.show, t.request, t.start).outcome == SeatsUnavailable(t.unavailable)
  {
    AlwaysListOk(db, actions, i);
    ListIsCurrentIff(db, actions, i);
    var t := ExecAll(Start(db), actions).txs[i];
    forall s | s in t.unavailable ensures s in t.locked {
      assert s in Elements(t.unavailable);
    }
  }

  /** A hold of both seats is refused `a`, which is then released; another takes `c`; then it is refused `c`. */
  function MovingTarget(u: UserId, v: UserId, x: UserId, show: ShowId, a: SeatId, c: SeatId, now: Time): seq<Action> {
    [Other(HoldStep(u, show, [a], now)), Begin(x, show, [a, c], now), Update(0, false),
     Other(CancelStep(0, now, map[])), Other(HoldStep(v, show, [c], now)), Update(0, false)]
  }

  predicate SeatOf(db: Db, show: ShowId, s: SeatId) {
    Known(db, s) && db.catalog[s].show == show
  }

  /** Two seats of the show, of which the first, the second or neither is taken; nobody waits. */
  ghost predicate Floor(db: Db, show: ShowId, a: SeatId, c: SeatId, taken: set<SeatId>) {
    && show in db.shows && db.waitlist == [] && a < c && SeatOf(db, show, a) && SeatOf(db, show, c)
    && (IsFree(db, a) <==> a !in taken) && (IsFree(db, c) <==> c !in taken)
  }

  /** Booking 0 holds `a` alone. */
  ghost predicate HoldsFirst(db: Db, show: ShowId, a: SeatId) {
    && |db.bookings| == 1 && db.bookings[0].status == Held && db.bookings[0].seats == [a] && db.bookings[0].show == show
    && a in db.seats && db.seats[a].owner == Some(0)
  }

  /** The one hold in flight wants both seats, locks nothing, and has been refused `ids` and nothing else. */
  ghost predicate InFlight(w: World, a: SeatId, c: SeatId, ids: seq<SeatId>) {
    && RowsKnown(w) && |w.txs| == 1 && w.txs[0].phase == Updating && w.txs[0].rows == [a, c]
    && w.txs[0].next == |ids| && w.txs[0].unavailable == ids && w.txs[0].locked == {}
  }

  lemma FirstHeld(db: Db, u: UserId, show: ShowId, a: SeatId, c: SeatId, now: Time)
    requires Floor(db, show, a, c, {}) && db.bookings == []
    ensures var after := Apply(db, HoldStep(u, show, [a], now));
      Floor(after, show, a, c, {a}) && HoldsFirst(after, show, a)
  {
    HoldSucceeds(db, u, show, [a], now);
    assert a in Elements([a]) && c !in Elements([a]);
  }

  lemma FirstReleased(db: Db, show: ShowId, a: SeatId, c: SeatId, now: Time)
    requires Floor(db, show, a, c, {a}) && HoldsFirst(db, show, a)
    ensures Floor(Apply(db, CancelStep(0, now, map[])), show, a, c, {})
  {
    CancelHeld(db, 0, now, map[]);
    NobodyWaits(ReleaseHold(db, 0, false), show, [a], now, map[]);
    assert a in [a];
    assert a in OwnedAmong(db.seats, [a], 0) && c !in OwnedAmong(db.seats, [a], 0);
  }

  lemma SecondTaken(db: Db, v: UserId, show: ShowId, a: SeatId, c: SeatId, now: Time)
    requires Floor(db, show, a, c, {})
    ensures Floor(Apply(db, HoldStep(v, show, [c], now)), show, a, c, {c})
  {
    HoldSucceeds(db, v, show, [c], now);
    assert c in Elements([c]) && a !in Elements([c]);
  }

  lemma BothWanted(w: World, x: UserId, show: ShowId, a: SeatId, c: SeatId, now: Time)
    requires Floor(w.db, show, a, c, {a}) && w.txs == []
    ensures var w' := Exec(w, Begin(x, show, [a, c], now));
      w'.db == w.db && InFlight(w', a, c, [])
  {
    var rows := RequestedRows(w.db, show, [a, c]);
    AscendingUnique(rows, [a, c]);
    DistinctCardinality([a, c]);
  }

  lemma RefusedNext(w: World, a: SeatId, c: SeatId, ids: seq<SeatId>, s: SeatId)
    requires InFlight(w, a, c, ids) && |ids| < 2 && s == [a, c][|ids|] && !IsFree(w.db, s)
    ensures var w' := Exec(w, Update(0, false));
      w'.db == w.db && InFlight(w', a, c, ids + [s])
  {
  }

  lemma NothingLocked(w: World, step: Step)
    requires RowsKnown(w) && forall j | 0 <= j < |w.txs| :: w.txs[j].locked == {}
    ensures Exec(w, Other(step)) == World(Apply(w.db, step), w.txs, w.history + [OtherTurn(step)])
  {
    assert Enabled(w, Other(step));
  }

  lemma InFlightFrame(w: World, w': World, a: SeatId, c: SeatId, ids: seq<SeatId>)
    requires InFlight(w, a, c, ids) && SameFloor(w.db, w'.db) && w'.txs == w.txs
    ensures InFlight(w', a, c, ids)
  {
  }

  lemma OthersAct(w: World, a: SeatId, c: SeatId, ids: seq<SeatId>, step: Step)
    requires InFlight(w, a, c, ids)
    ensures var w' := Exec(w, Other(step));
      w'.db == Apply(w.db, step) && InFlight(w', a, c, ids)
  {
    NothingLocked(w, step);
    Ownership.ApplySeatsStay(w.db, step);
    InFlightFrame(w, Exec(w, Other(step)), a, c, ids);
  }

  /** A list that was never true: at every moment of this run one of the two seats was FREE, and yet the hold is
      refused with both. It works in every seeded database with two seats of one show. */
  lemma ListNeverTrueAtOnce(db: Db, u: UserId, v: UserId, x: UserId, show: ShowId, a: SeatId, c: SeatId, now: Time)
    requires Initial(db) && show in db.shows && a < c
    requires a in db.catalog && c in db.catalog && db.catalog[a].show == show && db.catalog[c].show == show
    ensures var actions := MovingTarget(u, v, x, show, a, c, now);
      && InFlight(ExecAll(Start(db), actions), a, c, [a, c])
      && forall n | 0 <= n <= |actions| :: IsFree(Before(db, actions, n).db, a) || IsFree(Before(db, actions, n).db, c)
  {
    NeverTrue(db, MovingTarget(u, v, x, show, a, c, now), u, v, x, show, a, c, now);
  }

  lemma NeverTrue(
      db: Db, actions: seq<Action>, u: UserId, v: UserId, x: UserId, show: ShowId, a: SeatId, c: SeatId, now: Time)
    requires |actions| == 6 && actions[0] == Other(HoldStep(u, show, [a], now))
    requires actions[1] == Begin(x, show, [a, c], now) && actions[2] == Update(0, false)
    requires actions[3] == Other(CancelStep(0, now, map[]))
    requires actions[4] == Other(HoldStep(v, show, [c], now)) && actions[5] == Update(0, false)
    requires Floor(db, show, a, c, {}) && db.bookings == []
    ensures InFlight(ExecAll(Start(db), actions), a, c, [a, c])
    ensures forall n | 0 <= n <= |actions| ::
      IsFree(Before(db, actions, n).db, a) || IsFree(Before(db, actions, n).db, c)
  {
    FirstRefusal(db, actions, u, x, show, a, c, now);
    Release(db, actions, show, a, c, now);
    SecondRefusal(db, actions, v, show, a, c, now);
    forall n | 0 <= n <= |actions|
      ensures IsFree(Before(db, actions, n).db, a) || IsFree(Before(db, actions, n).db, c)
    {
      assert n == 0 || n == 1 || n == 2 || n == 3 || n == 4 || n == 5 || n == 6;
    }
  }

  lemma FirstRefusal(db: Db, actions: seq<Action>, u: UserId, x: UserId, show: ShowId, a: SeatId, c: SeatId, now: Time)
    requires |actions| == 6 && actions[0] == Other(HoldStep(u, show, [a], now))
    requires actions[1] == Begin(x, show, [a, c], now) && actions[2] == Update(0, false)
    requires Floor(db, show, a, c, {}) && db.bookings == []
    ensures Before(db, actions, 0).db == db && IsFree(Before(db, actions, 1).db, c) &&
      IsFree(Before(db, actions, 2).db, c)
    ensures var w := Before(db, actions, 3);
      Floor(w.db, show, a, c, {a}) && HoldsFirst(w.db, show, a) && InFlight(w, a, c, [a])
  {
    assert actions[..0] == [];
    BeforeNext(db, actions, 0);
    FirstHeld(db, u, show, a, c, now);
    BeforeNext(db, actions, 1);
    BothWanted(Before(db, actions, 1), x, show, a, c, now);
    BeforeNext(db, actions, 2);
    RefusedNext(Before(db, actions, 2), a, c, [], a);
  }

  lemma Release(db: Db, actions: seq<Action>, show: ShowId, a: SeatId, c: SeatId, now: Time)
    requires |actions| == 6 && actions[3] == Other(CancelStep(0, now, map[]))
    requires var w := Before(db, actions, 3);
      Floor(w.db, show, a, c, {a}) && HoldsFirst(w.db, show, a) && InFlight(w, a, c, [a])
    ensures var w := Before(db, actions, 4);
      Floor(w.db, show, a, c, {}) && InFlight(w, a, c, [a])
  {
    var w := Before(db, actions, 3);
    BeforeNext(db, actions, 3);
    FirstReleased(w.db, show, a, c, now);
    OthersAct(w, a, c, [a], CancelStep(0, now, map[]));
  }

  lemma SecondRefusal(db: Db, actions: seq<Action>, v: UserId, show: ShowId, a: SeatId, c: SeatId, now: Time)
    requires |actions| == 6 && actions[4] == Other(HoldStep(v, show, [c], now)) && actions[5] == Update(0, false)
    requires Floor(Before(db, actions, 4).db, show, a, c, {}) && InFlight(Before(db, actions, 4), a, c, [a])
    ensures InFlight(ExecAll(Start(db), actions), a, c, [a, c])
    ensures IsFree(Before(db, actions, 5).db, a) && IsFree(Before(db, actions, 6).db, a)
  {
    assert actions[..6] == actions;
    var w4 := Before(db, actions, 4);
    BeforeNext(db, actions, 4);
    SecondTaken(w4.db, v, show, a, c, now);
    OthersAct(w4, a, c, [a], HoldStep(v, show, [c], now));
    BeforeNext(db, actions, 5);
    RefusedNext(Before(db, actions, 5), a, c, [a], c);
  }
}
