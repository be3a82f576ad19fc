/** Many holds at once, one conditional UPDATE at a time.
    Database semantics: an UPDATE that matches a row locks it until its transaction ends; an UPDATE
    of a row locked by another transaction waits, and then checks its predicate again on the
    committed row. A failed check may or may not leave the row locked. */
module HoldConcurrency {
  import opened Commons
  import opened Records
  import opened Holds
  import opened System
  import Ownership

  datatype Phase = Updating | Committed | RolledBack | Aborted

  /** A hold in flight: the rows it read, how many UPDATEs it has issued, and what they did. */
  datatype HoldTx = HoldTx(
    user: UserId, show: ShowId, request: seq<SeatId>, start: Time,
    rows: seq<SeatId>, next: nat, taken: set<SeatId>, locked: set<SeatId>, unavailable: seq<SeatId>, phase: Phase)
  {
    predicate Refused() {
      unavailable != []
    }
  }

  /** The serial history being built: which transaction took effect, in which order. */
  datatype Turn =
    | HoldTurn(tx: nat, step: Step, committed: bool)
    | OtherTurn(step: Step)

  /** Committed rows, transactions, and the history. */
  datatype World = World(db: Db, txs: seq<HoldTx>, history: seq<Turn>)

  function AsStep(t: HoldTx): Step {
    HoldStep(t.user, t.show, t.request, t.start)
  }

  predicate LockedByOther(w: World, i: nat, s: SeatId) {
    exists j | 0 <= j < |w.txs| :: j != i && s in w.txs[j].locked
  }

  datatype Action =
    | Begin(user: UserId, show: ShowId, request: seq<SeatId>, start: Time)
    | Update(tx: nat, keepsLock: bool)
    | Finish(tx: nat)
    | Abort(tx: nat)
    | Other(step: Step)

  /** Whether the action can run now; an UPDATE of a row locked by another transaction waits. */
  predicate Enabled(w: World, a: Action) {
    match a
    case Begin(_, show, request, _) =>
      show in w.db.shows && request != []
      && |RequestedRows(w.db, show, request)| == |Elements(request)|
    case Update(i, _) =>
      i < |w.txs| && w.txs[i].phase == Updating && w.txs[i].next < |w.txs[i].rows|
      && !LockedByOther(w, i, w.txs[i].rows[w.txs[i].next])
    case Finish(i) =>
      i < |w.txs| && w.txs[i].phase == Updating && w.txs[i].next == |w.txs[i].rows|
    case Abort(i) => i < |w.txs| && w.txs[i].phase == Updating
    case Other(step) =>
      forall j, s | 0 <= j < |w.txs| && s in w.txs[j].locked && s in w.db.seats ::
        s in Apply(w.db, step).seats && Apply(w.db, step).seats[s] == w.db.seats[s]
  }

  /** The UPDATE of one row: it matches when the committed row is FREE. */
  function AfterUpdate(db: Db, t: HoldTx, keepsLock: bool): HoldTx
    requires t.next < |t.rows|
  {
    var s := t.rows[t.next];
    if s in db.seats && db.seats[s].status == FREE then
      t.(next := t.next + 1, taken := t.taken + {s}, locked := t.locked + {s})
    else
      t.(next := t.next + 1, unavailable := t.unavailable + [s],
         locked := if keepsLock then t.locked + {s} else t.locked)
  }

  /** A commit makes the transaction's own writes visible: the rows it took, its booking and its event. */
  function CommitWrites(db: Db, t: HoldTx): Db
    requires forall s | s in t.rows :: s in db.catalog
  {
    var b := |db.bookings|;
    var deadline := t.start + HOLD_TTL_SECONDS;
    db.(seats := Put(db.seats, t.taken, HeldBy(b, deadline)),
        bookings := db.bookings
          + [Booking(t.user, t.show, Held, t.rows, deadline, TotalPrice(db.catalog, t.rows), false)],
        log := db.log + [BookingHeld(b, t.show)])
  }

  predicate RowsKnown(w: World) {
    forall i | 0 <= i < |w.txs| :: forall s | s in w.txs[i].rows :: s in w.db.catalog
  }

  function Act(w: World, a: Action): World
    requires Enabled(w, a) && RowsKnown(w)
  {
    match a
    case Begin(user, show, request, start) =>
      var rows := RequestedRows(w.db, show, request);
      w.(txs := w.txs + [HoldTx(user, show, request, start, rows, 0, {}, {}, [], Updating)])
    case Update(i, keepsLock) =>
      var t := w.txs[i];
      var t' := AfterUpdate(w.db, t, keepsLock);
      // The first failed UPDATE is where a refused hold takes its turn.
      var history := if t'.Refused() && !t.Refused() then w.history + [HoldTurn(i, AsStep(t), false)] else w.history;
      World(w.db, w.txs[i := t'], history)
    case Finish(i) =>
      var t := w.txs[i];
      if t.Refused() then w.(txs := w.txs[i := t.(phase := RolledBack, locked := {}, taken := {})])
      else World(CommitWrites(w.db, t), w.txs[i := t.(phase := Committed, locked := {})],
                 w.history + [HoldTurn(i, AsStep(t), true)])
    case Abort(i) =>
      // An error or a lost connection: the database rolls back, whatever the transaction had done.
      w.(txs := w.txs[i := w.txs[i].(phase := Aborted, locked := {}, taken := {})])
    case Other(step) => World(Apply(w.db, step), w.txs, w.history + [OtherTurn(step)])
  }

  /** The transactions of the history as whole steps, in order. */
  function Steps(history: seq<Turn>): (r: seq<Step>)
    ensures |r| == |history| && forall k | 0 <= k < |r| :: r[k] == history[k].step
  {
    seq(|history|, k requires 0 <= k < |history| => history[k].step)
  }

  /** The turn `k` of the history, run whole after the turns before it, does what it did here:
      a committed hold books all its seats, a refused one changes nothing. */
  ghost predicate TurnOk(db: Db, history: seq<Turn>, k: nat)
    requires k < |history|
  {
    var turn := history[k];
    turn.HoldTurn? && turn.step.HoldStep? ==>
      var before := Run(db, Steps(history[..k]));
      var h := CreateHold(before, turn.step.user, turn.step.show, turn.step.request, turn.step.now);
      if turn.committed then h.outcome == HoldCreated(|before.bookings|)
      else h.outcome.SeatsUnavailable? && h.db == before
  }

  /** The rows are those the request names, all of them, in id order. */
  ghost predicate RowsOk(db: Db, show: ShowId, request: seq<SeatId>, rows: seq<SeatId>) {
    && request != [] && show in db.shows
    && rows == RequestedRows(db, show, request) && |rows| == |Elements(request)|
  }

  /** What a transaction in flight knows: the rows it took are still FREE in the committed table. */
  ghost predicate ProgressOk(db: Db, t: HoldTx) {
    && t.next <= |t.rows|
    && (t.phase != Updating ==> t.locked == {})
    && (t.phase == Updating ==>
         && t.taken <= t.locked <= Elements(t.rows[..t.next])
         && (!t.Refused() ==> t.taken == Elements(t.rows[..t.next]))
         && (forall s | s in t.taken :: s in db.seats && db.seats[s].status == FREE))
  }

  ghost predicate TxOk(db: Db, t: HoldTx) {
    RowsOk(db, t.show, t.request, t.rows) && ProgressOk(db, t)
  }

  /** No row is locked by two transactions. */
  ghost predicate LocksDisjoint(txs: seq<HoldTx>) {
    forall i, j | 0 <= i < |txs| && 0 <= j < |txs| && i != j :: txs[i].locked !! txs[j].locked
  }

  /** The turns that transaction `i` has taken. */
  function TurnsOf(history: seq<Turn>, i: nat): set<nat> {
    set k: nat | k < |history| && history[k].HoldTurn? && history[k].tx == i
  }

  predicate HasTurn(t: HoldTx) {
    t.Refused() || t.phase == Committed
  }

  /** The refused and the committed transactions have had exactly one turn, the others none. */
  ghost predicate TurnsMatch(txs: seq<HoldTx>, history: seq<Turn>) {
    && (forall i: nat :: i < |txs| && HasTurn(txs[i]) ==> |TurnsOf(history, i)| == 1)
    && (forall i: nat :: i < |txs| && !HasTurn(txs[i]) ==> TurnsOf(history, i) == {})
    && (forall i: nat :: |txs| <= i ==> TurnsOf(history, i) == {})
    && (forall k | 0 <= k < |history| && history[k].HoldTurn? && history[k].tx < |txs| ::
         history[k].step == AsStep(txs[history[k].tx]) && history[k].committed == !txs[history[k].tx].Refused())
  }

  ghost predicate Consistent(db0: Db, w: World) {
    && SameFloor(db0, w.db) && w.db == Run(db0, Steps(w.history))
    && (forall i: nat | i < |w.txs| :: TxOk(w.db, w.txs[i])) && LocksDisjoint(w.txs)
    && TurnsMatch(w.txs, w.history)
    && (forall k: nat | k < |w.history| :: TurnOk(db0, w.history, k))
  }

  lemma RowsOfSameFloor(db: Db, db': Db, show: ShowId, request: seq<SeatId>)
    requires SameFloor(db, db')
    ensures RequestedRows(db, show, request) == RequestedRows(db', show, request)
  {
    AscendingUnique(RequestedRows(db, show, request), RequestedRows(db', show, request));
  }

  lemma RunAppend(db0: Db, history: seq<Turn>, turn: Turn)
    ensures Run(db0, Steps(history + [turn])) == Apply(Run(db0, Steps(history)), turn.step)
  {
    var all := Steps(history + [turn]);
    assert all[..|all| - 1] == Steps(history);
  }

  /** Appending a turn that does what it says. */
  lemma TurnsExtend(db0: Db, history: seq<Turn>, turn: Turn)
    requires forall k: nat | k < |history| :: TurnOk(db0, history, k)
    requires turn.HoldTurn? && turn.step.HoldStep? ==>
      var before := Run(db0, Steps(history));
      var h := CreateHold(before, turn.step.user, turn.step.show, turn.step.request, turn.step.now);
      if turn.committed then h.outcome == HoldCreated(|before.bookings|)
      else h.outcome.SeatsUnavailable? && h.db == before
    ensures forall k: nat | k < |history + [turn]| :: TurnOk(db0, history + [turn], k)
  {
    var all := history + [turn];
    forall k: nat | k < |all| ensures TurnOk(db0, all, k) {
      assert all[..|history|] == history;
      if k < |history| {
        assert all[..k] == history[..k];
        assert TurnOk(db0, history, k);
      }
    }
  }

  lemma TurnsOfAppend(history: seq<Turn>, turn: Turn, i: nat)
    ensures TurnsOf(history + [turn], i) ==
      TurnsOf(history, i) + if turn.HoldTurn? && turn.tx == i then {|history|} else {}
  {
  }

  lemma BeginTurns(txs: seq<HoldTx>, history: seq<Turn>, t: HoldTx)
    requires TurnsMatch(txs, history) && !HasTurn(t)
    ensures TurnsMatch(txs + [t], history)
  {
    var txs' := txs + [t];
    forall k | 0 <= k < |history| && history[k].HoldTurn? && history[k].tx < |txs'|
      ensures history[k].step == AsStep(txs'[history[k].tx]) && history[k].committed == !txs'[history[k].tx].Refused()
    {
      assert k in TurnsOf(history, history[k].tx);
      assert history[k].tx < |txs|;
    }
  }

  lemma BeginKeeps(db0: Db, w: World, a: Action)
    requires Consistent(db0, w) && a.Begin? && Enabled(w, a) && RowsKnown(w)
    ensures Consistent(db0, Act(w, a))
  {
    var t := Act(w, a).txs[|w.txs|];
    BeginTurns(w.txs, w.history, t);
    assert TxOk(w.db, t);
    assert LocksDisjoint(w.txs + [t]);
    assert forall i: nat | i < |w.txs + [t]| :: TxOk(w.db, (w.txs + [t])[i]);
  }

  lemma OtherKeeps(db0: Db, w: World, a: Action)
    requires Consistent(db0, w) && a.Other? && Enabled(w, a) && RowsKnown(w)
    ensures Consistent(db0, Act(w, a))
  {
    var w' := Act(w, a);
    var turn := OtherTurn(a.step);
    Ownership.ApplySeatsStay(w.db, a.step);
    RunAppend(db0, w.history, turn);
    TurnsExtend(db0, w.history, turn);
    OtherTurns(w.txs, w.history, a.step);
    OtherTxs(w, a.step);
    assert w' == World(Apply(w.db, a.step), w.txs, w.history + [turn]);
  }

  lemma OtherTurns(txs: seq<HoldTx>, history: seq<Turn>, step: Step)
    requires TurnsMatch(txs, history)
    ensures TurnsMatch(txs, history + [OtherTurn(step)])
  {
    forall i: nat ensures TurnsOf(history + [OtherTurn(step)], i) == TurnsOf(history, i) {
      TurnsOfAppend(history, OtherTurn(step), i);
    }
  }

  lemma OtherTxs(w: World, step: Step)
    requires Enabled(w, Other(step)) && SameFloor(w.db, Apply(w.db, step))
    requires forall i: nat | i < |w.txs| :: TxOk(w.db, w.txs[i])
    ensures forall i: nat | i < |w.txs| :: TxOk(Apply(w.db, step), w.txs[i])
  {
    forall i: nat | i < |w.txs| ensures TxOk(Apply(w.db, step), w.txs[i]) {
      assert TxOk(w.db, w.txs[i]);
      RowsOfSameFloor(w.db, Apply(w.db, step), w.txs[i].show, w.txs[i].request);
    }
  }

  /** The outcome of the whole hold, from what the transaction has seen of its rows. */
  lemma RefusedWhole(db: Db, t: HoldTx, s: SeatId)
    requires t.show in db.shows && t.rows == RequestedRows(db, t.show, t.request) && |t.rows| == |Elements(t.request)|
    requires s in t.rows && s in db.seats && db.seats[s].status != FREE
    ensures var h := CreateHold(db, t.user, t.show, t.request, t.start);
      h.outcome.SeatsUnavailable? && h.db == db
  {
    NoneRefused(db.seats, t.rows);
  }

  lemma CommittedWhole(db: Db, t: HoldTx)
    requires t.show in db.shows && t.rows == RequestedRows(db, t.show, t.request) && |t.rows| == |Elements(t.request)|
    requires t.request != [] && t.taken == Elements(t.rows)
    requires forall s | s in t.rows :: db.seats[s].status == FREE
    ensures CreateHold(db, t.user, t.show, t.request, t.start) ==
      HoldResult(CommitWrites(db, t), HoldCreated(|db.bookings|))
  {
    FreeRowsCommit(db, t.user, t.show, t.request, t.start);
    SameWrites(db, t);
  }

  lemma SameWrites(db: Db, t: HoldTx)
    requires t.taken == Elements(t.rows) && forall s | s in t.rows :: s in db.catalog
    ensures CommitHold(db, t.user, t.show, t.rows, t.start) == CommitWrites(db, t)
  {
  }

  /** One transaction takes its turn. */
  lemma TurnTaken(txs: seq<HoldTx>, history: seq<Turn>, i: nat, t: HoldTx)
    requires TurnsMatch(txs, history) && i < |txs| && !HasTurn(txs[i]) && HasTurn(t)
    requires AsStep(t) == AsStep(txs[i])
    ensures TurnsMatch(txs[i := t], history + [HoldTurn(i, AsStep(t), !t.Refused())])
  {
    var turn := HoldTurn(i, AsStep(t), !t.Refused());
    var history' := history + [turn];
    var txs' := txs[i := t];
    forall j: nat
      ensures j < |txs'| && HasTurn(txs'[j]) ==> |TurnsOf(history', j)| == 1
      ensures j < |txs'| && !HasTurn(txs'[j]) ==> TurnsOf(history', j) == {}
      ensures |txs'| <= j ==> TurnsOf(history', j) == {}
    {
      TurnsOfAppend(history, turn, j);
      if j == i {
        assert TurnsOf(history', j) == {|history|};
      }
    }
    forall k | 0 <= k < |history'| && history'[k].HoldTurn? && history'[k].tx < |txs'|
      ensures history'[k].step == AsStep(txs'[history'[k].tx]) &&
        history'[k].committed == !txs'[history'[k].tx].Refused()
    {
      if k < |history| {
        assert k in TurnsOf(history, history[k].tx);
      }
    }
  }

  lemma TurnKept(txs: seq<HoldTx>, history: seq<Turn>, i: nat, t: HoldTx)
    requires TurnsMatch(txs, history) && i < |txs|
    requires HasTurn(t) == HasTurn(txs[i]) && AsStep(t) == AsStep(txs[i]) && t.Refused() == txs[i].Refused()
    ensures TurnsMatch(txs[i := t], history)
  {
  }

  lemma UpdateTx(db: Db, t: HoldTx, keepsLock: bool)
    requires ProgressOk(db, t) && t.phase == Updating && t.next < |t.rows|
    ensures ProgressOk(db, AfterUpdate(db, t, keepsLock))
  {
    var t' := AfterUpdate(db, t, keepsLock);
    var s := t.rows[t.next];
    assert t.rows[..t.next + 1] == t.rows[..t.next] + [s];
    assert Elements(t.rows[..t.next + 1]) == Elements(t.rows[..t.next]) + {s};
  }

  lemma UpdateLocks(w: World, i: nat, keepsLock: bool)
    requires Enabled(w, Update(i, keepsLock)) && LocksDisjoint(w.txs)
    ensures LocksDisjoint(w.txs[i := AfterUpdate(w.db, w.txs[i], keepsLock)])
  {
    var s := w.txs[i].rows[w.txs[i].next];
    forall j | 0 <= j < |w.txs| && j != i ensures s !in w.txs[j].locked {
    }
  }

  /** A refused UPDATE for the first time: the whole hold would be refused here. */
  lemma RefusalKeeps(db0: Db, w: World, i: nat, keepsLock: bool)
    requires Consistent(db0, w) && Enabled(w, Update(i, keepsLock))
    requires AfterUpdate(w.db, w.txs[i], keepsLock).Refused() && !w.txs[i].Refused()
    ensures var turn := HoldTurn(i, AsStep(w.txs[i]), false);
      && w.db == Run(db0, Steps(w.history + [turn]))
      && TurnsMatch(w.txs[i := AfterUpdate(w.db, w.txs[i], keepsLock)], w.history + [turn])
      && forall k: nat | k < |w.history + [turn]| :: TurnOk(db0, w.history + [turn], k)
  {
    var t := w.txs[i];
    var turn := HoldTurn(i, AsStep(t), false);
    assert TxOk(w.db, t);
    RefusedWhole(w.db, t, t.rows[t.next]);
    RunAppend(db0, w.history, turn);
    TurnsExtend(db0, w.history, turn);
    TurnTaken(w.txs, w.history, i, AfterUpdate(w.db, t, keepsLock));
  }

  lemma UpdateTxs(w: World, i: nat, keepsLock: bool)
    requires Enabled(w, Update(i, keepsLock))
    requires forall j: nat | j < |w.txs| :: TxOk(w.db, w.txs[j])
    ensures var txs := w.txs[i := AfterUpdate(w.db, w.txs[i], keepsLock)];
      forall j: nat | j < |txs| :: TxOk(w.db, txs[j])
  {
    assert TxOk(w.db, w.txs[i]);
    UpdateTx(w.db, w.txs[i], keepsLock);
  }

  lemma UpdateKeeps(db0: Db, w: World, a: Action)
    requires Consistent(db0, w) && a.Update? && Enabled(w, a) && RowsKnown(w)
    ensures Consistent(db0, Act(w, a))
  {
    var i := a.tx;
    var t := w.txs[i];
    var t' := AfterUpdate(w.db, t, a.keepsLock);
    UpdateTxs(w, i, a.keepsLock);
    UpdateLocks(w, i, a.keepsLock);
    if t'.Refused() && !t.Refused() {
      RefusalKeeps(db0, w, i, a.keepsLock);
      assert Act(w, a) == World(w.db, w.txs[i := t'], w.history + [HoldTurn(i, AsStep(t), false)]);
    } else {
      TurnKept(w.txs, w.history, i, t');
      assert Act(w, a) == World(w.db, w.txs[i := t'], w.history);
    }
  }

  /** What one transaction commits, the rows taken by another do not notice. */
  lemma CommitTx(db: Db, db': Db, t: HoldTx, other: HoldTx)
    requires TxOk(db, other) && SameFloor(db, db')
    requires forall s | s in db.seats && s !in t.taken :: db'.seats[s] == db.seats[s]
    requires t.taken !! other.locked
    ensures TxOk(db', other)
  {
    RowsOfSameFloor(db, db', other.show, other.request);
  }

  lemma FinishKeeps(db0: Db, w: World, a: Action)
    requires Consistent(db0, w) && a.Finish? && Enabled(w, a) && RowsKnown(w)
    ensures Consistent(db0, Act(w, a))
  {
    var t := w.txs[a.tx];
    var w' := Act(w, a);
    assert TxOk(w.db, t);
    if t.Refused() {
      var t' := t.(phase := RolledBack, locked := {}, taken := {});
      TurnKept(w.txs, w.history, a.tx, t');
      assert TxOk(w.db, t') && LocksDisjoint(w.txs[a.tx := t']);
      assert w' == w.(txs := w.txs[a.tx := t']);
    } else {
      CommitKeeps(db0, w, a);
    }
  }

  lemma AbortKeeps(db0: Db, w: World, a: Action)
    requires Consistent(db0, w) && a.Abort? && Enabled(w, a) && RowsKnown(w)
    ensures Consistent(db0, Act(w, a))
  {
    var t := w.txs[a.tx];
    var t' := t.(phase := Aborted, locked := {}, taken := {});
    assert TxOk(w.db, t);
    TurnKept(w.txs, w.history, a.tx, t');
    assert TxOk(w.db, t') && LocksDisjoint(w.txs[a.tx := t']);
    assert Act(w, a) == w.(txs := w.txs[a.tx := t']);
  }

  lemma CommitKeeps(db0: Db, w: World, a: Action)
    requires Consistent(db0, w) && a.Finish? && Enabled(w, a) && RowsKnown(w) && !w.txs[a.tx].Refused()
    ensures Consistent(db0, Act(w, a))
  {
    var t := w.txs[a.tx];
    CommitTurn(db0, w, a.tx);
    CommitTxs(w, a.tx);
    var txs := w.txs[a.tx := t.(phase := Committed, locked := {})];
    var history := w.history + [HoldTurn(a.tx, AsStep(t), true)];
    assert Act(w, a) == World(CommitWrites(w.db, t), txs, history);
  }

  lemma CommitTxs(w: World, i: nat)
    requires RowsKnown(w) && Enabled(w, Finish(i)) && LocksDisjoint(w.txs)
    requires forall j: nat | j < |w.txs| :: TxOk(w.db, w.txs[j])
    ensures var txs := w.txs[i := w.txs[i].(phase := Committed, locked := {})];
      LocksDisjoint(txs) && forall j: nat | j < |txs| :: TxOk(CommitWrites(w.db, w.txs[i]), txs[j])
  {
    var t := w.txs[i];
    var after := CommitWrites(w.db, t);
    assert TxOk(w.db, t);
    RowsOfSameFloor(w.db, after, t.show, t.request);
    forall j: nat | j < |w.txs| && j != i ensures TxOk(after, w.txs[j]) {
      assert TxOk(w.db, w.txs[j]);
      assert w.txs[j].locked !! t.locked;
      CommitTx(w.db, after, t, w.txs[j]);
    }
  }

  /** A commit: the whole hold, run here, books exactly what the transaction wrote. */
  lemma CommitTurn(db0: Db, w: World, i: nat)
    requires Consistent(db0, w) && Enabled(w, Finish(i)) && RowsKnown(w) && !w.txs[i].Refused()
    ensures var turn := HoldTurn(i, AsStep(w.txs[i]), true);
      && CommitWrites(w.db, w.txs[i]) == Run(db0, Steps(w.history + [turn]))
      && TurnsMatch(w.txs[i := w.txs[i].(phase := Committed, locked := {})], w.history + [turn])
      && forall k: nat | k < |w.history + [turn]| :: TurnOk(db0, w.history + [turn], k)
  {
    var t := w.txs[i];
    var turn := HoldTurn(i, AsStep(t), true);
    assert TxOk(w.db, t);
    assert t.rows[..t.next] == t.rows;
    forall s | s in t.rows ensures w.db.seats[s].status == FREE {
      assert s in t.taken;
    }
    CommittedWhole(w.db, t);
    RunAppend(db0, w.history, turn);
    TurnsExtend(db0, w.history, turn);
    TurnTaken(w.txs, w.history, i, t.(phase := Committed, locked := {}));
  }

  lemma ActKeeps(db0: Db, w: World, a: Action)
    requires Consistent(db0, w) && Enabled(w, a) && RowsKnown(w)
    ensures Consistent(db0, Act(w, a))
  {
    match a
    case Begin(_, _, _, _) => BeginKeeps(db0, w, a);
    case Update(_, _) => UpdateKeeps(db0, w, a);
    case Finish(_) => FinishKeeps(db0, w, a);
    case Abort(_) => AbortKeeps(db0, w, a);
    case Other(_) => OtherKeeps(db0, w, a);
  }

  /** An action that cannot run now leaves the world as it is: its transaction waits. */
  function Exec(w: World, a: Action): World {
    if RowsKnown(w) && Enabled(w, a) then Act(w, a) else w
  }

  function ExecAll(w: World, actions: seq<Action>): World
    decreases |actions|
  {
    if actions == [] then w
    else Exec(ExecAll(w, actions[..|actions| - 1]), actions[|actions| - 1])
  }

  function Start(db: Db): World {
    World(db, [], [])
  }

  lemma {:induction false} AlwaysConsistent(db: Db, actions: seq<Action>)
    ensures Consistent(db, ExecAll(Start(db), actions))
    decreases |actions|
  {
    if actions == [] {
      assert Steps([]) == [];
    } else {
      AlwaysConsistent(db, actions[..|actions| - 1]);
      var w := ExecAll(Start(db), actions[..|actions| - 1]);
      if RowsKnown(w) && Enabled(w, actions[|actions| - 1]) {
        ActKeeps(db, w, actions[|actions| - 1]);
      }
    }
  }

  /** The history without its refused holds. */
  function Effective(history: seq<Turn>): seq<Turn>
    decreases |history|
  {
    if history == [] then [] else
      var last := history[|history| - 1];
      Effective(history[..|history| - 1]) + if last.HoldTurn? && !last.committed then [] else [last]
  }

  lemma {:induction false} RefusedLeaveNothing(db0: Db, history: seq<Turn>)
    requires forall k: nat | k < |history| :: TurnOk(db0, history, k)
    requires forall k | 0 <= k < |history| && history[k].HoldTurn? :: history[k].step.HoldStep?
    ensures Run(db0, Steps(Effective(history))) == Run(db0, Steps(history))
    decreases |history|
  {
    if history == [] {
    } else {
      var shorter := history[..|history| - 1];
      var last := history[|history| - 1];
      assert shorter + [last] == history;
      forall k: nat | k < |shorter| ensures TurnOk(db0, shorter, k) {
        assert TurnOk(db0, history, k);
        assert shorter[..k] == history[..k];
      }
      RefusedLeaveNothing(db0, shorter);
      RunAppend(db0, shorter, last);
      assert TurnOk(db0, history, |shorter|);
      if last.HoldTurn? && !last.committed {
        assert Effective(history) == Effective(shorter);
      } else {
        RunAppend(db0, Effective(shorter), last);
      }
    }
  }

  /** Any interleaving of any number of holds, one conditional UPDATE at a time, and of any other
      transactions that respect their row locks, ends in the state reached by running the committed
      holds whole, in commit order, with the other transactions in between. Refused and aborted holds leave nothing. */
  lemma HoldsAreSerializable(db: Db, actions: seq<Action>)
    ensures var w := ExecAll(Start(db), actions);
      w.db == Run(db, Steps(Effective(w.history)))
  {
    AlwaysConsistent(db, actions);
    var w := ExecAll(Start(db), actions);
    forall k | 0 <= k < |w.history| && w.history[k].HoldTurn? ensures w.history[k].step.HoldStep? {
      assert k in TurnsOf(w.history, w.history[k].tx);
      assert w.history[k].tx < |w.txs|;
    }
    RefusedLeaveNothing(db, w.history);
  }

  /** Each finished hold takes effect at one point of that serial order: there the whole hold books all
      its seats if it committed, and is refused for a seat that is not FREE if it rolled back. A hold that was aborted
      before any refusal has no point in it. */
  lemma FinishedHoldsTookOneTurn(db: Db, actions: seq<Action>, i: nat)
    requires i < |ExecAll(Start(db), actions).txs|
    requires ExecAll(Start(db), actions).txs[i].phase != Updating
    ensures var w := ExecAll(Start(db), actions);
      var t := w.txs[i];
      && |TurnsOf(w.history, i)| == (if t.phase == Aborted && !t.Refused() then 0 else 1)
      && forall k | k in TurnsOf(w.history, i) ::
        var before := Run(db, Steps(w.history[..k]));
        var h := CreateHold(before, t.user, t.show, t.request, t.start);
        if t.phase == Committed then h.outcome == HoldCreated(|before.bookings|)
        else h.outcome.SeatsUnavailable? && h.db == before
  {
    AlwaysConsistent(db, actions);
    FinishedKnowOutcome(db, actions, i);
    var w := ExecAll(Start(db), actions);
    forall k | k in TurnsOf(w.history, i) ensures TurnOk(db, w.history, k) && w.history[k].step == AsStep(w.txs[i]) {
    }
  }

  /** A transaction rolls back exactly when one of its UPDATEs was refused. */
  lemma {:induction false} FinishedKnowOutcome(db: Db, actions: seq<Action>, i: nat)
    requires i < |ExecAll(Start(db), actions).txs|
    ensures var t := ExecAll(Start(db), actions).txs[i];
      (t.phase == Committed ==> !t.Refused()) && (t.phase == RolledBack ==> t.Refused())
    decreases |actions|
  {
    if actions != [] {
      var w := ExecAll(Start(db), actions[..|actions| - 1]);
      if i < |w.txs| {
        FinishedKnowOutcome(db, actions[..|actions| - 1], i);
      }
      ExecKnowsOutcome(w, actions[|actions| - 1], i);
    }
  }

  predicate KnowsOutcome(t: HoldTx) {
    (t.phase == Committed ==> !t.Refused()) && (t.phase == RolledBack ==> t.Refused())
  }

  lemma ExecKnowsOutcome(w: World, a: Action, i: nat)
    requires i < |Exec(w, a).txs| && (i < |w.txs| ==> KnowsOutcome(w.txs[i]))
    ensures KnowsOutcome(Exec(w, a).txs[i])
  {
    if RowsKnown(w) && Enabled(w, a) {
      match a
      case Begin(_, _, _, _) =>
      case Update(j, _) => assert w.txs[j].phase == Updating;
      case Finish(j) =>
      case Abort(j) =>
      case Other(_) =>
    }
  }

  /** So everything proved of serial runs holds of interleaved ones; here: seat ownership. */
  lemma InterleavedHoldsKeepOwnership(db: Db, actions: seq<Action>)
    requires Initial(db)
    ensures Ownership.Owned(ExecAll(Start(db), actions).db)
  {
    HoldsAreSerializable(db, actions);
    Ownership.Reachable(db, Steps(Effective(ExecAll(Start(db), actions).history)));
  }

  /** A hold that still wants a row. */
  predicate Wants(t: HoldTx) {
    t.phase == Updating && t.next < |t.rows|
  }

  lemma {:induction false} GreatestWanted(txs: seq<HoldTx>, i: nat) returns (m: nat)
    requires i < |txs| && Wants(txs[i])
    ensures m < |txs| && Wants(txs[m])
    ensures forall j | 0 <= j < |txs| && Wants(txs[j]) :: txs[j].rows[txs[j].next] <= txs[m].rows[txs[m].next]
  {
    m := i;
    for k := 0 to |txs|
      invariant m < |txs| && Wants(txs[m])
      invariant forall j | 0 <= j < k && Wants(txs[j]) :: txs[j].rows[txs[j].next] <= txs[m].rows[txs[m].next]
    {
      if Wants(txs[k]) && txs[k].rows[txs[k].next] > txs[m].rows[txs[m].next] {
        m := k;
      }
    }
  }

  /** Holds cannot deadlock: while one is unfinished, some hold can update or finish now. */
  lemma SomeHoldCanStep(db: Db, actions: seq<Action>, i: nat)
    requires i < |ExecAll(Start(db), actions).txs|
    requires ExecAll(Start(db), actions).txs[i].phase == Updating
    ensures var w := ExecAll(Start(db), actions);
      exists m: nat :: Enabled(w, Update(m, false)) || Enabled(w, Finish(m))
  {
    AlwaysConsistent(db, actions);
    var w := ExecAll(Start(db), actions);
    assert TxOk(w.db, w.txs[i]);
    if !Wants(w.txs[i]) {
      assert Enabled(w, Finish(i));
    } else {
      var m := GreatestWanted(w.txs, i);
      var s := w.txs[m].rows[w.txs[m].next];
      if LockedByOther(w, m, s) {
        var j :| 0 <= j < |w.txs| && j != m && s in w.txs[j].locked;
        assert TxOk(w.db, w.txs[j]);
        HoldersWantMore(w.db, w.txs[j], s);
        assert Enabled(w, Finish(j));
      } else {
        assert Enabled(w, Update(m, false));
      }
    }
  }

  /** A hold that has locked a row wants only greater ones. */
  lemma HoldersWantMore(db: Db, t: HoldTx, s: SeatId)
    requires TxOk(db, t) && s in t.locked
    ensures t.phase == Updating && (Wants(t) ==> s < t.rows[t.next])
  {
    assert s in Elements(t.rows[..t.next]);
    var k :| 0 <= k < t.next && t.rows[k] == s;
  }
}
