/** Holds and webhook deliveries competing for row locks. */
module LockProgress {
  import opened LockOrder

  /** What one statement locks: a payment, a booking, a seat row taken by a conditional UPDATE, or all rows of a
      booking, by the UPDATE that names it as their owner. A conditional UPDATE that finds the row taken keeps no lock
      on it. */
  datatype Key = PaymentRow(ref: nat) | BookingRow(id: nat) | SeatRow(seat: Uuid) | OwnRows(booking: nat)

  function Rank(k: Key): nat {
    match k
    case PaymentRow(_) => 0
    case BookingRow(_) => 1
    case SeatRow(_) => 2
    case OwnRows(_) => 3
  }

  predicate KeyLess(a: Key, b: Key) {
    match (a, b)
    case (PaymentRow(r), PaymentRow(s)) => r < s
    case (BookingRow(r), BookingRow(s)) => r < s
    case (SeatRow(r), SeatRow(s)) => BytesLess(r, s)
    case (OwnRows(r), OwnRows(s)) => r < s
    case _ => Rank(a) < Rank(b)
  }

  lemma KeyTrichotomy(a: Key, b: Key)
    ensures a != b ==> KeyLess(a, b) || KeyLess(b, a)
    ensures !(KeyLess(a, b) && KeyLess(b, a)) && !KeyLess(a, a)
  {
    if a.SeatRow? && b.SeatRow? {
      BytesTrichotomy(a.seat, b.seat);
    }
    if a.SeatRow? {
      BytesTrichotomy(a.seat, a.seat);
    }
  }

  lemma KeyTransitive(a: Key, b: Key, c: Key)
    requires KeyLess(a, b) && KeyLess(b, c)
    ensures KeyLess(a, c)
  {
    if a.SeatRow? && b.SeatRow? && c.SeatRow? {
      BytesTransitive(a.seat, b.seat, c.seat);
    }
  }

  /** Which seat is owned by which booking, as committed. */
  type Owned = set<(nat, Uuid)>

  /** An UPDATE of a single seat also waits for the transaction that has locked the rows of its owner. */
  predicate Blocks(owned: Owned, held: Key, asked: Key) {
    held == asked || (held.OwnRows? && asked.SeatRow? && (held.booking, asked.seat) in owned)
  }

  /** A transaction: the locks it asks for in turn, how many it has, and whether it has ended.
      Locks are kept until the end. */
  datatype LockTx = LockTx(plan: seq<Key>, held: nat, done: bool)

  predicate Rising(plan: seq<Key>) {
    forall i, j | 0 <= i < j < |plan| :: KeyLess(plan[i], plan[j])
  }

  datatype Locks = Locks(txs: seq<LockTx>, owned: Owned)

  /** A transaction may start, take its next lock, decide to stop asking, or end; seats may change hands. */
  datatype Move =
    | Arrive(plan: seq<Key>)
    | Acquire(i: nat)
    | StopAsking(i: nat)
    | End(i: nat)
    | ChangeHands(owned: Owned)

  predicate HoldsAgainst(owned: Owned, t: LockTx, asked: Key) {
    !t.done && t.held <= |t.plan| && exists k :: k in t.plan[..t.held] && Blocks(owned, k, asked)
  }

  predicate CanAcquire(l: Locks, i: nat) {
    && i < |l.txs| && Asks(l.txs[i])
    && forall j | 0 <= j < |l.txs| && j != i :: !HoldsAgainst(l.owned, l.txs[j], l.txs[i].plan[l.txs[i].held])
  }

  predicate CanEnd(l: Locks, i: nat) {
    i < |l.txs| && !l.txs[i].done && l.txs[i].held == |l.txs[i].plan|
  }

  /** A move that is not possible now leaves everything as it is. */
  function After(l: Locks, m: Move): Locks {
    match m
    case Arrive(plan) => l.(txs := l.txs + [LockTx(plan, 0, false)])
    case Acquire(i) => if CanAcquire(l, i) then l.(txs := l.txs[i := l.txs[i].(held := l.txs[i].held + 1)]) else l
    case StopAsking(i) =>
      if i < |l.txs| && l.txs[i].held <= |l.txs[i].plan|
      then l.(txs := l.txs[i := l.txs[i].(plan := l.txs[i].plan[..l.txs[i].held])]) else l
    case End(i) => if CanEnd(l, i) then l.(txs := l.txs[i := l.txs[i].(done := true)]) else l
    case ChangeHands(owned) => l.(owned := owned)
  }

  function AfterAll(l: Locks, moves: seq<Move>): Locks
    decreases |moves|
  {
    if moves == [] then l else After(AfterAll(l, moves[..|moves| - 1]), moves[|moves| - 1])
  }

  function NoTransactions(): Locks {
    Locks([], {})
  }

  predicate AllRising(moves: seq<Move>) {
    forall i | 0 <= i < |moves| && moves[i].Arrive? :: Rising(moves[i].plan)
  }

  predicate Orderly(t: LockTx) {
    Rising(t.plan) && t.held <= |t.plan|
  }

  lemma {:induction false} AlwaysOrderly(moves: seq<Move>)
    requires AllRising(moves)
    ensures forall i | 0 <= i < |AfterAll(NoTransactions(), moves).txs| ::
      Orderly(AfterAll(NoTransactions(), moves).txs[i])
    decreases |moves|
  {
    if moves != [] {
      AlwaysOrderly(moves[..|moves| - 1]);
    }
  }

  predicate Asks(t: LockTx) {
    !t.done && t.held < |t.plan|
  }

  /** Some transaction that asks for a lock asks for the greatest. */
  lemma GreatestAsked(txs: seq<LockTx>, i: nat) returns (m: nat)
    requires i < |txs| && Asks(txs[i])
    ensures m < |txs| && Asks(txs[m])
    ensures forall j | 0 <= j < |txs| && Asks(txs[j]) :: !KeyLess(txs[m].plan[txs[m].held], txs[j].plan[txs[j].held])
  {
    m := i;
    KeyTrichotomy(txs[m].plan[txs[m].held], txs[m].plan[txs[m].held]);
    for k := 0 to |txs|
      invariant m < |txs| && Asks(txs[m])
      invariant forall j | 0 <= j < k && Asks(txs[j]) :: !KeyLess(txs[m].plan[txs[m].held], txs[j].plan[txs[j].held])
    {
      if Asks(txs[k]) && KeyLess(txs[m].plan[txs[m].held], txs[k].plan[txs[k].held]) {
        var was, now := txs[m].plan[txs[m].held], txs[k].plan[txs[k].held];
        forall j | 0 <= j < k && Asks(txs[j]) ensures !KeyLess(now, txs[j].plan[txs[j].held]) {
          if KeyLess(now, txs[j].plan[txs[j].held]) {
            KeyTransitive(was, now, txs[j].plan[txs[j].held]);
          }
        }
        KeyTrichotomy(now, now);
        m := k;
      }
    }
  }

  /** No deadlock: while a transaction is unfinished, some transaction can take its next lock or end. */
  lemma SomeoneCanStep(moves: seq<Move>, i: nat)
    requires AllRising(moves)
    requires var l := AfterAll(NoTransactions(), moves); i < |l.txs| && !l.txs[i].done
    ensures !Stuck(AfterAll(NoTransactions(), moves))
  {
    var l := AfterAll(NoTransactions(), moves);
    AlwaysOrderly(moves);
    if !Asks(l.txs[i]) {
      assert CanEnd(l, i);
    } else {
      var m := GreatestAsked(l.txs, i);
      var asked := l.txs[m].plan[l.txs[m].held];
      if !CanAcquire(l, m) {
        var j :| 0 <= j < |l.txs| && j != m && HoldsAgainst(l.owned, l.txs[j], asked);
        HoldersAskForGreater(l.owned, l.txs[j], asked);
        assert CanEnd(l, j);
      }
    }
  }

  /** A transaction is unfinished and none can go on. */
  predicate Stuck(l: Locks) {
    && (exists i :: 0 <= i < |l.txs| && !l.txs[i].done)
    && forall i | 0 <= i < |l.txs| :: !CanAcquire(l, i) && !CanEnd(l, i)
  }

  lemma HoldersAskForGreater(owned: Owned, t: LockTx, asked: Key)
    requires Orderly(t) && HoldsAgainst(owned, t, asked)
    ensures Asks(t) ==> KeyLess(asked, t.plan[t.held])
  {
    var k :| k in t.plan[..t.held] && Blocks(owned, k, asked);
    var i :| 0 <= i < t.held && t.plan[i] == k;
    if Asks(t) && k != asked {
      KeyTransitive(asked, k, t.plan[t.held]);
    }
  }

  /** The row locks of `create_hold`: seats as the database sorts their ids. */
  function HoldPlan(ids: seq<Uuid>): (plan: seq<Key>)
    ensures |plan| == |ids| && forall i | 0 <= i < |ids| :: plan[i] == SeatRow(ids[i])
  {
    seq(|ids|, i requires 0 <= i < |ids| => SeatRow(ids[i]))
  }

  /** The row locks of a late success: payment, booking, then seats as Python sorts their text. */
  function ReacquirePlan(ref: nat, booking: nat, ids: seq<Uuid>): seq<Key> {
    [PaymentRow(ref), BookingRow(booking)] + HoldPlan(ids)
  }

  /** The row locks of a delivery that confirms or fails its booking. */
  function SettlePlan(ref: nat, booking: nat): seq<Key> {
    [PaymentRow(ref), BookingRow(booking), OwnRows(booking)]
  }

  /** The row locks of a sweep of one booking. */
  function SweepPlan(booking: nat): seq<Key> {
    [BookingRow(booking), OwnRows(booking)]
  }

  /** `cancel_booking`, and the expiry at pay time, free the seats before they write the booking. */
  function CancelPlan(booking: nat): seq<Key> {
    [OwnRows(booking), BookingRow(booking)]
  }

  /** Holds, deliveries and sweeps ask for locks in one common order. */
  lemma PlansRise(ref: nat, booking: nat, ids: seq<Uuid>)
    ensures (forall i, j | 0 <= i < j < |ids| :: BytesLess(ids[i], ids[j])) ==> Rising(HoldPlan(ids))
    ensures (forall i, j | 0 <= i < j < |ids| :: TextLess(Text(ids[i]), Text(ids[j]))) ==>
      Rising(HoldPlan(ids)) && Rising(ReacquirePlan(ref, booking, ids))
    ensures Rising(SettlePlan(ref, booking)) && Rising(SweepPlan(booking)) && !Rising(CancelPlan(booking))
  {
    assert !KeyLess(CancelPlan(booking)[0], CancelPlan(booking)[1]);
    if forall i, j | 0 <= i < j < |ids| :: TextLess(Text(ids[i]), Text(ids[j])) {
      forall i, j | 0 <= i < j < |ids| ensures BytesLess(ids[i], ids[j]) {
        assert TextLess(Text(ids[i]), Text(ids[j]));
        SortingByTextIsSortingByBytes(ids[i], ids[j]);
      }
      var plan := ReacquirePlan(ref, booking, ids);
      forall i, j | 0 <= i < j < |plan| ensures KeyLess(plan[i], plan[j]) {
        if 2 <= i {
          assert plan[i] == SeatRow(ids[i - 2]) && plan[j] == SeatRow(ids[j - 2]);
        }
      }
    }
  }

  /** Two transactions that have not locked anything yet. */
  function Pair(p: seq<Key>, q: seq<Key>, owned: Owned): Locks {
    Locks([LockTx(p, 0, false), LockTx(q, 0, false)], owned)
  }

  /** Only the two act. */
  predicate Internal(moves: seq<Move>) {
    forall i | 0 <= i < |moves| :: !moves[i].Arrive? && !moves[i].ChangeHands?
  }

  /** The transaction still has its plan, or has cut it short after the locks it holds. */
  predicate Follows(t: LockTx, plan: seq<Key>) {
    t.held <= |t.plan| <= |plan| && t.plan == plan[..|t.plan|] && (t.plan == plan || t.held == |t.plan|)
  }

  lemma {:induction false} PairFollows(p: seq<Key>, q: seq<Key>, owned: Owned, moves: seq<Move>)
    requires Internal(moves)
    ensures var l := AfterAll(Pair(p, q, owned), moves);
      l.owned == owned && |l.txs| == 2 && Follows(l.txs[0], p) && Follows(l.txs[1], q)
    decreases |moves|
  {
    if moves != [] {
      PairFollows(p, q, owned, moves[..|moves| - 1]);
    }
  }

  /** The transaction asks for something that the rows of booking `b`, once locked, keep from it. */
  predicate NeedsRowsOf(owned: Owned, plan: seq<Key>, b: nat) {
    exists i :: 0 <= i < |plan| && Blocks(owned, OwnRows(b), plan[i])
  }

  lemma StuckMeansCrossed(b: nat, q: seq<Key>, owned: Owned, moves: seq<Move>)
    requires Internal(moves) && Stuck(AfterAll(Pair(CancelPlan(b), q, owned), moves))
    ensures BookingRow(b) in q && NeedsRowsOf(owned, q, b)
  {
    var l := AfterAll(Pair(CancelPlan(b), q, owned), moves);
    PairFollows(CancelPlan(b), q, owned, moves);
    BothWait(l);
    var t, u := l.txs[0], l.txs[1];
    assert CancelPlan(b)[..1] == [OwnRows(b)];
    assert t.held == 1;
    assert t.plan[..1] == [OwnRows(b)] && t.plan[1] == BookingRow(b);
    assert Blocks(owned, OwnRows(b), q[u.held]);
    var k :| k in u.plan[..u.held] && Blocks(owned, k, BookingRow(b));
    assert k in q;
  }

  /** Stuck, each of the two waits for the other. */
  lemma BothWait(l: Locks)
    requires Stuck(l) && |l.txs| == 2 && l.txs[0].held <= |l.txs[0].plan| && l.txs[1].held <= |l.txs[1].plan|
    ensures forall i | 0 <= i < 2 :: Asks(l.txs[i]) && HoldsAgainst(l.owned, l.txs[1 - i], l.txs[i].plan[l.txs[i].held])
  {
    assert !CanEnd(l, 0) && !CanEnd(l, 1) && !CanAcquire(l, 0) && !CanAcquire(l, 1);
  }

  function AcquireTimes(i: nat, n: nat): seq<Move> {
    seq(n, _ => Acquire(i))
  }

  /** While the other holds nothing, the second transaction gets whatever it asks for. */
  lemma {:induction false} SecondGoesAhead(p: seq<Key>, q: seq<Key>, owned: Owned, n: nat)
    requires n <= |q|
    ensures AfterAll(Pair(p, q, owned), AcquireTimes(1, n)) == Locks([LockTx(p, 0, false), LockTx(q, n, false)], owned)
    decreases n
  {
    if n > 0 {
      SecondGoesAhead(p, q, owned, n - 1);
      assert AcquireTimes(1, n)[..n - 1] == AcquireTimes(1, n - 1);
      var l := AfterAll(Pair(p, q, owned), AcquireTimes(1, n - 1));
      assert CanAcquire(l, 1);
    }
  }

  function FirstBlocked(owned: Owned, plan: seq<Key>, b: nat): (n: nat)
    requires NeedsRowsOf(owned, plan, b)
    ensures n < |plan| && Blocks(owned, OwnRows(b), plan[n])
    ensures forall i | 0 <= i < n :: !Blocks(owned, OwnRows(b), plan[i])
  {
    if Blocks(owned, OwnRows(b), plan[0]) then 0 else FirstBlocked(owned, plan[1..], b) + 1
  }

  /** The other transaction runs up to the first lock that `b`'s rows keep from it; then the cancellation starts. */
  function CrossingMoves(owned: Owned, q: seq<Key>, b: nat): seq<Move>
    requires NeedsRowsOf(owned, q, b)
  {
    AcquireTimes(1, FirstBlocked(owned, q, b)) + [Acquire(0)]
  }

  lemma CrossedGetStuck(b: nat, q: seq<Key>, owned: Owned)
    requires Rising(q) && BookingRow(b) in q && NeedsRowsOf(owned, q, b)
    ensures Internal(CrossingMoves(owned, q, b))
    ensures Stuck(AfterAll(Pair(CancelPlan(b), q, owned), CrossingMoves(owned, q, b)))
  {
    var p, n, moves := CancelPlan(b), FirstBlocked(owned, q, b), CrossingMoves(owned, q, b);
    SecondGoesAhead(p, q, owned, n);
    assert moves[..n] == AcquireTimes(1, n);
    var l := Locks([LockTx(p, 0, false), LockTx(q, n, false)], owned);
    assert AfterAll(Pair(p, q, owned), moves[..n]) == l;
    assert CanAcquire(l, 0);
    assert AfterAll(Pair(p, q, owned), moves) == Crossed(owned, q, b, n);
    CrossedIsStuck(owned, q, b, n);
  }

  /** The cancellation has the rows of `b` and wants the booking; the other has its first `n` locks. */
  function Crossed(owned: Owned, q: seq<Key>, b: nat, n: nat): Locks {
    Locks([LockTx(CancelPlan(b), 1, false), LockTx(q, n, false)], owned)
  }

  lemma CrossedIsStuck(owned: Owned, q: seq<Key>, b: nat, n: nat)
    requires Rising(q) && BookingRow(b) in q && n < |q| && Blocks(owned, OwnRows(b), q[n])
    ensures Stuck(Crossed(owned, q, b, n))
  {
    var p, txs := CancelPlan(b), Crossed(owned, q, b, n).txs;
    var at :| 0 <= at < |q| && q[at] == BookingRow(b);
    assert at < n;
    assert p[..1] == [OwnRows(b)] && p[1] == BookingRow(b);
    assert OwnRows(b) in txs[0].plan[..txs[0].held] && BookingRow(b) in txs[1].plan[..txs[1].held];
    assert HoldsAgainst(owned, txs[1], p[1]) && HoldsAgainst(owned, txs[0], q[n]);
    assert !txs[0].done;
  }

  /** A cancellation of `b` and a transaction that asks in the common order can get stuck exactly when the other locks
      the booking and also asks for rows that belong to it. */
  lemma CancelDeadlocksIff(b: nat, q: seq<Key>, owned: Owned)
    requires Rising(q)
    ensures (exists moves :: Internal(moves) && Stuck(AfterAll(Pair(CancelPlan(b), q, owned), moves)))
      <==> BookingRow(b) in q && NeedsRowsOf(owned, q, b)
  {
    if BookingRow(b) in q && NeedsRowsOf(owned, q, b) {
      CrossedGetStuck(b, q, owned);
    }
    if moves :| Internal(moves) && Stuck(AfterAll(Pair(CancelPlan(b), q, owned), moves)) {
      StuckMeansCrossed(b, q, owned, moves);
    }
  }

  /** Of the transactions of the program, those are the deliveries and the sweeps of that very booking. */
  lemma CancelAgainstEach(b: nat, c: nat, ref: nat, ids: seq<Uuid>, owned: Owned)
    ensures BookingRow(b) in SettlePlan(ref, c) && NeedsRowsOf(owned, SettlePlan(ref, c), b) <==> b == c
    ensures BookingRow(b) in SweepPlan(c) && NeedsRowsOf(owned, SweepPlan(c), b) <==> b == c
    ensures BookingRow(b) in ReacquirePlan(ref, c, ids) && NeedsRowsOf(owned, ReacquirePlan(ref, c, ids), b)
      <==> b == c && exists i :: 0 <= i < |ids| && (b, ids[i]) in owned
    ensures BookingRow(b) !in HoldPlan(ids)
  {
    var settle, sweep := SettlePlan(ref, c), SweepPlan(c);
    assert b == c ==> settle[1] == BookingRow(b) && Blocks(owned, OwnRows(b), settle[2]);
    assert b == c ==> sweep[0] == BookingRow(b) && Blocks(owned, OwnRows(b), sweep[1]);
    CancelAgainstLate(b, c, ref, ids, owned);
  }

  lemma CancelAgainstLate(b: nat, c: nat, ref: nat, ids: seq<Uuid>, owned: Owned)
    ensures BookingRow(b) in ReacquirePlan(ref, c, ids) <==> b == c
    ensures NeedsRowsOf(owned, ReacquirePlan(ref, c, ids), b) <==> exists i :: 0 <= i < |ids| && (b, ids[i]) in owned
  {
    var late := ReacquirePlan(ref, c, ids);
    assert late[1] == BookingRow(c);
    forall i | 0 <= i < |ids| ensures late[i + 2] == SeatRow(ids[i]) {
    }
    if NeedsRowsOf(owned, late, b) {
      var j :| 0 <= j < |late| && Blocks(owned, OwnRows(b), late[j]);
      assert (b, ids[j - 2]) in owned;
    }
  }
}
