/** queue_service: positions, batched admission and the wait that `get_status` predicts. */
module WaitingRoom {
  import opened Commons
  import opened Records

  datatype TicketStatus = WAITING | ADMITTED

  datatype Ticket = Ticket(show: ShowId, user: UserId, position: nat, status: TicketStatus)

  predicate IsWaiting(t: Ticket, show: ShowId) {
    t.show == show && t.status == WAITING
  }

  /** `COALESCE(MAX(position), 0)` over all tickets of the show. */
  function MaxPosition(tickets: seq<Ticket>, show: ShowId): (m: nat)
    ensures forall i | 0 <= i < |tickets| && tickets[i].show == show :: tickets[i].position <= m
    ensures m == 0 || exists i :: 0 <= i < |tickets| && tickets[i].show == show && tickets[i].position == m
  {
    if tickets == [] then 0 else
      var before := MaxPosition(tickets[..|tickets| - 1], show);
      var last := tickets[|tickets| - 1];
      if last.show == show && last.position > before then last.position else before
  }

  /** The waiting tickets of the show in front of a position. */
  function InFront(tickets: seq<Ticket>, show: ShowId, position: nat): set<nat> {
    set i: nat | i < |tickets| && IsWaiting(tickets[i], show) && tickets[i].position < position
  }

  /** `ahead` in `get_status`. */
  function Ahead(tickets: seq<Ticket>, i: nat): nat
    requires i < |tickets|
  {
    |InFront(tickets, tickets[i].show, tickets[i].position)|
  }

  predicate HasWaiting(tickets: seq<Ticket>, user: UserId, show: ShowId) {
    exists i :: 0 <= i < |tickets| && IsWaiting(tickets[i], show) && tickets[i].user == user
  }

  /** `join_queue`. A user who already waits keeps that ticket; a show that is not hot admits at once. */
  function Join(tickets: seq<Ticket>, hot: seq<ShowId>, user: UserId, show: ShowId): seq<Ticket> {
    if HasWaiting(tickets, user, show) then tickets
    else if show !in hot then tickets + [Ticket(show, user, 0, ADMITTED)]
    else tickets + [Ticket(show, user, MaxPosition(tickets, show) + 1, WAITING)]
  }

  /** `ORDER BY position`, with equal positions in the order of the table. */
  predicate Precedes(tickets: seq<Ticket>, i: nat, j: nat)
    requires i < |tickets| && j < |tickets|
  {
    tickets[i].position < tickets[j].position || (tickets[i].position == tickets[j].position && i < j)
  }

  function Waiting(tickets: seq<Ticket>, show: ShowId): set<nat> {
    set i: nat | i < |tickets| && IsWaiting(tickets[i], show)
  }

  /** The members of `s` that precede ticket `i`. */
  function Before(tickets: seq<Ticket>, s: set<nat>, i: nat): set<nat>
    requires i < |tickets|
  {
    set j | j in s && j < |tickets| && Precedes(tickets, j, i)
  }

  /** The ids that `WHERE show AND WAITING ORDER BY position LIMIT rate` selects, equal positions in table order. */
  function Chosen(tickets: seq<Ticket>, show: ShowId, rate: nat): set<nat> {
    set i: nat | i < |tickets| && IsWaiting(tickets[i], show) && |Before(tickets, Waiting(tickets, show), i)| < rate
  }

  /** What that query may return, however it breaks ties: as many waiting tickets as the limit and the
      queue allow, none of them behind one left out. */
  predicate IsBatch(tickets: seq<Ticket>, show: ShowId, rate: nat, batch: set<nat>) {
    && batch <= Waiting(tickets, show)
    && |batch| == (if |Waiting(tickets, show)| < rate then |Waiting(tickets, show)| else rate)
    && forall i, j | i in batch && j in Waiting(tickets, show) && j !in batch ::
      tickets[i].position <= tickets[j].position
  }

  function Admit(tickets: seq<Ticket>, chosen: set<nat>): (r: seq<Ticket>)
    ensures |r| == |tickets|
    ensures forall i | 0 <= i < |tickets| :: r[i] == if i in chosen then tickets[i].(status := ADMITTED) else tickets[i]
  {
    seq(|tickets|, i requires 0 <= i < |tickets| => if i in chosen then tickets[i].(status := ADMITTED) else tickets[i])
  }

  /** `admit_next_batch`: one batch for each hot show. */
  function AdmitBatches(tickets: seq<Ticket>, hot: seq<ShowId>, rate: nat): (r: seq<Ticket>)
    ensures |r| == |tickets|
    decreases |hot|
  {
    if hot == [] then tickets
    else AdmitBatches(Admit(tickets, Chosen(tickets, hot[0], rate)), hot[1..], rate)
  }

  /** `mark_hot`. There is no way back. */
  function MarkHot(hot: seq<ShowId>, show: ShowId): seq<ShowId> {
    if show in hot then hot else hot + [show]
  }

  datatype Queue = Queue(tickets: seq<Ticket>, hot: seq<ShowId>)

  datatype QueueEvent = JoinEvent(user: UserId, show: ShowId) | MarkHotEvent(show: ShowId) | TickEvent

  function Next(q: Queue, rate: nat, e: QueueEvent): Queue {
    match e
    case JoinEvent(user, show) => q.(tickets := Join(q.tickets, q.hot, user, show))
    case MarkHotEvent(show) => q.(hot := MarkHot(q.hot, show))
    case TickEvent => q.(tickets := AdmitBatches(q.tickets, q.hot, rate))
  }

  function RunQueue(q: Queue, rate: nat, events: seq<QueueEvent>): Queue
    decreases |events|
  {
    if events == [] then q else Next(RunQueue(q, rate, events[..|events| - 1]), rate, events[|events| - 1])
  }

  /** Nobody has joined yet; `hot` are the shows seeded hot. */
  function Opened(hot: seq<ShowId>): Queue {
    Queue([], hot)
  }

  function Ticks(events: seq<QueueEvent>): nat
    decreases |events|
  {
    if events == [] then 0 else Ticks(events[..|events| - 1]) + if events[|events| - 1].TickEvent? then 1 else 0
  }

  /** How many of a hot show's tickets the ticks of `events` can admit. */
  function Quota(events: seq<QueueEvent>, rate: nat): nat
    decreases |events|
  {
    if events == [] then 0 else
      Quota(events[..|events| - 1], rate) + if events[|events| - 1].TickEvent? then rate else 0
  }

  lemma {:induction false} QuotaIsTicksTimesRate(events: seq<QueueEvent>, rate: nat)
    ensures Quota(events, rate) == Ticks(events) * rate
    decreases |events|
  {
    if events != [] {
      QuotaIsTicksTimesRate(events[..|events| - 1], rate);
    }
  }

  /** A waiting ticket's position exceeds those of all earlier tickets of its show, only hot shows have
      waiters, and whoever joined before an admitted ticket is admitted. */
  ghost predicate InOrder(tickets: seq<Ticket>, hot: seq<ShowId>) {
    && (forall i, j | 0 <= i < j < |tickets| && tickets[i].show == tickets[j].show && tickets[j].status == WAITING ::
         tickets[i].position < tickets[j].position)
    && (forall i | 0 <= i < |tickets| && tickets[i].status == WAITING :: tickets[i].show in hot)
    && (forall i, j | 0 <= i < j < |tickets| && tickets[i].show == tickets[j].show && tickets[j].status == ADMITTED ::
         tickets[i].status == ADMITTED)
  }

  function Foremost(tickets: seq<Ticket>, s: set<nat>, rate: nat): set<nat> {
    set i | i in s && i < |tickets| && |Before(tickets, s, i)| < rate
  }

  lemma WithoutHindmost(tickets: seq<Ticket>, s: set<nat>, m: nat, rate: nat)
    requires m in s && m < |tickets|
    requires forall i | i in s && i != m :: i < |tickets| && Precedes(tickets, i, m)
    ensures Foremost(tickets, s, rate) == Foremost(tickets, s - {m}, rate) + if |s - {m}| < rate then {m} else {}
  {
    var rest := s - {m};
    forall i | i in rest ensures Before(tickets, s, i) == Before(tickets, rest, i) {
    }
    assert Before(tickets, s, m) == rest;
  }

  /** Exactly `rate` tickets of a set (or all) have fewer than `rate` before them. */
  lemma {:induction false} FewestInFront(tickets: seq<Ticket>, s: set<nat>, rate: nat)
    requires forall i | i in s :: i < |tickets|
    ensures |Foremost(tickets, s, rate)| == if |s| < rate then |s| else rate
    decreases |s|
  {
    if s == {} {
      assert Foremost(tickets, s, rate) == {};
    } else {
      var m := Hindmost(tickets, s);
      WithoutHindmost(tickets, s, m, rate);
      FewestInFront(tickets, s - {m}, rate);
      assert m !in Foremost(tickets, s - {m}, rate);
    }
  }

  lemma Hindmost(tickets: seq<Ticket>, s: set<nat>) returns (m: nat)
    requires s != {} && forall i | i in s :: i < |tickets|
    ensures m in s && forall i | i in s && i != m :: Precedes(tickets, i, m)
  {
    m :| m in s;
    var todo := s;
    while todo != {}
      invariant m in s && todo <= s
      invariant forall i | i in s - todo && i != m :: Precedes(tickets, i, m)
      decreases |todo|
    {
      var i :| i in todo;
      var later := if Precedes(tickets, m, i) then i else m;
      forall k | k in s - (todo - {i}) && k != later ensures Precedes(tickets, k, later) {
        assert k == m || k == i || (k in s - todo && Precedes(tickets, k, m));
      }
      m, todo := later, todo - {i};
    }
  }

  /** The selection is what the query may return, whatever the positions. */
  lemma ChosenIsBatch(tickets: seq<Ticket>, show: ShowId, rate: nat)
    ensures IsBatch(tickets, show, rate, Chosen(tickets, show, rate))
  {
    var w, chosen := Waiting(tickets, show), Chosen(tickets, show, rate);
    assert Foremost(tickets, w, rate) == chosen;
    FewestInFront(tickets, w, rate);
    forall i, j | i in chosen && j in w && j !in chosen ensures tickets[i].position <= tickets[j].position {
      if tickets[j].position < tickets[i].position {
        SubsetSize(Before(tickets, w, j), Before(tickets, w, i));
      }
    }
  }

  /** In order, the query has one answer only: ties do not arise. */
  lemma BatchIsUnique(tickets: seq<Ticket>, hot: seq<ShowId>, show: ShowId, rate: nat, batch: set<nat>)
    requires InOrder(tickets, hot) && IsBatch(tickets, show, rate, batch)
    ensures batch == Chosen(tickets, show, rate)
  {
    var chosen := Chosen(tickets, show, rate);
    ChosenIsBatch(tickets, show, rate);
    assert |batch| == |chosen|;
    if batch != chosen {
      var i, j := SwappedPair(batch, chosen);
      WaitersDiffer(tickets, hot, show, i, j);
    }
  }

  lemma WaitersDiffer(tickets: seq<Ticket>, hot: seq<ShowId>, show: ShowId, i: nat, j: nat)
    requires InOrder(tickets, hot) && i in Waiting(tickets, show) && j in Waiting(tickets, show) && i != j
    ensures tickets[i].position != tickets[j].position
  {
    assert tickets[if i < j then i else j].show == show;
  }

  lemma SwappedPair(a: set<nat>, b: set<nat>) returns (i: nat, j: nat)
    requires |a| == |b| && a != b
    ensures i in a && i !in b && j in b && j !in a
  {
    if a <= b {
      SubsetOfSameSize(a, b);
    }
    if b <= a {
      SubsetOfSameSize(b, a);
    }
    i :| i in a && i !in b;
    j :| j in b && j !in a;
  }

  lemma SubsetOfSameSize(a: set<nat>, b: set<nat>)
    requires |a| == |b| && a <= b
    ensures a == b
  {
    assert b == a + (b - a);
  }

  lemma JoinKeepsOrder(tickets: seq<Ticket>, hot: seq<ShowId>, user: UserId, show: ShowId)
    requires InOrder(tickets, hot)
    ensures InOrder(Join(tickets, hot, user, show), hot)
  {
  }

  lemma MarkHotKeepsOrder(tickets: seq<Ticket>, hot: seq<ShowId>, show: ShowId)
    requires InOrder(tickets, hot)
    ensures InOrder(tickets, MarkHot(hot, show))
  {
  }

  /** In order, those before a waiting ticket are those in front of its position. */
  lemma BeforeIsInFront(tickets: seq<Ticket>, hot: seq<ShowId>, show: ShowId, i: nat)
    requires InOrder(tickets, hot) && i < |tickets| && IsWaiting(tickets[i], show)
    ensures Before(tickets, Waiting(tickets, show), i) == InFront(tickets, show, tickets[i].position)
  {
  }

  /** One batch: who is chosen, and how far everyone else moves up. */
  lemma BatchMovesUp(tickets: seq<Ticket>, hot: seq<ShowId>, show: ShowId, rate: nat, i: nat)
    requires InOrder(tickets, hot) && i < |tickets| && IsWaiting(tickets[i], show)
    requires Ahead(tickets, i) >= rate
    ensures i !in Chosen(tickets, show, rate)
    ensures Ahead(Admit(tickets, Chosen(tickets, show, rate)), i) == Ahead(tickets, i) - rate
  {
    var front := InFront(tickets, show, tickets[i].position);
    var chosen := Chosen(tickets, show, rate);
    BeforeIsInFront(tickets, hot, show, i);
    ForemostAreChosen(tickets, show, rate, tickets[i].position);
    FewestInFront(tickets, front, rate);
    FrontAfter(tickets, show, chosen, tickets[i].position);
    PartsAdd(front, chosen);
  }

  lemma PartsAdd(a: set<nat>, b: set<nat>)
    ensures |a| == |a - b| + |b * a|
  {
    assert a == (a - b) + (b * a);
  }

  lemma FrontAfter(tickets: seq<Ticket>, show: ShowId, chosen: set<nat>, position: nat)
    ensures InFront(Admit(tickets, chosen), show, position) == InFront(tickets, show, position) - chosen
  {
  }

  lemma ForemostAreChosen(tickets: seq<Ticket>, show: ShowId, rate: nat, position: nat)
    ensures var front := InFront(tickets, show, position);
      Foremost(tickets, front, rate) == Chosen(tickets, show, rate) * front
  {
    var front := InFront(tickets, show, position);
    forall j | j in front ensures Before(tickets, front, j) == Before(tickets, Waiting(tickets, show), j) {
    }
  }

  lemma BatchKeepsOrder(tickets: seq<Ticket>, hot: seq<ShowId>, show: ShowId, rate: nat)
    requires InOrder(tickets, hot)
    ensures InOrder(Admit(tickets, Chosen(tickets, show, rate)), hot)
  {
    var after := Admit(tickets, Chosen(tickets, show, rate));
    forall i, j | 0 <= i < j < |after| && after[i].show == after[j].show && after[j].status == ADMITTED
      ensures after[i].status == ADMITTED
    {
      if tickets[i].status == WAITING && tickets[j].status == WAITING {
        assert tickets[i].position < tickets[j].position;
        SubsetSize(Before(tickets, Waiting(tickets, show), i), Before(tickets, Waiting(tickets, show), j));
      }
    }
  }

  /** A batch for another show leaves this show's queue alone. */
  lemma OtherBatch(tickets: seq<Ticket>, show: ShowId, rate: nat, i: nat)
    requires i < |tickets| && tickets[i].show != show
    ensures var after := Admit(tickets, Chosen(tickets, show, rate));
      after[i] == tickets[i] && Ahead(after, i) == Ahead(tickets, i)
  {
    var after := Admit(tickets, Chosen(tickets, show, rate));
    assert InFront(after, tickets[i].show, tickets[i].position) ==
      InFront(tickets, tickets[i].show, tickets[i].position);
  }

  /** What one tick does to a ticket that waits with `a` in front of it. */
  ghost predicate Moves(before: seq<Ticket>, after: seq<Ticket>, i: nat, steps: nat)
    requires i < |before| && i < |after|
  {
    && after[i] == before[i].(status := after[i].status)
    && (before[i].status == WAITING ==>
         if Ahead(before, i) < steps then after[i].status == ADMITTED
         else after[i].status == WAITING && Ahead(after, i) == Ahead(before, i) - steps)
  }

  lemma {:induction false} BatchesOf(tickets: seq<Ticket>, all: seq<ShowId>, hot: seq<ShowId>, rate: nat, i: nat)
    requires InOrder(tickets, all) && Distinct(hot) && i < |tickets| && tickets[i].status == WAITING
    ensures InOrder(AdmitBatches(tickets, hot, rate), all)
    ensures Moves(tickets, AdmitBatches(tickets, hot, rate), i, if tickets[i].show in hot then rate else 0)
    decreases |hot|
  {
    if hot != [] {
      var one := Admit(tickets, Chosen(tickets, hot[0], rate));
      BatchKeepsOrder(tickets, all, hot[0], rate);
      assert hot == [hot[0]] + hot[1..];
      if tickets[i].show == hot[0] {
        assert tickets[i].show !in hot[1..];
        BeforeIsInFront(tickets, all, hot[0], i);
        if Ahead(tickets, i) < rate {
          AdmittedStay(one, hot[1..], rate, i);
          BatchesKeepOrder(one, all, hot[1..], rate);
        } else {
          BatchMovesUp(tickets, all, hot[0], rate, i);
          BatchesOf(one, all, hot[1..], rate, i);
        }
      } else {
        OtherBatch(tickets, hot[0], rate, i);
        BatchesOf(one, all, hot[1..], rate, i);
      }
    }
  }

  lemma {:induction false} AdmittedStay(tickets: seq<Ticket>, hot: seq<ShowId>, rate: nat, i: nat)
    requires i < |tickets| && tickets[i].status == ADMITTED
    ensures AdmitBatches(tickets, hot, rate)[i] == tickets[i]
    decreases |hot|
  {
    if hot != [] {
      AdmittedStay(Admit(tickets, Chosen(tickets, hot[0], rate)), hot[1..], rate, i);
    }
  }

  lemma {:induction false} BatchesKeepOrder(tickets: seq<Ticket>, all: seq<ShowId>, hot: seq<ShowId>, rate: nat)
    requires InOrder(tickets, all)
    ensures InOrder(AdmitBatches(tickets, hot, rate), all)
    decreases |hot|
  {
    if hot != [] {
      BatchKeepsOrder(tickets, all, hot[0], rate);
      BatchesKeepOrder(Admit(tickets, Chosen(tickets, hot[0], rate)), all, hot[1..], rate);
    }
  }

  /** A later join never gets in front of a waiting ticket. */
  lemma JoinGoesBehind(tickets: seq<Ticket>, hot: seq<ShowId>, user: UserId, show: ShowId, i: nat)
    requires i < |tickets|
    ensures Join(tickets, hot, user, show)[i] == tickets[i]
    ensures Ahead(Join(tickets, hot, user, show), i) == Ahead(tickets, i)
  {
    var after := Join(tickets, hot, user, show);
    assert forall j | 0 <= j < |tickets| :: after[j] == tickets[j];
    assert InFront(after, tickets[i].show, tickets[i].position) ==
      InFront(tickets, tickets[i].show, tickets[i].position);
  }

  /** Every waiting ticket's show is hot, and each hot show is listed once. */
  ghost predicate QueueOk(q: Queue) {
    InOrder(q.tickets, q.hot) && Distinct(q.hot)
  }

  lemma NextKeepsOrder(q: Queue, rate: nat, e: QueueEvent)
    requires QueueOk(q)
    ensures QueueOk(Next(q, rate, e))
  {
    match e
    case JoinEvent(user, show) => JoinKeepsOrder(q.tickets, q.hot, user, show);
    case MarkHotEvent(show) => MarkHotKeepsOrder(q.tickets, q.hot, show);
    case TickEvent => BatchesKeepOrder(q.tickets, q.hot, q.hot, rate);
  }

  lemma TickMoves(start: seq<Ticket>, q: Queue, rate: nat, i: nat, steps: nat)
    requires QueueOk(q) && i < |start| && i < |q.tickets|
    requires Moves(start, q.tickets, i, steps) && start[i].status == WAITING
    ensures Moves(start, AdmitBatches(q.tickets, q.hot, rate), i, steps + rate)
  {
    if q.tickets[i].status == WAITING {
      BatchesOf(q.tickets, q.hot, q.hot, rate, i);
    } else {
      AdmittedStay(q.tickets, q.hot, rate, i);
    }
  }

  lemma EventMoves(start: seq<Ticket>, q: Queue, rate: nat, e: QueueEvent, i: nat, steps: nat)
    requires QueueOk(q) && i < |start| && i < |q.tickets|
    requires Moves(start, q.tickets, i, steps) && start[i].status == WAITING
    ensures var after := Next(q, rate, e).tickets;
      i < |after| && Moves(start, after, i, steps + if e.TickEvent? then rate else 0)
  {
    match e
    case JoinEvent(user, show) => JoinGoesBehind(q.tickets, q.hot, user, show, i);
    case MarkHotEvent(_) =>
    case TickEvent => TickMoves(start, q, rate, i, steps);
  }

  /** Whatever joins are interleaved and whichever shows turn hot meanwhile, after k ticks a ticket that had `a`
      in front of it still waits, with a - k * rate in front, exactly while k * rate <= a. */
  lemma {:induction false} AdmittedOnSchedule(q: Queue, rate: nat, events: seq<QueueEvent>, i: nat)
    requires QueueOk(q) && i < |q.tickets| && q.tickets[i].status == WAITING
    ensures var after := RunQueue(q, rate, events);
      QueueOk(after) && i < |after.tickets| && Moves(q.tickets, after.tickets, i, Quota(events, rate))
    decreases |events|
  {
    if events != [] {
      var shorter := events[..|events| - 1];
      AdmittedOnSchedule(q, rate, shorter, i);
      NextKeepsOrder(RunQueue(q, rate, shorter), rate, events[|events| - 1]);
      EventMoves(q.tickets, RunQueue(q, rate, shorter), rate, events[|events| - 1], i, Quota(shorter, rate));
    }
  }

  lemma {:induction false} ReachableInOrder(hot: seq<ShowId>, rate: nat, events: seq<QueueEvent>)
    requires Distinct(hot)
    ensures QueueOk(RunQueue(Opened(hot), rate, events))
    decreases |events|
  {
    if events != [] {
      ReachableInOrder(hot, rate, events[..|events| - 1]);
      NextKeepsOrder(RunQueue(Opened(hot), rate, events[..|events| - 1]), rate, events[|events| - 1]);
    }
  }

  /** `get_status`: the batches a waiting ticket needs, as the service computes it. */
  function BatchesNeeded(tickets: seq<Ticket>, i: nat, rate: nat): nat
    requires i < |tickets|
  {
    Ahead(tickets, i) / (if rate < 1 then 1 else rate)
  }

  /** In every reachable state the prediction of `get_status` is exact: the ticket is admitted by the
      batch numbered BatchesNeeded + 1 from now, and not before, whoever joins and whatever turns hot
      meanwhile; unless batches are empty. */
  lemma PredictionIsExact(hot: seq<ShowId>, rate: nat, past: seq<QueueEvent>, future: seq<QueueEvent>, i: nat)
    requires Distinct(hot)
    requires var now := RunQueue(Opened(hot), rate, past).tickets; i < |now| && now[i].status == WAITING
    ensures var now := RunQueue(Opened(hot), rate, past);
      var later := RunQueue(now, rate, future).tickets;
      i < |later| && (later[i].status == ADMITTED <==>
        rate >= 1 && Ticks(future) >= BatchesNeeded(now.tickets, i, rate) + 1)
  {
    var now := RunQueue(Opened(hot), rate, past);
    ReachableInOrder(hot, rate, past);
    AdmittedOnSchedule(now, rate, future, i);
    QuotaIsTicksTimesRate(future, rate);
    if rate >= 1 {
      Quotient(Ahead(now.tickets, i), rate, Ticks(future));
    }
  }

  lemma Quotient(a: nat, rate: nat, k: nat)
    requires rate >= 1
    ensures a < k * rate <==> k >= a / rate + 1
  {
    if k >= a / rate + 1 {
      assert k * rate >= (a / rate + 1) * rate;
    } else {
      assert k * rate <= (a / rate) * rate;
    }
  }

  /** Admission follows the order of joining. */
  lemma EarlierJoinersFirst(hot: seq<ShowId>, rate: nat, events: seq<QueueEvent>, i: nat, j: nat)
    requires Distinct(hot)
    requires var tickets := RunQueue(Opened(hot), rate, events).tickets;
      i < j < |tickets| && tickets[i].show == tickets[j].show && tickets[j].status == ADMITTED
    ensures RunQueue(Opened(hot), rate, events).tickets[i].status == ADMITTED
  {
    ReachableInOrder(hot, rate, events);
  }

  function Admitted(tickets: seq<Ticket>): set<nat> {
    set i: nat | i < |tickets| && tickets[i].status == ADMITTED
  }

  /** The `queue_tickets` table. */
  class QueueTable {
    var tickets: seq<Ticket>
    var hot: seq<ShowId>
    const rate: nat

    constructor (hot: seq<ShowId>, rate: nat)
      ensures tickets == [] && this.hot == hot && this.rate == rate
    {
      tickets := [];
      this.hot := hot;
      this.rate := rate;
    }

    /** `mark_hot`: one more show is hot, however often it is marked, and the queue stays in join order. */
    method MarkShowHot(show: ShowId)
      modifies this`hot
      ensures forall s :: s in hot <==> s in old(hot) || s == show
      ensures |Elements(hot)| == |Elements(old(hot))| + if show in old(hot) then 0 else 1
      ensures QueueOk(Queue(tickets, old(hot))) ==> QueueOk(Queue(tickets, hot))
      ensures Queue(tickets, hot) == Next(Queue(tickets, old(hot)), rate, MarkHotEvent(show))
    {
      assert Elements(hot + [show]) == Elements(hot) + {show};
      ghost var before := Queue(tickets, hot);
      if QueueOk(before) {
        NextKeepsOrder(before, rate, MarkHotEvent(show));
      }
      if show !in hot {
        hot := hot + [show];
      }
    }

    /** `join_queue`: the user's waiting ticket, or a new one. */
    method JoinQueue(user: UserId, show: ShowId) returns (id: nat)
      modifies this`tickets
      ensures tickets == Join(old(tickets), hot, user, show)
      ensures id < |tickets| && tickets[id].user == user && tickets[id].show == show
      ensures HasWaiting(old(tickets), user, show) ==> IsWaiting(tickets[id], show)
    {
      for i := 0 to |tickets|
        invariant forall j | 0 <= j < i :: !(IsWaiting(tickets[j], show) && tickets[j].user == user)
      {
        if IsWaiting(tickets[i], show) && tickets[i].user == user {
          return i;
        }
      }
      id := |tickets|;
      if show !in hot {
        tickets := tickets + [Ticket(show, user, 0, ADMITTED)];
        return;
      }
      var highest := 0;
      for i := 0 to |tickets|
        invariant forall j | 0 <= j < i && tickets[j].show == show :: tickets[j].position <= highest
        invariant highest == 0 || exists j :: 0 <= j < i && tickets[j].show == show && tickets[j].position == highest
      {
        if tickets[i].show == show && tickets[i].position > highest {
          highest := tickets[i].position;
        }
      }
      tickets := tickets + [Ticket(show, user, highest + 1, WAITING)];
    }

    /** `admit_next_batch`. */
    method AdmitNextBatch() returns (admitted: nat)
      modifies this`tickets
      ensures tickets == AdmitBatches(old(tickets), hot, rate)
      ensures Admitted(old(tickets)) <= Admitted(tickets)
      ensures admitted == |Admitted(tickets)| - |Admitted(old(tickets))|
    {
      admitted := 0;
      var k := 0;
      while k < |hot|
        invariant k <= |hot|
        invariant AdmitBatches(old(tickets), hot, rate) == AdmitBatches(tickets, hot[k..], rate)
        invariant Admitted(old(tickets)) <= Admitted(tickets)
        invariant admitted == |Admitted(tickets)| - |Admitted(old(tickets))|
      {
        var n := AdmitOne(hot[k]);
        admitted := admitted + n;
        assert hot[k..][1..] == hot[k + 1..];
        k := k + 1;
      }
    }

    method AdmitOne(show: ShowId) returns (admitted: nat)
      modifies this`tickets
      ensures tickets == Admit(old(tickets), Chosen(old(tickets), show, rate))
      ensures IsBatch(old(tickets), show, rate, Chosen(old(tickets), show, rate))
      ensures Admitted(old(tickets)) <= Admitted(tickets)
      ensures admitted == |Admitted(tickets)| - |Admitted(old(tickets))|
    {
      ghost var before := tickets;
      var chosen := Chosen(tickets, show, rate);
      ChosenIsBatch(tickets, show, rate);
      admitted := 0;
      for i := 0 to |tickets|
        invariant |tickets| == |before|
        invariant forall j | 0 <= j < |before| ::
          tickets[j] == if j in chosen && j < i then before[j].(status := ADMITTED) else before[j]
        invariant Admitted(before) <= Admitted(tickets)
        invariant admitted == |Admitted(tickets)| - |Admitted(before)|
      {
        if i in chosen {
          ghost var was := Admitted(tickets);
          tickets := tickets[i := tickets[i].(status := ADMITTED)];
          assert Admitted(tickets) == was + {i};
          admitted := admitted + 1;
        }
      }
    }
  }
}
