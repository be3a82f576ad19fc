/** queue_service: who gets in, and how many at most. */
module Admissions {
  import opened Commons
  import opened WaitingRoom
  import Records

  predicate WaitsAlready(tickets: seq<Ticket>, user: Records.UserId, show: Records.ShowId) {
    exists i :: 0 <= i < |tickets|
      && tickets[i].user == user && tickets[i].show == show && tickets[i].status == WAITING
  }

  /** What a join gives: a user who waits already keeps the ticket and nothing changes; anybody else gets one new
      ticket, which for a hot show waits behind everyone who waits for it, and for any other is admitted at once. */
  lemma JoiningAHotShowMeansWaiting(
      tickets: seq<Ticket>, hot: seq<Records.ShowId>, user: Records.UserId, show: Records.ShowId)
    requires InOrder(tickets, hot)
    ensures var after := Join(tickets, hot, user, show);
      if WaitsAlready(tickets, user, show) then after == tickets
      else
        && |after| == |tickets| + 1 && after[..|tickets|] == tickets
        && after[|tickets|].user == user && after[|tickets|].show == show
        && after[|tickets|].status == (if show in hot then WAITING else ADMITTED)
        && (show in hot ==> Ahead(after, |tickets|) == |Waiting(tickets, show)|)
        && (show !in hot ==> after[|tickets|].position == 0)
  {
    var after := Join(tickets, hot, user, show);
    if !WaitsAlready(tickets, user, show) && show in hot {
      assert InFront(after, show, after[|tickets|].position) == Waiting(tickets, show);
    }
  }

  /** The tickets of the show that are older than ticket `i`. */
  function Older(tickets: seq<Ticket>, show: Records.ShowId, i: nat): set<nat> {
    set j: nat | j < i && j < |tickets| && tickets[j].show == show
  }

  /** The tickets of the show are numbered 1, 2, 3 and so on in the order of joining. */
  ghost predicate Numbered(tickets: seq<Ticket>, show: Records.ShowId) {
    forall i | 0 <= i < |tickets| && tickets[i].show == show :: tickets[i].position == |Older(tickets, show, i)| + 1
  }

  lemma OlderAll(tickets: seq<Ticket>, show: Records.ShowId)
    requires Numbered(tickets, show)
    ensures MaxPosition(tickets, show) == |Older(tickets, show, |tickets|)|
  {
    var all := Older(tickets, show, |tickets|);
    if all != {} {
      var last := Greatest(all);
      LastIsNumber(tickets, show, last);
      NoneBeyond(tickets, show);
      MaximumIs(tickets, show, last);
    } else {
      NobodyJoined(tickets, show);
    }
  }

  lemma LastIsNumber(tickets: seq<Ticket>, show: Records.ShowId, last: nat)
    requires Numbered(tickets, show) && last in Older(tickets, show, |tickets|)
    requires forall i | i in Older(tickets, show, |tickets|) :: i <= last
    ensures tickets[last].position == |Older(tickets, show, |tickets|)|
  {
    var all, before := Older(tickets, show, |tickets|), Older(tickets, show, last);
    forall j ensures j in all <==> j == last || j in before {
    }
    assert last !in before;
    OneMoreMember(before, last, all);
  }

  lemma OneMoreMember(before: set<nat>, last: nat, all: set<nat>)
    requires last !in before && forall j :: j in all <==> j == last || j in before
    ensures |all| == |before| + 1
  {
    assert all == before + {last};
  }

  lemma NobodyJoined(tickets: seq<Ticket>, show: Records.ShowId)
    requires Older(tickets, show, |tickets|) == {}
    ensures MaxPosition(tickets, show) == 0
  {
    forall i | 0 <= i < |tickets| ensures tickets[i].show != show {
      assert i !in Older(tickets, show, |tickets|);
    }
  }

  lemma MaximumIs(tickets: seq<Ticket>, show: Records.ShowId, i: nat)
    requires i < |tickets| && tickets[i].show == show
    requires forall j | 0 <= j < |tickets| && tickets[j].show == show :: tickets[j].position <= tickets[i].position
    ensures MaxPosition(tickets, show) == tickets[i].position
  {
  }

  lemma NoneBeyond(tickets: seq<Ticket>, show: Records.ShowId)
    requires Numbered(tickets, show)
    ensures forall i | 0 <= i < |tickets| && tickets[i].show == show ::
      tickets[i].position <= |Older(tickets, show, |tickets|)|
  {
    var all := Older(tickets, show, |tickets|);
    forall i | 0 <= i < |tickets| && tickets[i].show == show ensures tickets[i].position <= |all| {
      assert i in all && i !in Older(tickets, show, i);
      SubsetSize(Older(tickets, show, i), all);
    }
  }

  lemma JoinNumbers(
      tickets: seq<Ticket>, hot: seq<Records.ShowId>, user: Records.UserId, of: Records.ShowId, show: Records.ShowId)
    requires Numbered(tickets, show) && show in hot
    ensures Numbered(Join(tickets, hot, user, of), show)
  {
    var after := Join(tickets, hot, user, of);
    OlderAll(tickets, show);
    if |after| > |tickets| {
      assert after == tickets + [after[|tickets|]];
      OneMoreNumber(tickets, after[|tickets|], show);
    }
  }

  lemma OneMoreNumber(tickets: seq<Ticket>, t: Ticket, show: Records.ShowId)
    requires Numbered(tickets, show) && (t.show == show ==> t.position == |Older(tickets, show, |tickets|)| + 1)
    ensures Numbered(tickets + [t], show)
  {
    forall i: nat | i <= |tickets| ensures Older(tickets + [t], show, i) == Older(tickets, show, i) {
    }
  }

  lemma {:induction false} BatchesKeepNumbers(
      tickets: seq<Ticket>, hot: seq<Records.ShowId>, rate: nat, show: Records.ShowId)
    requires Numbered(tickets, show)
    ensures Numbered(AdmitBatches(tickets, hot, rate), show)
    decreases |hot|
  {
    if hot != [] {
      var one := Admit(tickets, Chosen(tickets, hot[0], rate));
      forall i: nat ensures Older(one, show, i) == Older(tickets, show, i) {
      }
      BatchesKeepNumbers(one, hot[1..], rate, show);
    }
  }

  /** A show that is hot from the start hands out the positions 1, 2, 3 and so on, in every run. */
  lemma {:induction false} PositionsAreConsecutive(
      hot: seq<Records.ShowId>, rate: nat, events: seq<QueueEvent>, show: Records.ShowId)
    requires show in hot
    ensures var q := RunQueue(Opened(hot), rate, events); show in q.hot && Numbered(q.tickets, show)
    decreases |events|
  {
    if events != [] {
      var shorter, last := events[..|events| - 1], events[|events| - 1];
      var before := RunQueue(Opened(hot), rate, shorter);
      PositionsAreConsecutive(hot, rate, shorter, show);
      match last
      case JoinEvent(user, of) => JoinNumbers(before.tickets, before.hot, user, of, show);
      case MarkHotEvent(_) =>
      case TickEvent => BatchesKeepNumbers(before.tickets, before.hot, rate, show);
    }
  }

  function AdmittedOf(tickets: seq<Ticket>, show: Records.ShowId): set<nat> {
    set i: nat | i < |tickets| && tickets[i].show == show && tickets[i].status == ADMITTED
  }

  function TicketsOf(tickets: seq<Ticket>, show: Records.ShowId): set<nat> {
    set i: nat | i < |tickets| && tickets[i].show == show
  }

  function AtMost(n: nat, limit: nat): nat {
    if n < limit then n else limit
  }

  lemma BatchAdmits(tickets: seq<Ticket>, of: Records.ShowId, rate: nat, show: Records.ShowId)
    ensures var after := Admit(tickets, Chosen(tickets, of, rate));
      if of == show then
        && |AdmittedOf(after, show)| == |AdmittedOf(tickets, show)| + AtMost(|Waiting(tickets, show)|, rate)
        && Waiting(after, show) <= Waiting(tickets, show)
      else AdmittedOf(after, show) == AdmittedOf(tickets, show) && Waiting(after, show) == Waiting(tickets, show)
  {
    var chosen := Chosen(tickets, of, rate);
    var after := Admit(tickets, chosen);
    ChosenIsBatch(tickets, of, rate);
    if of == show {
      assert AdmittedOf(after, show) == AdmittedOf(tickets, show) + chosen;
      assert AdmittedOf(tickets, show) !! chosen;
    } else {
      assert AdmittedOf(after, show) == AdmittedOf(tickets, show);
      assert Waiting(after, show) == Waiting(tickets, show);
    }
  }

  /** One tick admits exactly min(rate, number waiting) of a hot show and nobody of any other. */
  lemma {:induction false} TickAdmits(tickets: seq<Ticket>, hot: seq<Records.ShowId>, rate: nat, show: Records.ShowId)
    requires Distinct(hot)
    ensures |AdmittedOf(AdmitBatches(tickets, hot, rate), show)|
      == |AdmittedOf(tickets, show)| + if show in hot then AtMost(|Waiting(tickets, show)|, rate) else 0
    decreases |hot|
  {
    if hot != [] {
      BatchAdmits(tickets, hot[0], rate, show);
      FirstIsDistinct(hot);
      TickAdmits(Admit(tickets, Chosen(tickets, hot[0], rate)), hot[1..], rate, show);
    }
  }

  lemma FirstIsDistinct(hot: seq<Records.ShowId>)
    requires hot != [] && Distinct(hot)
    ensures Distinct(hot[1..]) && hot[0] !in hot[1..] && forall s :: s in hot <==> s == hot[0] || s in hot[1..]
  {
    assert hot == [hot[0]] + hot[1..];
  }

  lemma JoinAdmits(
      tickets: seq<Ticket>, hot: seq<Records.ShowId>, user: Records.UserId, of: Records.ShowId, show: Records.ShowId)
    requires InOrder(tickets, hot) && show in hot
    ensures AdmittedOf(Join(tickets, hot, user, of), show) == AdmittedOf(tickets, show)
  {
    JoiningAHotShowMeansWaiting(tickets, hot, user, of);
    var after := Join(tickets, hot, user, of);
    forall i ensures i in AdmittedOf(after, show) <==> i in AdmittedOf(tickets, show) {
      if 0 <= i < |tickets| {
        assert after[i] == after[..|tickets|][i] || after == tickets;
      }
    }
  }

  /** A show that is hot admits, over any run, at most `rate` tickets per tick, whoever joins and however often. */
  lemma {:induction false} AdmissionBound(q: Queue, rate: nat, events: seq<QueueEvent>, show: Records.ShowId)
    requires QueueOk(q) && show in q.hot
    ensures var after := RunQueue(q, rate, events);
      && QueueOk(after) && show in after.hot
      && |AdmittedOf(after.tickets, show)| <= |AdmittedOf(q.tickets, show)| + Quota(events, rate)
    decreases |events|
  {
    if events != [] {
      var shorter, last := events[..|events| - 1], events[|events| - 1];
      var before := RunQueue(q, rate, shorter);
      AdmissionBound(q, rate, shorter, show);
      NextKeepsOrder(before, rate, last);
      match last
      case JoinEvent(user, of) => JoinAdmits(before.tickets, before.hot, user, of, show);
      case MarkHotEvent(_) =>
      case TickEvent => TickAdmits(before.tickets, before.hot, rate, show);
    }
  }

  /** A show that is hot from the start has at most Ticks * rate tickets admitted; the others still wait. */
  lemma HotShowIsMetered(hot: seq<Records.ShowId>, rate: nat, events: seq<QueueEvent>, show: Records.ShowId)
    requires Distinct(hot) && show in hot
    ensures var tickets := RunQueue(Opened(hot), rate, events).tickets;
      && |AdmittedOf(tickets, show)| <= Ticks(events) * rate
      && |AdmittedOf(tickets, show)| + |Waiting(tickets, show)| == |TicketsOf(tickets, show)|
  {
    var tickets := RunQueue(Opened(hot), rate, events).tickets;
    AdmissionBound(Opened(hot), rate, events, show);
    QuotaIsTicksTimesRate(events, rate);
    assert AdmittedOf([], show) == {};
    assert TicketsOf(tickets, show) == AdmittedOf(tickets, show) + Waiting(tickets, show);
  }
}
