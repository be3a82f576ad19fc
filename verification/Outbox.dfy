/** outbox_worker: at-least-once delivery of the outbox, across crashes of the one worker. */
module Outbox {
  import opened Commons
  import opened Records

  const DRAIN_LIMIT: nat := 500

  /** `_channel_for`: the show whose channel carries the event, if its payload names one. */
  function ChannelFor(e: Event): Option<ShowId> {
    match e
    case BookingHeld(_, show) => Some(show)
    case BookingPaymentPending(_) => None
    case BookingExpired(_, show) => Some(show)
    case BookingCancelled(_, show) => Some(show)
    case BookingFailed(_, show) => Some(show)
    case BookingConfirmed(_, show) => Some(show)
    case PaymentRefunded(_, _) => None
    case WaitlistJoined(_, show, _) => Some(show)
    case WaitlistOffered(_, _, show, _) => Some(show)
  }

  /** A row; `at` is its `created_at`, the start of its transaction, which all rows of the transaction share. */
  datatype Row = Row(event: Event, at: Time)

  /** The rows in the order they were committed, the committed `published_at` marks, and what was sent, oldest first. */
  datatype World = World(log: seq<Row>, published: set<nat>, sent: seq<nat>, worker: Worker)

  /** The worker sleeps, or has read a batch and handled the first `next` rows of it. */
  datatype Worker = Idle | Draining(batch: seq<nat>, next: nat)

  /** A transaction commits its rows, or the worker takes one step. The batch of a Read is the database's choice. */
  datatype Action = Append(events: seq<Event>, at: Time) | Read(batch: seq<nat>) | Send | Commit | Crash

  function Unpublished(log: seq<Row>, published: set<nat>): set<nat> {
    set i: nat | i < |log| && i !in published
  }

  predicate HasChannel(log: seq<Row>, i: nat) {
    i < |log| && ChannelFor(log[i].event).Some?
  }

  /** What `WHERE published_at IS NULL ORDER BY created_at LIMIT 500` may return: rows with equal times come in
      any order, and the limit may cut anywhere among them. */
  predicate IsOldest(log: seq<Row>, published: set<nat>, batch: seq<nat>) {
    && Distinct(batch) && Elements(batch) <= Unpublished(log, published)
    && |batch| == (if |Unpublished(log, published)| < DRAIN_LIMIT then |Unpublished(log, published)| else DRAIN_LIMIT)
    && Sorted(log, batch) && NothingOlderLeft(log, published, batch)
  }

  predicate Sorted(log: seq<Row>, batch: seq<nat>) {
    && (forall k | 0 <= k < |batch| :: batch[k] < |log|)
    && forall k, l | 0 <= k < l < |batch| :: log[batch[k]].at <= log[batch[l]].at
  }

  predicate NothingOlderLeft(log: seq<Row>, published: set<nat>, batch: seq<nat>) {
    forall i, k | 0 <= i < |log| && i !in published && i !in batch && 0 <= k < |batch| && batch[k] < |log| ::
      log[batch[k]].at <= log[i].at
  }

  function RowsOf(events: seq<Event>, at: Time): (r: seq<Row>)
    ensures |r| == |events| && forall i | 0 <= i < |r| :: r[i] == Row(events[i], at)
  {
    seq(|events|, i requires 0 <= i < |events| => Row(events[i], at))
  }

  function Next(w: World, a: Action): World {
    match a
    case Append(events, at) => w.(log := w.log + RowsOf(events, at))
    case Read(batch) =>
      if w.worker.Idle? && IsOldest(w.log, w.published, batch) then w.(worker := Draining(batch, 0)) else w
    case Send =>
      if w.worker.Draining? && w.worker.next < |w.worker.batch| then
        var i := w.worker.batch[w.worker.next];
        w.(sent := if HasChannel(w.log, i) then w.sent + [i] else w.sent,
           worker := Draining(w.worker.batch, w.worker.next + 1))
      else w
    case Commit =>
      if w.worker.Draining? && w.worker.next == |w.worker.batch| then
        w.(published := w.published + Elements(w.worker.batch), worker := Idle)
      else w
    case Crash => w.(worker := Idle)
  }

  function RunFrom(w: World, actions: seq<Action>): World
    decreases |actions|
  {
    if actions == [] then w else Next(RunFrom(w, actions[..|actions| - 1]), actions[|actions| - 1])
  }

  function RunOutbox(actions: seq<Action>): World {
    RunFrom(World([], {}, [], Idle), actions)
  }

  /** The query always has an answer. */
  lemma SomeBatchExists(log: seq<Row>, published: set<nat>) returns (batch: seq<nat>)
    ensures IsOldest(log, published, batch)
  {
    batch := OldestOf(log, Unpublished(log, published), DRAIN_LIMIT);
  }

  lemma {:induction false} OldestOf(log: seq<Row>, rows: set<nat>, limit: nat) returns (batch: seq<nat>)
    requires forall i | i in rows :: i < |log|
    ensures Distinct(batch) && Elements(batch) <= rows && Sorted(log, batch)
    ensures |batch| == if |rows| < limit then |rows| else limit
    ensures forall i, k | i in rows && i !in batch && 0 <= k < |batch| :: log[batch[k]].at <= log[i].at
    decreases limit
  {
    batch := [];
    if limit > 0 && rows != {} {
      var first := OldestRow(log, rows);
      var rest := OldestOf(log, rows - {first}, limit - 1);
      batch := [first] + rest;
      assert forall k | 0 <= k < |rest| :: rest[k] in Elements(rest);
    }
  }

  lemma OldestRow(log: seq<Row>, rows: set<nat>) returns (first: nat)
    requires rows != {} && forall i | i in rows :: i < |log|
    ensures first in rows && forall i | i in rows :: log[first].at <= log[i].at
  {
    first :| first in rows;
    var todo := rows;
    while todo != {}
      invariant first in rows && todo <= rows
      invariant forall i | i in rows - todo :: log[first].at <= log[i].at
      decreases |todo|
    {
      var i :| i in todo;
      if log[i].at < log[first].at {
        first := i;
      }
      todo := todo - {i};
    }
  }

  /** What is marked was sent, and of the batch in hand what has been handled. */
  ghost predicate Delivered(w: World) {
    && (forall i | i in w.published :: i < |w.log| && (HasChannel(w.log, i) ==> i in w.sent))
    && (forall p | 0 <= p < |w.sent| :: HasChannel(w.log, w.sent[p]))
    && (w.worker.Draining? ==>
         && w.worker.next <= |w.worker.batch|
         && (forall k | 0 <= k < |w.worker.batch| :: w.worker.batch[k] < |w.log|)
         && (forall k | 0 <= k < w.worker.next :: HasChannel(w.log, w.worker.batch[k]) ==> w.worker.batch[k] in w.sent))
  }

  lemma NextDelivers(w: World, a: Action)
    requires Delivered(w)
    ensures Delivered(Next(w, a))
  {
    match a
    case Append(_, _) =>
    case Read(batch) =>
    case Send =>
    case Commit => if Next(w, a) != w { CommitDelivers(w); }
    case Crash =>
  }

  lemma CommitDelivers(w: World)
    requires Delivered(w) && w.worker.Draining? && w.worker.next == |w.worker.batch|
    ensures Delivered(Next(w, Commit))
  {
    forall i | i in Elements(w.worker.batch) ensures i < |w.log| && (HasChannel(w.log, i) ==> i in w.sent) {
      var k :| 0 <= k < |w.worker.batch| && w.worker.batch[k] == i;
    }
  }

  lemma {:induction false} AlwaysDelivered(actions: seq<Action>)
    ensures Delivered(RunOutbox(actions))
    decreases |actions|
  {
    if actions != [] {
      AlwaysDelivered(actions[..|actions| - 1]);
      NextDelivers(RunOutbox(actions[..|actions| - 1]), actions[|actions| - 1]);
    }
  }

  /** Whenever the worker crashes, and in whatever order commits become visible: every row marked published that has a
      channel was really sent. */
  lemma PublishedWasSent(actions: seq<Action>, i: nat)
    requires i in RunOutbox(actions).published
    ensures var w := RunOutbox(actions);
      i < |w.log| && (HasChannel(w.log, i) ==> i in w.sent)
  {
    AlwaysDelivered(actions);
  }

  /** Every channelled row older than a sent one was sent before it. */
  ghost predicate OlderFirst(log: seq<Row>, sent: seq<nat>) {
    forall p, r: nat | 0 <= p < |sent| && sent[p] < |log| && HasChannel(log, r) && log[r].at < log[sent[p]].at ::
      r in sent[..p]
  }

  lemma OlderFirstSends(log: seq<Row>, sent: seq<nat>, i: nat)
    requires OlderFirst(log, sent) && i < |log|
    requires forall r: nat | HasChannel(log, r) && log[r].at < log[i].at :: r in sent
    ensures OlderFirst(log, sent + [i])
  {
    var after := sent + [i];
    assert after[..|sent|] == sent;
    assert forall p | 0 <= p < |sent| :: after[..p] == sent[..p] && after[p] == sent[p];
  }

  /** A subscriber's view with repeats ignored: first occurrences only. */
  function FirstOccurrences(sent: seq<nat>): (r: seq<nat>)
    ensures forall i :: i in r <==> i in sent
    decreases |sent|
  {
    if sent == [] then [] else
      var before := FirstOccurrences(sent[..|sent| - 1]);
      var last := sent[|sent| - 1];
      assert sent == sent[..|sent| - 1] + [last];
      if last in before then before else before + [last]
  }

  /** A prefix of the channelled rows by time, with equal times in any order: no row twice, times never fall, and
      nothing older than a member is missing before it. */
  ghost predicate IsPrefixUpToTies(log: seq<Row>, f: seq<nat>) {
    && Distinct(f) && (forall k | 0 <= k < |f| :: HasChannel(log, f[k])) && Sorted(log, f)
    && forall k, r: nat | 0 <= k < |f| && HasChannel(log, r) && log[r].at < log[f[k]].at :: r in f[..k]
  }

  lemma {:induction false} FirstsUpToTies(log: seq<Row>, sent: seq<nat>)
    requires OlderFirst(log, sent) && forall p | 0 <= p < |sent| :: HasChannel(log, sent[p])
    ensures IsPrefixUpToTies(log, FirstOccurrences(sent))
    decreases |sent|
  {
    if sent != [] {
      var shorter, last := sent[..|sent| - 1], sent[|sent| - 1];
      assert forall p | 0 <= p < |shorter| :: shorter[..p] == sent[..p];
      FirstsUpToTies(log, shorter);
      if last !in FirstOccurrences(shorter) {
        OneMoreFirst(log, FirstOccurrences(shorter), last);
      }
    }
  }

  lemma OneMoreFirst(log: seq<Row>, f: seq<nat>, last: nat)
    requires IsPrefixUpToTies(log, f) && HasChannel(log, last) && last !in f
    requires forall r: nat | HasChannel(log, r) && log[r].at < log[last].at :: r in f
    ensures IsPrefixUpToTies(log, f + [last])
  {
    var g := f + [last];
    assert g[..|f|] == f;
    assert forall k | 0 <= k < |f| :: g[..k] == f[..k];
    forall k | 0 <= k < |f| ensures log[f[k]].at <= log[last].at {
      assert last !in f[..k];
    }
  }

  /** The two ways to say it: row by row in all that was sent, and on the first occurrences. */
  lemma OlderFirstIff(log: seq<Row>, sent: seq<nat>)
    requires forall p | 0 <= p < |sent| :: HasChannel(log, sent[p])
    ensures OlderFirst(log, sent) <==> IsPrefixUpToTies(log, FirstOccurrences(sent))
  {
    if OlderFirst(log, sent) {
      FirstsUpToTies(log, sent);
    }
    if IsPrefixUpToTies(log, FirstOccurrences(sent)) {
      UpToTiesFirst(log, sent);
    }
  }

  lemma {:induction false} UpToTiesFirst(log: seq<Row>, sent: seq<nat>)
    requires forall p | 0 <= p < |sent| :: HasChannel(log, sent[p])
    requires IsPrefixUpToTies(log, FirstOccurrences(sent))
    ensures OlderFirst(log, sent)
    decreases |sent|
  {
    if sent != [] {
      var shorter, last := sent[..|sent| - 1], sent[|sent| - 1];
      var f, g := FirstOccurrences(shorter), FirstOccurrences(sent);
      assert forall p | 0 <= p < |shorter| :: shorter[p] == sent[p];
      if last in f {
        var k :| 0 <= k < |g| && g[k] == last;
        LastOlderSent(log, g, k, shorter);
      } else {
        FrontUpToTies(log, f, last);
        LastOlderSent(log, g, |f|, shorter);
      }
      UpToTiesFirst(log, shorter);
      OlderFirstSends(log, shorter, last);
      assert shorter + [last] == sent;
    }
  }

  lemma FrontUpToTies(log: seq<Row>, f: seq<nat>, last: nat)
    requires IsPrefixUpToTies(log, f + [last])
    ensures IsPrefixUpToTies(log, f)
  {
    var g := f + [last];
    assert forall k | 0 <= k < |f| :: g[k] == f[k] && g[..k] == f[..k];
  }

  /** What is older than member `k` is among the rows sent before it. */
  lemma LastOlderSent(log: seq<Row>, g: seq<nat>, k: nat, shorter: seq<nat>)
    requires IsPrefixUpToTies(log, g) && k < |g|
    requires forall i | i in g[..k] :: i in shorter
    ensures forall r: nat | HasChannel(log, r) && log[r].at < log[g[k]].at :: r in shorter
  {
  }

  /** The rows of the batch that the worker has yet to handle. */
  function InHand(w: World): (r: seq<nat>)
    ensures forall i | i in r :: w.worker.Draining? && i in w.worker.batch
  {
    if w.worker.Draining? && w.worker.next <= |w.worker.batch| then w.worker.batch[w.worker.next..] else []
  }

  /** Everything channelled and older than a channelled row in hand has been sent or comes before it in hand. */
  ghost predicate OlderInHandFirst(log: seq<Row>, sent: seq<nat>, hand: seq<nat>) {
    forall k, r: nat | 0 <= k < |hand| && HasChannel(log, hand[k]) && HasChannel(log, r) &&
      log[r].at < log[hand[k]].at ::
      r in sent || r in hand[..k]
  }

  /** The order is right so far, and the worker cannot break it by itself. */
  ghost predicate Sound(w: World) {
    Delivered(w) && OlderFirst(w.log, w.sent) && OlderInHandFirst(w.log, w.sent, InHand(w))
  }

  /** What can be looked up when a transaction commits: if it has a row with a channel, then no row that was sent, and
      no channelled row that the worker has in hand, is newer than its start. */
  predicate CommitFits(w: World, events: seq<Event>, at: Time) {
    (exists e :: e in events && ChannelFor(e).Some?) ==>
      && (forall i | i in w.sent && i < |w.log| :: w.log[i].at <= at)
      && (forall i | i in InHand(w) && HasChannel(w.log, i) :: w.log[i].at <= at)
  }

  lemma FittingCommitIsSound(w: World, events: seq<Event>, at: Time)
    requires Sound(w) && CommitFits(w, events, at)
    ensures Sound(Next(w, Append(events, at)))
  {
    NextDelivers(w, Append(events, at));
    NewRowsFit(w, events, at);
  }

  lemma NewRowsFit(w: World, events: seq<Event>, at: Time)
    requires Sound(w) && CommitFits(w, events, at)
    ensures var log := Next(w, Append(events, at)).log;
      OlderFirst(log, w.sent) && OlderInHandFirst(log, w.sent, InHand(w))
  {
    var log := w.log + RowsOf(events, at);
    forall r: nat | HasChannel(log, r) && |w.log| <= r
      ensures log[r].at == at && exists e :: e in events && ChannelFor(e).Some?
    {
      assert events[r - |w.log|] in events;
    }
    forall p, r: nat | 0 <= p < |w.sent| && w.sent[p] < |log| && HasChannel(log, r) && log[r].at < log[w.sent[p]].at
      ensures r in w.sent[..p]
    {
      assert HasChannel(w.log, w.sent[p]);
      assert w.sent[p] in w.sent;
    }
    var hand := InHand(w);
    forall k, r: nat | 0 <= k < |hand| && HasChannel(log, hand[k]) && HasChannel(log, r) && log[r].at < log[hand[k]].at
      ensures r in w.sent || r in hand[..k]
    {
      assert hand[k] in hand && hand[k] < |w.log|;
      assert HasChannel(w.log, hand[k]);
    }
  }

  lemma SendIsSound(w: World)
    requires Sound(w) && w.worker.Draining? && w.worker.next < |w.worker.batch|
    ensures Sound(Next(w, Send))
  {
    NextDelivers(w, Send);
    var hand, i := InHand(w), w.worker.batch[w.worker.next];
    var after := Next(w, Send);
    assert hand == [i] + InHand(after) && hand[0] == i && hand[..0] == [];
    if HasChannel(w.log, i) {
      OlderFirstSends(w.log, w.sent, i);
    }
    HandMovesOn(w.log, w.sent, after.sent, i, InHand(after));
  }

  lemma HandMovesOn(log: seq<Row>, sent: seq<nat>, sent': seq<nat>, i: nat, rest: seq<nat>)
    requires OlderInHandFirst(log, sent, [i] + rest)
    requires sent' == if HasChannel(log, i) then sent + [i] else sent
    ensures OlderInHandFirst(log, sent', rest)
  {
    var hand := [i] + rest;
    forall k, r: nat | 0 <= k < |rest| && HasChannel(log, rest[k]) && HasChannel(log, r) && log[r].at < log[rest[k]].at
      ensures r in sent' || r in rest[..k]
    {
      assert hand[k + 1] == rest[k] && hand[..k + 1] == [i] + rest[..k];
    }
  }

  /** Whatever batch the query returns, its older rows come first. */
  lemma ReadIsSound(w: World, batch: seq<nat>)
    requires Delivered(w) && IsOldest(w.log, w.published, batch)
    ensures OlderInHandFirst(w.log, w.sent, batch)
  {
    forall k, r: nat | 0 <= k < |batch| && HasChannel(w.log, batch[k]) && HasChannel(w.log, r) &&
      w.log[r].at < w.log[batch[k]].at
      ensures r in w.sent || r in batch[..k]
    {
      if r !in w.published {
        assert r in batch;
        var l :| 0 <= l < |batch| && batch[l] == r;
        assert l < k && batch[..k][l] == r;
      }
    }
  }

  lemma WorkIsSound(w: World, a: Action)
    requires Sound(w) && !a.Append?
    ensures Sound(Next(w, a))
  {
    var after := Next(w, a);
    if after != w {
      NextDelivers(w, a);
      match a
      case Read(batch) =>
        ReadIsSound(w, batch);
        assert InHand(after) == batch;
      case Send => SendIsSound(w);
      case Commit => assert InHand(after) == [];
      case Crash => assert InHand(after) == [];
    }
  }

  /** The worker's steps only: reads with any result the query may give, sends, commits and crashes. */
  predicate IsWork(work: seq<Action>) {
    forall k | 0 <= k < |work| :: !work[k].Append?
  }

  lemma {:induction false} AllWorkIsSound(w: World, work: seq<Action>)
    requires Sound(w) && IsWork(work)
    ensures Sound(RunFrom(w, work))
    decreases |work|
  {
    if work != [] {
      AllWorkIsSound(w, work[..|work| - 1]);
      WorkIsSound(RunFrom(w, work[..|work| - 1]), work[|work| - 1]);
    }
  }

  /** With repeats ignored, what was sent is a prefix of the channelled rows by time. */
  ghost predicate InOrderNow(w: World) {
    IsPrefixUpToTies(w.log, FirstOccurrences(w.sent))
  }

  /** ... and stays so whatever the worker does before the next commit. */
  ghost predicate InOrderWhateverWork(w: World) {
    forall work | IsWork(work) :: InOrderNow(RunFrom(w, work))
  }

  lemma SoundIsInOrder(w: World)
    requires Sound(w)
    ensures InOrderWhateverWork(w)
  {
    forall work | IsWork(work) ensures InOrderNow(RunFrom(w, work)) {
      AllWorkIsSound(w, work);
      FirstsUpToTies(RunFrom(w, work).log, RunFrom(w, work).sent);
    }
  }

  function Sends(n: nat): (r: seq<Action>)
    ensures |r| == n && IsWork(r)
  {
    seq(n, _ => Send)
  }

  /** The worker sends on: after `n` more steps the first `n` rows in hand have been handled, and no row outside the
      batch has been sent. */
  lemma {:induction false} SendingOn(w: World, n: nat)
    requires Delivered(w) && n <= |InHand(w)|
    ensures var after := RunFrom(w, Sends(n));
      && Delivered(after) && after.log == w.log
      && InHand(after) == InHand(w)[n..]
      && (forall k | 0 <= k < n && HasChannel(w.log, InHand(w)[k]) :: InHand(w)[k] in after.sent)
      && (forall i | i in after.sent :: i in w.sent || i in InHand(w))
    decreases n
  {
    if n == 0 {
      assert Sends(0) == [];
    } else {
      assert Sends(n)[..n - 1] == Sends(n - 1);
      SendingOn(w, n - 1);
      var before := RunFrom(w, Sends(n - 1));
      NextDelivers(before, Send);
      SendsNext(before, InHand(w)[n - 1]);
    }
  }

  lemma SendsNext(w: World, i: nat)
    requires InHand(w) != [] && InHand(w)[0] == i
    ensures var after := Next(w, Send);
      && after.log == w.log && InHand(after) == InHand(w)[1..]
      && after.sent == if HasChannel(w.log, i) then w.sent + [i] else w.sent
  {
  }

  /** A row that is sent while an older one is not. */
  lemma OlderMissing(w: World, i: nat, r: nat)
    requires Delivered(w) && i in w.sent && r !in w.sent
    requires i < |w.log| && HasChannel(w.log, r) && w.log[r].at < w.log[i].at
    ensures !InOrderNow(w)
  {
    var p :| 0 <= p < |w.sent| && w.sent[p] == i;
    assert r !in w.sent[..p];
    OlderFirstIff(w.log, w.sent);
  }

  /** After a commit that does not fit, the worker need only send what it has in hand. */
  lemma UnfitCommitBreaks(w: World, events: seq<Event>, at: Time)
    requires Sound(w) && !CommitFits(w, events, at)
    ensures !InOrderWhateverWork(Next(w, Append(events, at)))
  {
    var after := Next(w, Append(events, at));
    NextDelivers(w, Append(events, at));
    var e :| e in events && ChannelFor(e).Some?;
    var j :| 0 <= j < |events| && events[j] == e;
    var r := |w.log| + j;
    assert after.log[r] == Row(e, at) && HasChannel(after.log, r);
    assert r !in w.sent by {
      assert forall p | 0 <= p < |w.sent| :: HasChannel(w.log, w.sent[p]);
    }
    if i :| i in w.sent && i < |w.log| && at < w.log[i].at {
      OlderMissing(after, i, r);
      assert RunFrom(after, []) == after && IsWork([]);
    } else {
      var i :| i in InHand(w) && HasChannel(w.log, i) && at < w.log[i].at;
      HandBreaks(w, after, i, r);
    }
  }

  lemma HandBreaks(w: World, after: World, i: nat, r: nat)
    requires Delivered(after) && after == w.(log := after.log) && i in InHand(w)
    requires HasChannel(after.log, i) && HasChannel(after.log, r) && after.log[r].at < after.log[i].at
    requires r !in w.sent && r !in InHand(w)
    ensures !InOrderWhateverWork(after)
  {
    var hand := InHand(after);
    assert hand == InHand(w);
    SendingOn(after, |hand|);
    var k :| 0 <= k < |hand| && hand[k] == i;
    OlderMissing(RunFrom(after, Sends(|hand|)), i, r);
  }

  /** One commit, in a state where the order is right and the worker alone cannot break it: that stays so exactly when
      the commit fits. */
  lemma CommitKeepsOrderIff(w: World, events: seq<Event>, at: Time)
    requires Sound(w)
    ensures InOrderWhateverWork(Next(w, Append(events, at))) <==> CommitFits(w, events, at)
  {
    if CommitFits(w, events, at) {
      FittingCommitIsSound(w, events, at);
      SoundIsInOrder(Next(w, Append(events, at)));
    } else {
      UnfitCommitBreaks(w, events, at);
    }
  }

  /** Every commit of the run fits when it is made. */
  predicate CommitsFit(actions: seq<Action>)
    decreases |actions|
  {
    actions == [] ||
    var shorter, last := actions[..|actions| - 1], actions[|actions| - 1];
    CommitsFit(shorter) && (last.Append? ==> CommitFits(RunOutbox(shorter), last.events, last.at))
  }

  /** After the run and after each part of it from the start, the order is right whatever the worker does next. */
  ghost predicate AlwaysInOrder(actions: seq<Action>)
    decreases |actions|
  {
    InOrderWhateverWork(RunOutbox(actions)) && (actions == [] || AlwaysInOrder(actions[..|actions| - 1]))
  }

  lemma {:induction false} SoundWhileCommitsFit(actions: seq<Action>)
    requires CommitsFit(actions)
    ensures Sound(RunOutbox(actions))
    decreases |actions|
  {
    if actions != [] {
      var before, last := RunOutbox(actions[..|actions| - 1]), actions[|actions| - 1];
      SoundWhileCommitsFit(actions[..|actions| - 1]);
      if last.Append? {
        FittingCommitIsSound(before, last.events, last.at);
      } else {
        WorkIsSound(before, last);
      }
    }
  }

  /** Over every run: the sends keep the order of `created_at`, ties aside, in every state and whatever the worker does
      next, exactly when each commit fits. */
  lemma {:induction false} OrderKeptIff(actions: seq<Action>)
    ensures AlwaysInOrder(actions) <==> CommitsFit(actions)
    decreases |actions|
  {
    if actions == [] {
      SoundWhileCommitsFit(actions);
      SoundIsInOrder(RunOutbox(actions));
    } else {
      var shorter, last := actions[..|actions| - 1], actions[|actions| - 1];
      OrderKeptIff(shorter);
      if CommitsFit(shorter) {
        SoundWhileCommitsFit(shorter);
        LastKeepsIff(RunOutbox(shorter), last);
      }
    }
  }

  lemma LastKeepsIff(w: World, last: Action)
    requires Sound(w)
    ensures InOrderWhateverWork(Next(w, last)) <==> (last.Append? ==> CommitFits(w, last.events, last.at))
  {
    if last.Append? {
      CommitKeepsOrderIff(w, last.events, last.at);
    } else {
      WorkIsSound(w, last);
      SoundIsInOrder(Next(w, last));
    }
  }

  /** Channelled rows become visible in the order in which their transactions started. */
  predicate InOrderOfStart(log: seq<Row>) {
    forall i: nat, j: nat | i < j < |log| && HasChannel(log, i) && HasChannel(log, j) :: log[i].at <= log[j].at
  }

  lemma LogGrows(w: World, a: Action)
    ensures w.log <= Next(w, a).log
  {
  }

  lemma LaterCommitFits(w: World, events: seq<Event>, at: Time)
    requires Delivered(w) && InOrderOfStart(Next(w, Append(events, at)).log)
    ensures CommitFits(w, events, at)
  {
    if e :| e in events && ChannelFor(e).Some? {
      var log := Next(w, Append(events, at)).log;
      var j :| 0 <= j < |events| && events[j] == e;
      assert log[|w.log| + j] == Row(e, at) && HasChannel(log, |w.log| + j);
      forall i: nat | i < |w.log| && HasChannel(w.log, i) ensures w.log[i].at <= at {
        assert log[i] == w.log[i] && HasChannel(log, i);
      }
      assert forall p | 0 <= p < |w.sent| :: HasChannel(w.log, w.sent[p]);
    }
  }

  /** Commits in order of start all fit. */
  lemma {:induction false} InOrderCommitsFit(actions: seq<Action>)
    requires InOrderOfStart(RunOutbox(actions).log)
    ensures CommitsFit(actions)
    decreases |actions|
  {
    if actions != [] {
      var before, last := RunOutbox(actions[..|actions| - 1]), actions[|actions| - 1];
      LogGrows(before, last);
      assert forall i: nat | i < |before.log| ::
        && before.log[i] == RunOutbox(actions).log[i]
        && HasChannel(before.log, i) == HasChannel(RunOutbox(actions).log, i);
      InOrderCommitsFit(actions[..|actions| - 1]);
      if last.Append? {
        AlwaysDelivered(actions[..|actions| - 1]);
        LaterCommitFits(before, last.events, last.at);
      }
    }
  }

  /** When commits become visible in order of start: across crashes and whatever order the database gives to rows with
      equal times, a subscriber that ignores repeats sees a prefix of the channelled rows by time, none skipped. */
  lemma SentInOrder(actions: seq<Action>)
    requires InOrderOfStart(RunOutbox(actions).log)
    ensures IsPrefixUpToTies(RunOutbox(actions).log, FirstOccurrences(RunOutbox(actions).sent))
  {
    InOrderCommitsFit(actions);
    SoundWhileCommitsFit(actions);
    FirstsUpToTies(RunOutbox(actions).log, RunOutbox(actions).sent);
  }

  /** The rows below `n` that have a channel, in order. */
  function Channelled(log: seq<Row>, n: nat): seq<nat>
    requires n <= |log|
    decreases n
  {
    if n == 0 then [] else Channelled(log, n - 1) + if HasChannel(log, n - 1) then [n - 1] else []
  }

  lemma {:induction false} ChannelledRows(log: seq<Row>, n: nat)
    requires n <= |log|
    ensures IsAscending(Channelled(log, n)) && forall i: nat :: i in Channelled(log, n) <==> i < n && HasChannel(log, i)
    decreases n
  {
    if n > 0 {
      ChannelledRows(log, n - 1);
      var front := Channelled(log, n - 1);
      forall k | 0 <= k < |front| ensures front[k] < n - 1 {
        assert front[k] in front;
      }
    }
  }

  lemma {:induction false} ChannelledPrefix(log: seq<Row>, h: nat, n: nat)
    requires h <= n <= |log|
    ensures Channelled(log, h) <= Channelled(log, n)
    decreases n
  {
    if h < n {
      ChannelledPrefix(log, h, n - 1);
    }
  }

  predicate NoTies(log: seq<Row>) {
    forall i: nat, j: nat | i < j < |log| && HasChannel(log, i) && HasChannel(log, j) :: log[i].at < log[j].at
  }

  lemma UntiedAscends(log: seq<Row>, f: seq<nat>)
    requires NoTies(log) && Distinct(f) && Sorted(log, f) && forall k | 0 <= k < |f| :: HasChannel(log, f[k])
    ensures IsAscending(f)
  {
    forall k, l | 0 <= k < l < |f| ensures f[k] < f[l] {
      assert log[f[k]].at <= log[f[l]].at;
    }
  }

  lemma UntiedHasAll(log: seq<Row>, f: seq<nat>, i: nat)
    requires NoTies(log) && IsPrefixUpToTies(log, f) && IsAscending(f) && f != []
    ensures i in f <==> i <= f[|f| - 1] && HasChannel(log, i)
  {
    var last := f[|f| - 1];
    assert last in f && HasChannel(log, last);
    assert i < last && HasChannel(log, i) ==> i in f[..|f| - 1];
    if i in f {
      var k :| 0 <= k < |f| && f[k] == i;
    }
  }

  lemma UntiedIsPrefix(log: seq<Row>, f: seq<nat>)
    requires IsPrefixUpToTies(log, f) && NoTies(log)
    ensures f <= Channelled(log, |log|)
  {
    if f != [] {
      UntiedAscends(log, f);
      var h := f[|f| - 1] + 1;
      ChannelledRows(log, h);
      forall i: nat ensures i in f <==> i in Channelled(log, h) {
        UntiedHasAll(log, f, i);
      }
      AscendingUnique(f, Channelled(log, h));
      ChannelledPrefix(log, h, |log|);
    }
  }

  /** Without ties it is exactly a prefix of the channelled rows in the order of the log. */
  lemma SentIsPrefix(actions: seq<Action>)
    requires NoTies(RunOutbox(actions).log)
    ensures var w := RunOutbox(actions); FirstOccurrences(w.sent) <= Channelled(w.log, |w.log|)
  {
    SentInOrder(actions);
    UntiedIsPrefix(RunOutbox(actions).log, FirstOccurrences(RunOutbox(actions).sent));
  }

  /** What happens to row `i` when it is the only one unpublished: read, sent, marked. */
  lemma DrainOne(w: World, i: nat)
    requires w.worker.Idle? && Unpublished(w.log, w.published) == {i} && HasChannel(w.log, i)
    ensures Next(Next(Next(w, Read([i])), Send), Commit) == World(w.log, w.published + {i}, w.sent + [i], Idle)
  {
    assert Elements([i]) == {i};
  }

  lemma {:induction false} RunAppend(w: World, front: seq<Action>, back: seq<Action>)
    ensures RunFrom(w, front + back) == RunFrom(RunFrom(w, front), back)
    decreases |back|
  {
    if back == [] {
      assert front + back == front;
    } else {
      RunAppend(w, front, back[..|back| - 1]);
      assert (front + back)[..|front + back| - 1] == front + back[..|back| - 1];
    }
  }

  /** A transaction commits one row as number `n`, and the worker delivers it. */
  function Deliver(e: Event, at: Time, n: nat): seq<Action> {
    [Append([e], at), Read([n]), Send, Commit]
  }

  lemma DeliverOne(w: World, e: Event, at: Time)
    requires w.worker.Idle? && Unpublished(w.log, w.published) == {} && |w.log| !in w.published && ChannelFor(e).Some?
    ensures var n := |w.log|;
      RunFrom(w, Deliver(e, at, n)) == World(w.log + [Row(e, at)], w.published + {n}, w.sent + [n], Idle)
  {
    var n := |w.log|;
    var a := Deliver(e, at, n);
    RunFour(w, a);
    var one := Next(w, a[0]);
    assert one.log == w.log + [Row(e, at)];
    assert Unpublished(one.log, one.published) == {n};
    DrainOne(one, n);
  }

  lemma RunFour(w: World, a: seq<Action>)
    requires |a| == 4
    ensures RunFrom(w, a) == Next(Next(Next(Next(w, a[0]), a[1]), a[2]), a[3])
  {
    assert a[..3][..2] == a[..2] && a[..2][..1] == a[..1] && a[..1][..0] == [];
    assert RunFrom(w, a[..1]) == Next(w, a[0]);
    assert RunFrom(w, a[..2]) == Next(RunFrom(w, a[..1]), a[1]);
    assert RunFrom(w, a[..3]) == Next(RunFrom(w, a[..2]), a[2]);
  }

  /** A transaction that started first and committed last is overtaken: its row is sent after a newer one. */
  lemma LateCommitIsOvertaken(first: Event, second: Event, early: Time, late: Time)
    requires ChannelFor(first).Some? && ChannelFor(second).Some? && early < late
    ensures var w := RunOutbox(Deliver(second, late, 0) + Deliver(first, early, 1));
      && w.log == [Row(second, late), Row(first, early)] && w.sent == [0, 1]
      && !IsPrefixUpToTies(w.log, FirstOccurrences(w.sent))
  {
    var start := World([], {}, [], Idle);
    RunAppend(start, Deliver(second, late, 0), Deliver(first, early, 1));
    DeliverOne(start, second, late);
    var one := World([Row(second, late)], {0}, [0], Idle);
    assert start.log + [Row(second, late)] == one.log && start.published + {0} == one.published &&
      start.sent + [0] == one.sent;
    assert Unpublished(one.log, one.published) == {};
    DeliverOne(one, first, early);
    TwoSent(one.log + [Row(first, early)]);
  }

  lemma TwoSent(log: seq<Row>)
    requires |log| == 2 && log[1].at < log[0].at
    ensures !IsPrefixUpToTies(log, FirstOccurrences([0, 1]))
  {
    assert [0, 1][..1] == [0] && [0][..0] == [];
    assert FirstOccurrences([0]) == [0];
    assert FirstOccurrences([0, 1]) == [0, 1];
  }

  /** The channelled rows of a batch, in its order. */
  function WithChannel(log: seq<Row>, batch: seq<nat>): seq<nat>
    decreases |batch|
  {
    if batch == [] then [] else
      var i := batch[|batch| - 1];
      WithChannel(log, batch[..|batch| - 1]) + if HasChannel(log, i) then [i] else []
  }

  /** The outbox table and its one worker. */
  class OutboxWorker {
    var log: seq<Row>
    var published: set<nat>
    var sent: seq<nat>

    constructor ()
      ensures log == [] && published == {} && sent == []
    {
      log, published, sent := [], {}, [];
    }

    /** `drain_once` without a crash, on the rows its query returned: send the batch, then mark it in one commit. */
    method DrainOnce(batch: seq<nat>) returns (count: nat)
      requires IsOldest(log, published, batch)
      modifies this`published, this`sent
      ensures count == |batch|
      ensures published == old(published) + Elements(batch)
      ensures sent == old(sent) + WithChannel(log, batch)
    {
      count := 0;
      while count < |batch|
        invariant count <= |batch|
        invariant sent == old(sent) + WithChannel(log, batch[..count])
        invariant published == old(published)
      {
        var i := batch[count];
        assert batch[..count + 1][..count] == batch[..count];
        if ChannelFor(log[i].event).Some? {
          sent := sent + [i];
        }
        count := count + 1;
      }
      assert batch[..count] == batch;
      published := published + Elements(batch);
    }
  }

  /** An uninterrupted drain of the protocol: read, send everything, commit. */
  lemma DrainIsReadSendCommit(w: World, batch: seq<nat>)
    requires w.worker.Idle? && IsOldest(w.log, w.published, batch)
    ensures Next(RunFrom(Next(w, Read(batch)), Sends(|batch|)), Commit)
      == World(w.log, w.published + Elements(batch), w.sent + WithChannel(w.log, batch), Idle)
  {
    assert Next(w, Read(batch)) == w.(worker := Draining(batch, 0));
    SendsCover(w, batch, |batch|);
    assert batch[..|batch|] == batch;
    CommitMarks(World(w.log, w.published, w.sent + WithChannel(w.log, batch), Draining(batch, |batch|)), batch);
  }

  /** A drain: the query, the sends and the commit, with nothing in between. */
  ghost predicate IsDrain(before: World, after: World) {
    exists batch: seq<nat> :: IsOldest(before.log, before.published, batch) && after == DrainOf(before, batch)
  }

  function DrainOf(w: World, batch: seq<nat>): World {
    Next(RunFrom(Next(w, Read(batch)), Sends(|batch|)), Commit)
  }

  /** A drain takes min(500, n) of the n rows that are not marked; it marks and sends them and no other. */
  lemma DrainShrinks(before: World, after: World)
    requires before.worker.Idle? && IsDrain(before, after)
    ensures var was, left := Unpublished(before.log, before.published), Unpublished(after.log, after.published);
      && after.log == before.log && after.worker.Idle? && left <= was
      && |left| == (if |was| < DRAIN_LIMIT then 0 else |was| - DRAIN_LIMIT)
      && (forall i | i in was - left && HasChannel(before.log, i) :: i in after.sent)
      && before.sent <= after.sent
      && (forall k | |before.sent| <= k < |after.sent| :: after.sent[k] in was - left)
  {
    var batch: seq<nat> :| IsOldest(before.log, before.published, batch) && after == DrainOf(before, batch);
    DrainIsReadSendCommit(before, batch);
    MarkedAndSent(before, batch, before.sent + WithChannel(before.log, batch));
  }

  lemma MarkedAndSent(w: World, batch: seq<nat>, sent: seq<nat>)
    requires IsOldest(w.log, w.published, batch) && sent == w.sent + WithChannel(w.log, batch)
    ensures var was, left := Unpublished(w.log, w.published), Unpublished(w.log, w.published + Elements(batch));
      && left <= was && |left| == (if |was| < DRAIN_LIMIT then 0 else |was| - DRAIN_LIMIT)
      && (forall i | i in was - left && HasChannel(w.log, i) :: i in sent)
      && w.sent <= sent && (forall k | |w.sent| <= k < |sent| :: sent[k] in was - left)
  {
    var was, left := Unpublished(w.log, w.published), Unpublished(w.log, w.published + Elements(batch));
    MarkedShrinks(w.log, w.published, batch);
    WithChannelIs(w.log, batch);
    forall i | i in was - left && HasChannel(w.log, i) ensures i in sent {
      var k :| 0 <= k < |WithChannel(w.log, batch)| && WithChannel(w.log, batch)[k] == i;
      assert sent[|w.sent| + k] == i;
    }
    forall k | |w.sent| <= k < |sent| ensures sent[k] in was - left {
      assert sent[k] == WithChannel(w.log, batch)[k - |w.sent|];
    }
  }

  lemma MarkedShrinks(log: seq<Row>, published: set<nat>, batch: seq<nat>)
    requires IsOldest(log, published, batch)
    ensures var was, left := Unpublished(log, published), Unpublished(log, published + Elements(batch));
      && left <= was && was - left == Elements(batch)
      && |left| == (if |was| < DRAIN_LIMIT then 0 else |was| - DRAIN_LIMIT)
  {
    var was, left := Unpublished(log, published), Unpublished(log, published + Elements(batch));
    assert left == was - Elements(batch);
    DistinctCardinality(batch);
  }

  lemma {:induction false} WithChannelIs(log: seq<Row>, batch: seq<nat>)
    ensures forall i :: i in WithChannel(log, batch) <==> i in batch && HasChannel(log, i)
    decreases |batch|
  {
    if batch != [] {
      WithChannelIs(log, batch[..|batch| - 1]);
      assert batch == batch[..|batch| - 1] + [batch[|batch| - 1]];
    }
  }

  ghost predicate IsDrains(ws: seq<World>) {
    ws != [] && forall k | 0 <= k < |ws| - 1 :: IsDrain(ws[k], ws[k + 1])
  }

  ghost predicate IsDrainRun(ws: seq<World>) {
    IsDrains(ws) && ws[0].worker.Idle?
  }

  /** k drains of 500 leave nothing of a backlog of at most 500 k rows: every row is marked, and every channelled row of
      the backlog has been sent. */
  lemma {:induction false} DrainsConverge(ws: seq<World>, k: nat)
    requires IsDrainRun(ws) && k < |ws|
    ensures var was, left := Unpublished(ws[0].log, ws[0].published), Unpublished(ws[k].log, ws[k].published);
      && ws[k].worker.Idle? && ws[k].log == ws[0].log && left <= was
      && |left| == (if |was| < DRAIN_LIMIT * k then 0 else |was| - DRAIN_LIMIT * k)
      && (forall i | i in was - left && HasChannel(ws[0].log, i) :: i in ws[k].sent)
    decreases k
  {
    if k > 0 {
      DrainsConverge(ws, k - 1);
      assert IsDrain(ws[k - 1], ws[k - 1 + 1]);
      DrainShrinks(ws[k - 1], ws[k]);
      forall i | i in ws[k - 1].sent ensures i in ws[k].sent {
        var p :| 0 <= p < |ws[k - 1].sent| && ws[k - 1].sent[p] == i;
        assert ws[k].sent[p] == i;
      }
    }
  }

  /** At least once: whatever has happened before, after a crash of the worker k undisturbed drains deliver a backlog of
      at most 500 k rows; then every row with a channel that was ever committed has been sent. */
  lemma EverythingIsDelivered(actions: seq<Action>, ws: seq<World>, k: nat)
    requires IsDrains(ws) && ws[0] == RunOutbox(actions + [Crash]) && k < |ws|
    requires |Unpublished(ws[0].log, ws[0].published)| <= DRAIN_LIMIT * k
    ensures ws[k].log == RunOutbox(actions).log
    ensures forall i: nat | HasChannel(ws[k].log, i) :: i in ws[k].sent
  {
    assert (actions + [Crash])[..|actions|] == actions;
    CrashedWorkerIsIdle(actions);
    AlwaysDelivered(actions + [Crash]);
    DrainsConverge(ws, k);
    SentStays(ws, k);
    forall i: nat | HasChannel(ws[k].log, i) ensures i in ws[k].sent {
      if i in ws[0].published {
        assert i in ws[0].sent;
      } else {
        assert i in Unpublished(ws[0].log, ws[0].published);
      }
    }
  }

  lemma {:induction false} SentStays(ws: seq<World>, k: nat)
    requires IsDrainRun(ws) && k < |ws|
    ensures forall i | i in ws[0].sent :: i in ws[k].sent
    decreases k
  {
    if k > 0 {
      SentStays(ws, k - 1);
      DrainsConverge(ws, k - 1);
      assert IsDrain(ws[k - 1], ws[k - 1 + 1]);
      DrainShrinks(ws[k - 1], ws[k]);
      forall i | i in ws[k - 1].sent ensures i in ws[k].sent {
        var p :| 0 <= p < |ws[k - 1].sent| && ws[k - 1].sent[p] == i;
        assert ws[k].sent[p] == i;
      }
    }
  }

  /** After a crash the worker can read again. */
  lemma CrashedWorkerIsIdle(actions: seq<Action>)
    ensures RunOutbox(actions + [Crash]).worker.Idle?
  {
    assert (actions + [Crash])[..|actions|] == actions;
  }

  lemma CommitMarks(w: World, batch: seq<nat>)
    requires w.worker == Draining(batch, |batch|)
    ensures Next(w, Commit) == w.(published := w.published + Elements(batch), worker := Idle)
  {
  }

  lemma {:induction false} SendsCover(w: World, batch: seq<nat>, n: nat)
    requires n <= |batch|
    ensures RunFrom(w.(worker := Draining(batch, 0)), Sends(n))
      == World(w.log, w.published, w.sent + WithChannel(w.log, batch[..n]), Draining(batch, n))
    decreases n
  {
    if n > 0 {
      SendsCover(w, batch, n - 1);
      assert Sends(n)[..n - 1] == Sends(n - 1);
      assert batch[..n][..n - 1] == batch[..n - 1];
    }
  }
}
