/** idempotency_service: any number of clients sharing one (key, endpoint), one database statement at a time. */
module Idempotency {
  import opened Commons

  type Hash = nat
  type Response = nat

  /** 10 seconds of 0.1-second waits. */
  const MAX_WAITS: nat := 100

  /** The row of `idempotency_keys`. */
  datatype Row = Row(hash: Hash, inProgress: bool, response: Option<Response>)

  datatype Failure = HandlerFailed | StillInProgress | KeyReused

  /** Where a client is: between two statements of `run_idempotent` or `_wait_for_result`. */
  datatype Pc =
    | Claiming                        // before its INSERT
    | Handling                        // it claimed the key; its handler is in flight
    | Publishing(response: Response)  // its handler returned
    | Deleting                        // its handler raised
    | Polling(waited: nat)            // before reading the row
    | Reclaiming(waited: nat)         // it read that the row is gone
    | Returned(response: Response)
    | Raised(failure: Failure)
    | Crashed

  datatype Client = Client(hash: Hash, pc: Pc)

  /** A handler that completed successfully. */
  datatype Completion = Completion(client: nat, hash: Hash, response: Response)

  datatype World = World(row: Option<Row>, clients: seq<Client>, completions: seq<Completion>)

  datatype Event =
    | Arrive(hash: Hash)
    | Claim(i: nat)
    | HandlerReturns(i: nat, response: Response)
    | HandlerRaises(i: nat)
    | Publish(i: nat)
    | Delete(i: nat)
    | Poll(i: nat)
    | Reclaim(i: nat)
    | Crash(i: nat)

  function Goto(w: World, i: nat, pc: Pc): World
    requires i < |w.clients|
  {
    w.(clients := w.clients[i := w.clients[i].(pc := pc)])
  }

  /** `_try_claim`: INSERT ... ON CONFLICT DO NOTHING. */
  function Inserted(hash: Hash): Option<Row> {
    Some(Row(hash, true, None))
  }

  function PollRow(row: Option<Row>, hash: Hash, waited: nat): Pc {
    if waited >= MAX_WAITS then Raised(StillInProgress)
    else match row
      case None => Reclaiming(waited)
      case Some(r) =>
        if r.hash != hash then Raised(KeyReused)
        else if !r.inProgress && r.response.Some? then Returned(r.response.value)
        else Polling(waited + 1)
  }

  /** One statement, or one crash. An event that does not apply changes nothing. */
  function Next(w: World, e: Event): World {
    match e
    case Arrive(hash) => w.(clients := w.clients + [Client(hash, Claiming)])
    case Claim(i) =>
      if i < |w.clients| && w.clients[i].pc.Claiming? then
        if w.row.None? then Goto(w.(row := Inserted(w.clients[i].hash)), i, Handling) else Goto(w, i, Polling(0))
      else w
    case HandlerReturns(i, response) =>
      if i < |w.clients| && w.clients[i].pc.Handling? then
        Goto(w.(completions := w.completions + [Completion(i, w.clients[i].hash, response)]), i, Publishing(response))
      else w
    case HandlerRaises(i) =>
      if i < |w.clients| && w.clients[i].pc.Handling? then Goto(w, i, Deleting) else w
    case Publish(i) =>
      if i < |w.clients| && w.clients[i].pc.Publishing? then
        var response := w.clients[i].pc.response;
        var row := if w.row.Some? then Some(w.row.value.(inProgress := false, response := Some(response))) else None;
        Goto(w.(row := row), i, Returned(response))
      else w
    case Delete(i) =>
      if i < |w.clients| && w.clients[i].pc.Deleting? then
        var row := if w.row.Some? && w.row.value.inProgress then None else w.row;
        Goto(w.(row := row), i, Raised(HandlerFailed))
      else w
    case Poll(i) =>
      if i < |w.clients| && w.clients[i].pc.Polling? then
        Goto(w, i, PollRow(w.row, w.clients[i].hash, w.clients[i].pc.waited))
      else w
    case Reclaim(i) =>
      if i < |w.clients| && w.clients[i].pc.Reclaiming? then
        if w.row.None? then Goto(w.(row := Inserted(w.clients[i].hash)), i, Raised(StillInProgress))
        else Goto(w, i, Polling(w.clients[i].pc.waited + 1))
      else w
    case Crash(i) =>
      if i < |w.clients| && !w.clients[i].pc.Returned? && !w.clients[i].pc.Raised? then Goto(w, i, Crashed) else w
  }

  function Start(): World {
    World(None, [], [])
  }

  function RunFrom(w: World, events: seq<Event>): World
    decreases |events|
  {
    if events == [] then w else Next(RunFrom(w, events[..|events| - 1]), events[|events| - 1])
  }

  /** The client is responsible for the row: its handler runs, or its outcome is not yet recorded. */
  predicate Responsible(c: Client) {
    c.pc.Handling? || c.pc.Publishing? || c.pc.Deleting?
  }

  /** The one row, its responsible client and the completed handler fit together. */
  ghost predicate RowOk(w: World) {
    && (forall i | 0 <= i < |w.clients| && Responsible(w.clients[i]) :: w.row == Inserted(w.clients[i].hash))
    && (forall i, j | 0 <= i < |w.clients| && 0 <= j < |w.clients| ::
         Responsible(w.clients[i]) && Responsible(w.clients[j]) ==> i == j)
    && (w.row.Some? && !w.row.value.inProgress ==> w.row.value.response.Some? && w.completions != [])
  }

  ghost predicate CompletionOk(w: World) {
    && |w.completions| <= 1
    && (w.completions != [] ==>
         var c := w.completions[0];
         && c.client < |w.clients| && w.clients[c.client].hash == c.hash
         && w.row.Some? && w.row.value.hash == c.hash
         && (w.row.value.inProgress || w.row.value.response == Some(c.response))
         && (forall i | 0 <= i < |w.clients| && Responsible(w.clients[i]) ::
              i == c.client && w.clients[i].pc == Publishing(c.response)))
    && (forall i | 0 <= i < |w.clients| && w.clients[i].pc.Publishing? :: w.completions != [])
    && (forall i | 0 <= i < |w.clients| && w.clients[i].pc.Returned? ::
         w.completions != [] && w.clients[i].pc.response == w.completions[0].response
         && w.clients[i].hash == w.completions[0].hash)
  }

  /** A client moves, and rewrites the row only if it is responsible for it or there is none. */
  lemma RowMove(w: World, after: World, i: nat, pc: Pc)
    requires RowOk(w) && i < |w.clients|
    requires after.clients == w.clients[i := w.clients[i].(pc := pc)]
    requires after.row == w.row || Responsible(w.clients[i]) || w.row.None?
    requires Responsible(after.clients[i]) ==>
      after.row == Inserted(w.clients[i].hash) && (Responsible(w.clients[i]) || w.row.None?)
    requires after.row.Some? && !after.row.value.inProgress ==>
      after.row.value.response.Some? && after.completions != []
    ensures RowOk(after)
  {
    assert forall j | 0 <= j < |w.clients| && j != i :: after.clients[j] == w.clients[j];
  }

  lemma HandlerRowKeeps(w: World, e: Event, i: nat)
    requires RowOk(w) && CompletionOk(w)
    requires e == HandlerRaises(i) || e == Publish(i) || e == Delete(i) || (e.HandlerReturns? && e.i == i)
    ensures RowOk(Next(w, e))
  {
    var after := Next(w, e);
    if after != w {
      RowMove(w, after, i, after.clients[i].pc);
    }
  }

  lemma RowKeeps(w: World, e: Event)
    requires RowOk(w) && CompletionOk(w)
    ensures RowOk(Next(w, e))
  {
    var after := Next(w, e);
    match e
    case Arrive(_) =>
    case HandlerReturns(i, _) => HandlerRowKeeps(w, e, i);
    case HandlerRaises(i) => HandlerRowKeeps(w, e, i);
    case Publish(i) => HandlerRowKeeps(w, e, i);
    case Delete(i) => HandlerRowKeeps(w, e, i);
    case Claim(i) => if after != w { RowMove(w, after, i, after.clients[i].pc); }
    case Poll(i) => if after != w { RowMove(w, after, i, after.clients[i].pc); }
    case Reclaim(i) => if after != w { RowMove(w, after, i, after.clients[i].pc); }
    case Crash(i) => if after != w { RowMove(w, after, i, after.clients[i].pc); }
  }

  /** A client that changes its own place only, without completing, publishing or returning. */
  lemma QuietMove(w: World, after: World, i: nat, pc: Pc)
    requires CompletionOk(w) && i < |w.clients| && after == Goto(w.(row := after.row), i, pc)
    requires w.completions != [] ==> after.row == w.row
    requires pc.Returned? ==>
      w.completions != [] && pc.response == w.completions[0].response && w.clients[i].hash == w.completions[0].hash
    requires !pc.Publishing? && (pc.Handling? || pc.Deleting? ==> w.completions == [])
    ensures CompletionOk(after)
  {
    assert forall j | 0 <= j < |w.clients| && j != i :: after.clients[j] == w.clients[j];
  }

  lemma HandlerReturnsKeeps(w: World, e: Event)
    requires RowOk(w) && CompletionOk(w) && e.HandlerReturns?
    ensures CompletionOk(Next(w, e))
  {
  }

  lemma PublishKeeps(w: World, e: Event)
    requires RowOk(w) && CompletionOk(w) && e.Publish?
    ensures CompletionOk(Next(w, e))
  {
  }

  lemma CompletionKeeps(w: World, e: Event)
    requires RowOk(w) && CompletionOk(w)
    ensures CompletionOk(Next(w, e))
  {
    var after := Next(w, e);
    match e
    case Arrive(_) =>
    case HandlerReturns(_, _) => HandlerReturnsKeeps(w, e);
    case Publish(_) => PublishKeeps(w, e);
    case Claim(i) => if after != w { QuietMove(w, after, i, after.clients[i].pc); }
    case HandlerRaises(i) => if after != w { QuietMove(w, after, i, after.clients[i].pc); }
    case Delete(i) => if after != w { QuietMove(w, after, i, after.clients[i].pc); }
    case Poll(i) => if after != w { QuietMove(w, after, i, after.clients[i].pc); }
    case Reclaim(i) => if after != w { QuietMove(w, after, i, after.clients[i].pc); }
    case Crash(i) => if after != w { QuietMove(w, after, i, after.clients[i].pc); }
  }

  lemma NextKeeps(w: World, e: Event)
    requires RowOk(w) && CompletionOk(w)
    ensures RowOk(Next(w, e)) && CompletionOk(Next(w, e))
  {
    RowKeeps(w, e);
    CompletionKeeps(w, e);
  }

  lemma {:induction false} AlwaysOk(events: seq<Event>)
    ensures RowOk(RunFrom(Start(), events)) && CompletionOk(RunFrom(Start(), events))
    decreases |events|
  {
    if events != [] {
      AlwaysOk(events[..|events| - 1]);
      NextKeeps(RunFrom(Start(), events[..|events| - 1]), events[|events| - 1]);
    }
  }

  /** Whatever fails or crashes, at most one handler is in flight, and at most one ever completes. */
  lemma OneHandlerAtATime(events: seq<Event>, i: nat, j: nat)
    requires i < |RunFrom(Start(), events).clients| && j < |RunFrom(Start(), events).clients|
    requires RunFrom(Start(), events).clients[i].pc.Handling? && RunFrom(Start(), events).clients[j].pc.Handling?
    ensures i == j && RunFrom(Start(), events).completions == []
  {
    AlwaysOk(events);
  }

  lemma OneCompletionEver(events: seq<Event>)
    ensures |RunFrom(Start(), events).completions| <= 1
  {
    AlwaysOk(events);
  }

  /** Every normal return carries the response of the one completed handler, and only to
      requests with the body that handler ran for. */
  lemma ReturnsTheOneResponse(events: seq<Event>, i: nat)
    requires i < |RunFrom(Start(), events).clients| && RunFrom(Start(), events).clients[i].pc.Returned?
    ensures var w := RunFrom(Start(), events);
      |w.completions| == 1 && w.clients[i].pc.response == w.completions[0].response
      && w.clients[i].hash == w.completions[0].hash
  {
    AlwaysOk(events);
  }

  /** Once published, the row never changes again. */
  lemma {:induction false} PublishedForever(w: World, events: seq<Event>)
    requires RowOk(w) && CompletionOk(w) && w.row.Some? && !w.row.value.inProgress
    ensures RunFrom(w, events).row == w.row && RunFrom(w, events).completions == w.completions
    ensures RowOk(RunFrom(w, events)) && CompletionOk(RunFrom(w, events))
    decreases |events|
  {
    if events != [] {
      PublishedForever(w, events[..|events| - 1]);
      NextKeeps(RunFrom(w, events[..|events| - 1]), events[|events| - 1]);
    }
  }

  /** The key is in progress and no client is responsible for it. */
  predicate Stuck(w: World) {
    w.row.Some? && w.row.value.inProgress && forall i | 0 <= i < |w.clients| :: !Responsible(w.clients[i])
  }

  lemma StuckStays(w: World, e: Event)
    requires Stuck(w)
    ensures var now := Next(w, e);
      && Stuck(now) && now.row == w.row && now.completions == w.completions && |w.clients| <= |now.clients|
      && (forall i | 0 <= i < |now.clients| && now.clients[i].pc.Returned? ::
           i < |w.clients| && now.clients[i] == w.clients[i])
  {
  }

  /** A stuck key stays stuck: no handler runs for it again, and nobody new returns. */
  lemma {:induction false} StuckForever(w: World, events: seq<Event>)
    requires Stuck(w)
    ensures var now := RunFrom(w, events);
      && Stuck(now) && now.row == w.row && now.completions == w.completions && |w.clients| <= |now.clients|
      && (forall i | 0 <= i < |now.clients| && now.clients[i].pc.Returned? ::
           i < |w.clients| && now.clients[i] == w.clients[i])
    decreases |events|
  {
    if events != [] {
      StuckForever(w, events[..|events| - 1]);
      StuckStays(RunFrom(w, events[..|events| - 1]), events[|events| - 1]);
    }
  }

  /** Which statement can make a key stuck: the crash of the responsible client, or a waiter that
      claims a vanished key and raises instead of running its handler. */
  lemma HowKeysGetStuck(w: World, e: Event)
    requires RowOk(w) && CompletionOk(w) && !Stuck(w)
    ensures Stuck(Next(w, e)) <==>
      || (e.Crash? && e.i < |w.clients| && Responsible(w.clients[e.i]))
      || (e.Reclaim? && e.i < |w.clients| && w.clients[e.i].pc.Reclaiming? && w.row.None?)
  {
    var after := Next(w, e);
    if w.row.Some? && w.row.value.inProgress {
      var j :| 0 <= j < |w.clients| && Responsible(w.clients[j]);
      if e.Crash? && e.i == j {
        assert forall k | 0 <= k < |after.clients| && k != j :: after.clients[k] == w.clients[k];
      } else if after.row == w.row {
        assert Responsible(after.clients[j]);
      }
    } else if e.Claim? && after != w && w.row.None? {
      assert Responsible(after.clients[e.i]);
    } else if e.Reclaim? && after != w && w.row.None? {
      assert forall k | 0 <= k < |after.clients| && k != e.i :: after.clients[k] == w.clients[k];
    }
  }

  /** Two requests: the first claims and its handler is in flight, the second waits. */
  function OneWaits(first: Hash, second: Hash): seq<Event> {
    [Arrive(first), Arrive(second), Claim(0), Claim(1)]
  }

  /** Then the handler raises, and the second request finds the key gone. No process crashes. */
  function HandlerFails(): seq<Event> {
    [HandlerRaises(0), Delete(0), Poll(1)]
  }

  lemma RunThree(w: World, e: seq<Event>)
    requires |e| == 3
    ensures RunFrom(w, e) == Next(Next(Next(w, e[0]), e[1]), e[2])
  {
    assert e[..2][..1] == e[..1] && e[..1][..0] == [];
    assert RunFrom(w, e[..1]) == Next(w, e[0]);
    assert RunFrom(w, e[..2]) == Next(RunFrom(w, e[..1]), e[1]);
  }

  lemma OneWaitsState(first: Hash, second: Hash)
    ensures RunFrom(Start(), OneWaits(first, second))
      == World(Inserted(first), [Client(first, Handling), Client(second, Polling(0))], [])
  {
    var e := OneWaits(first, second);
    RunThree(Start(), e[..3]);
    var arrived := Next(Next(Start(), e[0]), e[1]);
    assert arrived == World(None, [Client(first, Claiming), Client(second, Claiming)], []);
    assert Next(arrived, e[2]).clients == [Client(first, Handling), Client(second, Claiming)];
    assert RunFrom(Start(), e) == Next(RunFrom(Start(), e[..3]), e[3]);
  }

  lemma HandlerFailsState(first: Hash, second: Hash)
    ensures RunFrom(World(Inserted(first), [Client(first, Handling), Client(second, Polling(0))], []), HandlerFails())
      == World(None, [Client(first, Raised(HandlerFailed)), Client(second, Reclaiming(0))], [])
  {
    var w := World(Inserted(first), [Client(first, Handling), Client(second, Polling(0))], []);
    RunThree(w, HandlerFails());
    assert Next(w, HandlerRaises(0)).clients == [Client(first, Deleting), Client(second, Polling(0))];
    assert Next(Next(w, HandlerRaises(0)), Delete(0)).clients ==
      [Client(first, Raised(HandlerFailed)), Client(second, Polling(0))];
  }

  /** A waiter really can make a key stuck: one more statement, and the key is in progress, nobody is responsible for it
      and no handler has ever completed. */
  lemma WaiterAbandonsKey(first: Hash, second: Hash)
    ensures var events := OneWaits(first, second) + HandlerFails();
      var before, w := RunFrom(Start(), events), RunFrom(Start(), events + [Reclaim(1)]);
      && !Stuck(before) && Stuck(w) && w.row == Inserted(second) && w.completions == []
      && w.clients == [Client(first, Raised(HandlerFailed)), Client(second, Raised(StillInProgress))]
  {
    var events := OneWaits(first, second) + HandlerFails();
    RunAppend(Start(), OneWaits(first, second), HandlerFails());
    OneWaitsState(first, second);
    HandlerFailsState(first, second);
    RunOneMore(Start(), events, Reclaim(1));
  }

  /** One request while no other client acts: the response it returns, or why it raises, and the row it leaves. */
  datatype Solo = Solo(row: Option<Row>, pc: Pc)

  function RunSolo(row: Option<Row>, hash: Hash, handler: Option<Response>): Solo {
    match row
    case None =>
      if handler.None? then Solo(None, Raised(HandlerFailed))
      else Solo(Some(Row(hash, false, handler)), Returned(handler.value))
    case Some(r) =>
      Solo(row, if r.hash != hash then Raised(KeyReused)
                else if !r.inProgress && r.response.Some? then Returned(r.response.value)
                else Raised(StillInProgress))
  }

  function PollsOf(i: nat, n: nat): seq<Event> {
    seq(n, _ => Poll(i))
  }

  /** What the protocol does for a request that arrives when nobody else acts. */
  function SoloEvents(w: World, hash: Hash, handler: Option<Response>): seq<Event> {
    var i := |w.clients|;
    [Arrive(hash), Claim(i)] +
      if w.row.Some? then PollsOf(i, MAX_WAITS + 1)
      else match handler
        case Some(response) => [HandlerReturns(i, response), Publish(i)]
        case None => [HandlerRaises(i), Delete(i)]
  }

  lemma RunOneMore(w: World, events: seq<Event>, e: Event)
    ensures RunFrom(w, events + [e]) == Next(RunFrom(w, events), e)
  {
    assert (events + [e])[..|events|] == events;
  }

  lemma {:induction false} RunAppend(w: World, front: seq<Event>, back: seq<Event>)
    ensures RunFrom(w, front + back) == RunFrom(RunFrom(w, front), back)
    decreases |back|
  {
    if back == [] {
      assert front + back == front;
    } else {
      RunAppend(w, front, back[..|back| - 1]);
      assert (front + back)[..|front + back| - 1] == front + back[..|back| - 1];
    }
  }

  /** Polling a row that nobody changes. */
  /** One more poll of a row that nobody changes. */
  lemma PollOnce(w: World, i: nat)
    requires i < |w.clients| && w.row.Some?
    ensures var after := Next(w, Poll(i));
      && after.row == w.row && |after.clients| == |w.clients| && after.clients[i].hash == w.clients[i].hash
      && after.clients[i].pc ==
           if w.clients[i].pc.Polling? then PollRow(w.row, w.clients[i].hash, w.clients[i].pc.waited)
             else w.clients[i].pc
  {
  }

  lemma {:induction false} PollsSettle(w: World, i: nat, n: nat)
    requires i < |w.clients| && w.row.Some? && w.clients[i].pc == Polling(0)
    ensures var after := RunFrom(w, PollsOf(i, n));
      && after.row == w.row && |after.clients| == |w.clients| && after.clients[i].hash == w.clients[i].hash
      && after.clients[i].pc ==
           if n == 0 then Polling(0)
           else if w.row.value.hash == w.clients[i].hash && !(!w.row.value.inProgress && w.row.value.response.Some?)
             && n <= MAX_WAITS then Polling(n)
           else RunSolo(w.row, w.clients[i].hash, None).pc
    decreases n
  {
    if n > 0 {
      PollsSettle(w, i, n - 1);
      assert PollsOf(i, n) == PollsOf(i, n - 1) + [Poll(i)];
      RunOneMore(w, PollsOf(i, n - 1), Poll(i));
      PollOnce(RunFrom(w, PollsOf(i, n - 1)), i);
    }
  }

  /** The uninterrupted request is a run of the protocol. */
  lemma SoloIsProtocolRun(w: World, hash: Hash, handler: Option<Response>)
    ensures var after := RunFrom(w, SoloEvents(w, hash, handler));
      |after.clients| == |w.clients| + 1
      && RunSolo(w.row, hash, handler) == Solo(after.row, after.clients[|w.clients|].pc)
  {
    var i := |w.clients|;
    var start := [Arrive(hash), Claim(i)];
    assert start[..1] == [Arrive(hash)] && start[..1][..0] == [];
    assert RunFrom(w, start[..1]) == Next(w, Arrive(hash));
    var claimed := RunFrom(w, start);
    var rest := SoloEvents(w, hash, handler)[2..];
    assert SoloEvents(w, hash, handler) == start + rest;
    RunAppend(w, start, rest);
    if w.row.Some? {
      PollsSettle(claimed, i, MAX_WAITS + 1);
    } else {
      ClaimedSettles(claimed, i, handler, rest);
    }
  }

  /** The client that has claimed the key runs the handler and publishes the response, or deletes the row. */
  lemma ClaimedSettles(w: World, i: nat, handler: Option<Response>, rest: seq<Event>)
    requires i < |w.clients| && w.clients[i].pc.Handling? && w.row == Inserted(w.clients[i].hash)
    requires rest == if handler.Some? then [HandlerReturns(i, handler.value), Publish(i)]
      else [HandlerRaises(i), Delete(i)]
    ensures var after := RunFrom(w, rest);
      && |after.clients| == |w.clients|
      && RunSolo(None, w.clients[i].hash, handler) == Solo(after.row, after.clients[i].pc)
  {
    assert rest[..1] == [rest[0]] && rest[..1][..0] == [];
    assert RunFrom(w, rest[..1]) == Next(w, rest[0]);
  }

  /** A key's row as the service's statements rewrite it. */
  class KeyTable {
    var row: Option<Row>

    /** `_try_claim`. */
    method TryClaim(hash: Hash) returns (claimed: bool)
      modifies this
      ensures claimed <==> old(row).None?
      ensures row == if claimed then Inserted(hash) else old(row)
    {
      claimed := row.None?;
      if claimed {
        row := Some(Row(hash, true, None));
      }
    }

    /** `_wait_for_result` while nobody else acts: on a missing key it claims and raises, and the key stays stuck. */
    method WaitForResult(hash: Hash) returns (pc: Pc)
      modifies this
      ensures old(row).Some? ==> row == old(row) && pc == RunSolo(row, hash, None).pc
      ensures old(row).None? ==> row == Inserted(hash) && pc == Raised(StillInProgress)
    {
      var waited := 0;
      while waited < MAX_WAITS
        invariant row == old(row)
        invariant waited > 0 ==>
          row.Some? && row.value.hash == hash && !(!row.value.inProgress && row.value.response.Some?)
      {
        match row {
          case None =>
            var claimed := TryClaim(hash);
            if claimed {
              return Raised(StillInProgress);
            }
          case Some(r) =>
            if r.hash != hash {
              return Raised(KeyReused);
            }
            if !r.inProgress && r.response.Some? {
              return Returned(r.response.value);
            }
        }
        waited := waited + 1;
      }
      pc := Raised(StillInProgress);
    }

    /** `run_idempotent`; `handler` is what the handler returns, or None when it raises. */
    method RunIdempotent(hash: Hash, handler: Option<Response>) returns (pc: Pc)
      modifies this
      ensures Solo(row, pc) == RunSolo(old(row), hash, handler)
    {
      var claimed := TryClaim(hash);
      if !claimed {
        pc := WaitForResult(hash);
        return;
      }
      match handler {
        case None =>
          if row.Some? && row.value.inProgress {
            row := None;
          }
          pc := Raised(HandlerFailed);
        case Some(response) =>
          if row.Some? {
            row := Some(row.value.(response := Some(response), inProgress := false));
          }
          pc := Returned(response);
      }
    }
  }

  /** What a series of uninterrupted requests with the same body returns, given what each one's handler would do. */
  function Series(row: Option<Row>, hash: Hash, handlers: seq<Option<Response>>): (r: seq<Pc>)
    ensures |r| == |handlers|
    decreases |handlers|
  {
    if handlers == [] then [] else
      var first := RunSolo(row, hash, handlers[0]);
      [first.pc] + Series(first.row, hash, handlers[1..])
  }

  /** From the first success on, every repetition returns that response, whatever its own handler would do; before it,
      every request raises. */
  lemma {:induction false} RepeatsReplay(hash: Hash, handlers: seq<Option<Response>>, n: nat)
    requires n < |handlers| && handlers[n].Some? && forall i | 0 <= i < n :: handlers[i].None?
    ensures forall i | 0 <= i < n :: Series(None, hash, handlers)[i] == Raised(HandlerFailed)
    ensures forall i | n <= i < |handlers| :: Series(None, hash, handlers)[i] == Returned(handlers[n].value)
    decreases n
  {
    var rest := handlers[1..];
    if n == 0 {
      PublishedReplays(Row(hash, false, handlers[0]), rest);
    } else {
      RepeatsReplay(hash, rest, n - 1);
    }
  }

  lemma {:induction false} PublishedReplays(row: Row, handlers: seq<Option<Response>>)
    requires !row.inProgress && row.response.Some?
    ensures forall i | 0 <= i < |handlers| :: Series(Some(row), row.hash, handlers)[i] == Returned(row.response.value)
    decreases |handlers|
  {
    if handlers != [] {
      PublishedReplays(row, handlers[1..]);
    }
  }
}
