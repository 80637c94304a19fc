/**
 The server side of an HTTP/2 hop (ServeConn in internal/http2x/serve.go): the stream
 table, both window directions and the request-body buffers, as a transition system.

 One step is one frame handled by the read loop, one Read or Close by the consumer of a
 body, one return of a handler, or one take of send window.
 */
module ServeConn {
  import opened Bytes
  import opened Windows
  import opened Receive

  datatype Server = Server(
    recv: Recv,
    out: OutWindow,
    lastID: Id,
    open: int,
    maxStreams: nat,
    handlerDone: set<Id>,
    live: bool)

  datatype Event =
    | Data(id: Id, payload: seq<Byte>, length: nat, end: bool)
    | Headers(id: Id, end: bool)
    | ResetStream(id: Id)
    | WindowUpdate(id: Id, n: nat)
    | InitialWindow(v: nat)
    | MaxFrame(v: nat)
    | HandlerReturns(id: Id, failed: bool)
    | Read(id: Id, room: nat)
    | ConsumerCloses(id: Id)
    | Send(id: Id, want: int)
    | Shutdown

  /** The state ServeConn starts its read loop in. */
  predicate Initial(s: Server) {
    IsNew(s.recv) && IsNewOut(s.out) && s.lastID == s.open == 0 && s.handlerDone == {} && s.live
  }

  predicate IsFrame(e: Event) {
    !e.HandlerReturns? && !e.Read? && !e.ConsumerCloses? && !e.Send?
  }

  /** finish: tears a stream down, unless its handler returned before the request body ended. */
  function Finish(s: Server, id: Id, force: bool): Server {
    if id !in s.recv.held.bodies then s
    else if !force && !s.recv.held.bodies[id].closed then s.(handlerDone := s.handlerDone + {id})
    else
      s.(recv := Drop(s.recv, id),
         out := OutForget(s.out, id),
         open := if s.open > 0 then s.open - 1 else s.open,
         handlerDone := s.handlerDone - {id})
  }

  function EndRequestBody(s: Server, id: Id): Server {
    var s' := s.(recv := CloseBody(s.recv, id));
    if id in s.handlerDone then Finish(s', id, true) else s'
  }

  function HandleData(s: Server, id: Id, payload: seq<Byte>, n: nat, end: bool): Server
    requires |payload| <= n
  {
    match Verdict(s.recv, id, payload, n)
    case Fatal => Close(s)
    case Refused => Finish(s.(recv := Return(s.recv, id, n)), id, true)
    case Stray => s.(recv := Return(s.recv, id, n))
    case Buffered =>
      var s' := s.(recv := Buffer(s.recv, id, payload, n));
      if end then EndRequestBody(s', id) else s'
  }

  function HandleHeaders(s: Server, id: Id, end: bool): Server {
    if id == 0 || id % 2 == 0 then Close(s)
    else if id in s.recv.held.bodies then EndRequestBody(s, id)
    else if id <= s.lastID || s.open >= s.maxStreams then s
    else
      s.(lastID := id,
         open := s.open + 1,
         recv := Open(s.recv, id, if end then BodyClose(NewBody) else NewBody),
         out := OutOpen(s.out, id))
  }

  function Close(s: Server): Server {
    s.(live := false,
       recv := Abandon(s.recv),
       out := s.out.(closed := true, stream := s.out.stream - s.recv.held.bodies.Keys),
       handlerDone := {})
  }

  function Handle(s: Server, e: Event): Server
    requires IsFrame(e)
  {
    match e
    case Data(id, payload, n, end) =>
      // the framer delivers no frame whose payload is longer than its length field
      if |payload| <= n then HandleData(s, id, payload, n, end) else s
    case Headers(id, end) => HandleHeaders(s, id, end)
    case ResetStream(id) => Finish(s, id, true)
    case WindowUpdate(id, n) => s.(out := OutAdd(s.out, id, n))
    case InitialWindow(v) => s.(out := OutInitialWindow(s.out, v))
    case MaxFrame(v) => s.(out := OutMaxFrame(s.out, v))
    case Shutdown => Close(s)
  }

  function Step(s: Server, e: Event): Server {
    match e
    case HandlerReturns(id, failed) => Finish(s, id, failed)
    case Read(id, room) => s.(recv := ReadBody(s.recv, id, room))
    case ConsumerCloses(id) => s.(recv := CloseBody(s.recv, id))
    case Send(id, want) => s.(out := OutTake(s.out, id, want, false).0)
    case _ => if s.live then Handle(s, e) else s
  }

  function Run(s: Server, es: seq<Event>): Server
    decreases |es|
  {
    if es == [] then s else Step(Run(s, es[..|es| - 1]), es[|es| - 1])
  }

  // ---------------------------------------------------------------- invariant

  ghost predicate TableOk(s: Server) {
    && s.handlerDone <= s.recv.held.bodies.Keys
    && s.recv.inbound.stream.Keys == s.recv.held.bodies.Keys
    && (forall id | id in s.recv.held.bodies :: id % 2 == 1 && id <= s.lastID)
    && (forall id | id in s.recv.held.detached :: id <= s.lastID)
    && s.out.stream.Keys <= s.recv.held.bodies.Keys
  }

  ghost predicate Inv(s: Server) {
    Sound(s.recv, {}) && TableOk(s)
  }

  lemma FinishInv(s: Server, id: Id, force: bool)
    requires Conserved(s.recv) && Released(s.recv) && StreamsConserved(s.recv, {id}) && TableOk(s)
    requires force || Sound(s.recv, {})
    ensures Inv(Finish(s, id, force))
  {
    if id in s.recv.held.bodies && (force || s.recv.held.bodies[id].closed) {
      assert {} + {id} == {id};
      DropSound(s.recv, id, {});
    } else {
      assert StreamsConserved(s.recv, {});
    }
  }

  lemma EndRequestBodyInv(s: Server, id: Id)
    requires Inv(s)
    ensures Inv(EndRequestBody(s, id))
  {
    CloseBodySound(s.recv, id, {});
    var s' := s.(recv := CloseBody(s.recv, id));
    assert s'.recv.held.bodies.Keys == s.recv.held.bodies.Keys;
    assert s'.recv.held.detached.Keys == s.recv.held.detached.Keys;
    FinishInv(s', id, true);
  }

  lemma BufferedInv(s: Server, id: Id, payload: seq<Byte>, n: nat)
    requires |payload| <= n
    requires Inv(s) && Verdict(s.recv, id, payload, n).Buffered?
    ensures Inv(s.(recv := Buffer(s.recv, id, payload, n)))
  {
    BufferedSound(s.recv, id, payload, n, {});
    var s' := s.(recv := Buffer(s.recv, id, payload, n));
    assert s'.recv.held.bodies.Keys == s.recv.held.bodies.Keys;
  }

  lemma ReturnedInv(s: Server, id: Id, n: nat)
    requires Inv(s) && n <= s.recv.inbound.conn
    ensures
      var s' := s.(recv := Return(s.recv, id, n));
      && Conserved(s'.recv) && Released(s'.recv) && StreamsConserved(s'.recv, {id}) && TableOk(s')
      && (id !in s.recv.held.bodies ==> Inv(s'))
  {
    ReturnSound(s.recv, id, n, {});
    assert {} + {id} == {id};
  }

  lemma RefusedInv(s: Server, id: Id, n: nat)
    requires Inv(s) && n <= s.recv.inbound.conn
    ensures Inv(Finish(s.(recv := Return(s.recv, id, n)), id, true))
  {
    ReturnedInv(s, id, n);
    FinishInv(s.(recv := Return(s.recv, id, n)), id, true);
  }

  lemma BufferedEndInv(s: Server, id: Id, payload: seq<Byte>, n: nat)
    requires |payload| <= n
    requires Inv(s) && Verdict(s.recv, id, payload, n).Buffered?
    ensures Inv(EndRequestBody(s.(recv := Buffer(s.recv, id, payload, n)), id))
  {
    BufferedInv(s, id, payload, n);
    EndRequestBodyInv(s.(recv := Buffer(s.recv, id, payload, n)), id);
  }

  lemma DataInv(s: Server, id: Id, payload: seq<Byte>, n: nat, end: bool)
    requires |payload| <= n
    requires Inv(s)
    ensures HandleData(s, id, payload, n, end).live ==> Inv(HandleData(s, id, payload, n, end))
  {
    match Verdict(s.recv, id, payload, n)
    case Fatal =>
    case Refused => RefusedInv(s, id, n);
    case Stray => ReturnedInv(s, id, n);
    case Buffered =>
      if end {
        BufferedEndInv(s, id, payload, n);
      } else {
        BufferedInv(s, id, payload, n);
      }
  }

  lemma OpenInv(s: Server, id: Id, end: bool)
    requires Inv(s) && id % 2 == 1 && id > s.lastID && s.open < s.maxStreams
    ensures Inv(HandleHeaders(s, id, end))
  {
    var body := if end then BodyClose(NewBody) else NewBody;
    OpenSound(s.recv, id, body, {});
    assert s.recv.held.bodies[id := body].Keys == s.recv.held.bodies.Keys + {id};
  }

  lemma HeadersInv(s: Server, id: Id, end: bool)
    requires Inv(s)
    ensures var t := HandleHeaders(s, id, end); t.live ==> Inv(t)
  {
    if id == 0 || id % 2 == 0 {
    } else if id in s.recv.held.bodies {
      EndRequestBodyInv(s, id);
    } else if id > s.lastID && s.open < s.maxStreams {
      OpenInv(s, id, end);
    }
  }

  lemma ReadInv(s: Server, id: Id, room: nat)
    requires Inv(s)
    ensures Inv(s.(recv := ReadBody(s.recv, id, room)))
  {
    ReadBodySound(s.recv, id, room, {});
    var s' := s.(recv := ReadBody(s.recv, id, room));
    assert s'.recv.held.bodies.Keys == s.recv.held.bodies.Keys;
    assert s'.recv.held.detached.Keys == s.recv.held.detached.Keys;
  }

  lemma StepInv(s: Server, e: Event)
    requires Inv(s)
    ensures Step(s, e).live ==> Inv(Step(s, e))
  {
    match e
    case Data(id, payload, n, end) =>
      if |payload| <= n {
        DataInv(s, id, payload, n, end);
      }
    case Headers(id, end) => HeadersInv(s, id, end);
    case ResetStream(id) => FinishInv(s, id, true);
    case HandlerReturns(id, failed) => FinishInv(s, id, failed);
    case Read(id, room) => ReadInv(s, id, room);
    case ConsumerCloses(id) => EndRequestBodyInv(s.(handlerDone := {}), id);
    case _ =>
  }

  lemma StepStaysDown(s: Server, e: Event)
    ensures Step(s, e).live ==> s.live
  {
  }

  lemma InitialInv(s: Server)
    requires Initial(s)
    ensures Inv(s)
  {
    NewSound(s.recv);
  }

  /** The invariant of every reachable state of a live connection. */
  lemma {:induction false} RunInv(s0: Server, es: seq<Event>)
    requires Initial(s0)
    ensures Run(s0, es).live ==> Inv(Run(s0, es))
    decreases |es|
  {
    if es == [] {
      InitialInv(s0);
    } else {
      var s := Run(s0, es[..|es| - 1]);
      RunInv(s0, es[..|es| - 1]);
      StepStaysDown(s, es[|es| - 1]);
      if s.live {
        StepInv(s, es[|es| - 1]);
      }
    }
  }

  /** Receive-window conservation: in every reachable state of a live connection, the connection
      window plus the unread bytes of live bodies is 1 MiB, likewise per stream; so at most 1 MiB
      is ever buffered, and what was credited is exactly what was received and is no longer unread. */
  lemma ReceiveWindowConservation(s0: Server, es: seq<Event>)
    requires Initial(s0)
    ensures
      var r := Run(s0, es).recv;
      Run(s0, es).live ==>
        && r.inbound.conn + Unread(r.held.bodies) == INITIAL_WINDOW
        && Unread(r.held.bodies) <= INITIAL_WINDOW
        && r.credited == r.received - Unread(r.held.bodies)
        && r.inbound.stream.Keys == r.held.bodies.Keys
        && (forall id | id in r.held.bodies :: r.inbound.stream[id] + |r.held.bodies[id].buf| == INITIAL_WINDOW)
  {
    RunInv(s0, es);
    var r := Run(s0, es).recv;
    if Run(s0, es).live {
      forall id | id in r.held.bodies
        ensures r.inbound.stream[id] + |r.held.bodies[id].buf| == INITIAL_WINDOW
      {
        assert StreamConserved(r, id);
      }
    }
  }

  ghost predicate Counted(s: Server) {
    s.open == |s.recv.held.bodies.Keys| <= s.maxStreams
  }

  lemma FinishCounted(s: Server, id: Id, force: bool)
    requires Counted(s)
    ensures Counted(Finish(s, id, force))
  {
    if id in s.recv.held.bodies && (force || s.recv.held.bodies[id].closed) {
      assert (s.recv.held.bodies - {id}).Keys == s.recv.held.bodies.Keys - {id};
    }
  }

  lemma EndRequestBodyCounted(s: Server, id: Id)
    requires Counted(s)
    ensures Counted(EndRequestBody(s, id))
  {
    var s' := s.(recv := CloseBody(s.recv, id));
    assert s'.recv.held.bodies.Keys == s.recv.held.bodies.Keys;
    FinishCounted(s', id, true);
  }

  lemma DataCounted(s: Server, id: Id, payload: seq<Byte>, n: nat, end: bool)
    requires |payload| <= n
    requires Counted(s)
    ensures HandleData(s, id, payload, n, end).live ==> Counted(HandleData(s, id, payload, n, end))
  {
    if Verdict(s.recv, id, payload, n).Buffered? {
      var s' := s.(recv := Buffer(s.recv, id, payload, n));
      assert s'.recv.held.bodies.Keys == s.recv.held.bodies.Keys;
      EndRequestBodyCounted(s', id);
    } else {
      FinishCounted(s.(recv := Return(s.recv, id, n)), id, true);
    }
  }

  lemma HeadersCounted(s: Server, id: Id, end: bool)
    requires Counted(s)
    ensures var t := HandleHeaders(s, id, end); t.live ==> Counted(t)
  {
    EndRequestBodyCounted(s, id);
    if id !in s.recv.held.bodies {
      assert s.recv.held.bodies.Keys + {id} == HandleHeaders(s, id, end).recv.held.bodies.Keys
          || HandleHeaders(s, id, end).recv.held.bodies == s.recv.held.bodies || !HandleHeaders(s, id, end).live;
    }
  }

  lemma StepCounted(s: Server, e: Event)
    requires Counted(s)
    ensures Step(s, e).live ==> Counted(Step(s, e))
  {
    match e
    case Data(id, payload, n, end) =>
      if |payload| <= n {
        DataCounted(s, id, payload, n, end);
      }
    case Headers(id, end) => HeadersCounted(s, id, end);
    case ResetStream(id) => FinishCounted(s, id, true);
    case HandlerReturns(id, failed) => FinishCounted(s, id, failed);
    case Read(id, room) => assert ReadBody(s.recv, id, room).held.bodies.Keys == s.recv.held.bodies.Keys;
    case ConsumerCloses(id) => assert CloseBody(s.recv, id).held.bodies.Keys == s.recv.held.bodies.Keys;
    case _ =>
  }

  /** The concurrency limit: `open` counts the table in every reachable state of a live
      connection, and never passes the advertised limit. */
  lemma {:induction false} OpenCountsTheTable(s0: Server, es: seq<Event>)
    requires Initial(s0)
    ensures
      var s := Run(s0, es);
      s.live ==> s.open == |s.recv.held.bodies.Keys| <= s.maxStreams
    decreases |es|
  {
    if es != [] {
      var s := Run(s0, es[..|es| - 1]);
      OpenCountsTheTable(s0, es[..|es| - 1]);
      StepStaysDown(s, es[|es| - 1]);
      if s.live {
        StepCounted(s, es[|es| - 1]);
      }
    }
  }

  // ---------------------------------------------------------------- dead streams

  /** A stream id the server has passed and that is not in the table. */
  ghost predicate Dead(s: Server, id: Id) {
    id % 2 == 1 && id <= s.lastID && id !in s.recv.held.bodies
  }

  lemma StepKeepsDead(s: Server, e: Event, id: Id)
    requires Dead(s, id) && s.live
    ensures Step(s, e).live ==> Dead(Step(s, e), id)
  {
  }

  lemma DeadIsInert(s: Server, id: Id)
    requires Inv(s) && s.live && Dead(s, id)
    ensures id !in s.out.stream
    ensures forall want :: Step(s, Send(id, want)) == s
    ensures forall n :: Step(s, WindowUpdate(id, n)) == s
  {
  }

  lemma {:induction false} DeadForever(s: Server, es: seq<Event>, id: Id)
    requires Dead(s, id) && s.live
    ensures Run(s, es).live ==> Dead(Run(s, es), id)
    decreases |es|
  {
    if es != [] {
      DeadForever(s, es[..|es| - 1], id);
      var t := Run(s, es[..|es| - 1]);
      StepStaysDown(t, es[|es| - 1]);
      if t.live {
        StepKeepsDead(t, es[|es| - 1], id);
      }
    }
  }

  lemma {:induction false} RunConcat(s: Server, a: seq<Event>, b: seq<Event>)
    ensures Run(s, a + b) == Run(Run(s, a), b)
    decreases |b|
  {
    if b == [] {
      assert a + b == a;
    } else {
      assert (a + b)[..|a + b| - 1] == a + b[..|b| - 1];
      RunConcat(s, a, b[..|b| - 1]);
    }
  }

  /** Once a stream is dead it stays dead for the rest of the run, has no send window, and no
      take or WINDOW_UPDATE for it changes any window: ids are opened in strictly increasing odd
      order (section 5.1.1 of RFC 9113), so nothing can open it again. */
  lemma DeadStreamSpendsNothing(s0: Server, before: seq<Event>, after: seq<Event>, id: Id)
    requires Initial(s0) && Run(s0, before).live
    requires Dead(Run(s0, before), id)
    ensures
      var s := Run(s0, before + after);
      s.live ==>
        && id !in s.out.stream
        && (forall want :: Step(s, Send(id, want)) == s)
        && (forall n :: Step(s, WindowUpdate(id, n)) == s)
  {
    RunConcat(s0, before, after);
    DeadForever(Run(s0, before), after, id);
    RunInv(s0, before + after);
    var s := Run(s0, before + after);
    if s.live {
      DeadIsInert(s, id);
    }
  }
}
