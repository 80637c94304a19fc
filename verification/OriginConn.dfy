/**
 The client side of an HTTP/2 hop (OriginConn in internal/http2x/origin_conn.go): request
 streams with response bodies, captured server pushes and both window directions, as a
 transition system.

 One step is one frame handled by readLoop, one lock-protected action of a RoundTrip, of its
 upload or of the reader of its response, or one take of send window. `promised` and `captured` are
 history: every id a PUSH_PROMISE was captured for, and what OnPush was handed.
 */
module OriginConn {
  import opened Bytes
  import opened Windows
  import opened Receive

  /** What the originStream remembers about its two halves. */
  datatype Progress = Progress(gotResp: bool, ended: bool, uploadStopped: bool, uploadDone: bool, responseDone: bool)

  /** What OnPush is handed of a captured push. */
  datatype Pushed = Pushed(id: Id, body: seq<Byte>, truncated: bool)

  datatype Client = Client(
    recv: Recv,
    out: OutWindow,
    nextID: Id,
    progress: map<Id, Progress>,
    pushes: map<Id, seq<Byte>>,
    promised: set<Id>,
    captured: seq<Pushed>,
    capturePush: bool,
    maxBody: int,
    live: bool)

  datatype Event =
    | RoundTrip(hasBody: bool, writeFails: bool)
    | GivesUp(id: Id)
    | UploadEnds(id: Id)
    | UploadFails(id: Id)
    | ResponseDone(id: Id, closed: bool)
    | Read(id: Id, room: nat)
    | Send(id: Id, want: int)
    | Data(id: Id, payload: seq<Byte>, length: nat, end: bool)
    | Headers(id: Id, informational: bool, end: bool)
    | PushPromise(id: Id)
    | ResetStream(id: Id, noError: bool)
    | WindowUpdate(id: Id, n: nat)
    | InitialWindow(v: nat)
    | MaxFrame(v: nat)
    | Shutdown

  predicate IsFrame(e: Event) {
    !e.RoundTrip? && !e.GivesUp? && !e.UploadEnds? && !e.UploadFails? && !e.ResponseDone? && !e.Read? && !e.Send?
  }

  predicate Initial(s: Client) {
    && IsNew(s.recv) && IsNewOut(s.out) && s.nextID == 1 && s.progress == map[]
    && s.pushes == map[] && s.promised == {} && s.captured == [] && s.live
  }

  /** forget and failStream act on the tables and the windows alike. */
  function TearDown(s: Client, id: Id): Client {
    s.(recv := Drop(s.recv, id), out := OutForget(s.out, id), pushes := s.pushes - {id})
  }

  function Mark(s: Client, id: Id, p: Progress): Client {
    s.(progress := s.progress[id := p])
  }

  function Retire(s: Client, id: Id): Client {
    if id in s.progress && s.progress[id].uploadDone && s.progress[id].responseDone then TearDown(s, id) else s
  }

  predicate MayOpen(s: Client) {
    s.live && s.nextID % 2 == 1 && s.nextID <= MAX_INT32
  }

  /** Stream allocation and its opening HEADERS share the writer lock: one step. */
  function OpenStream(s: Client, hasBody: bool): Client {
    s.(nextID := s.nextID + 2,
       recv := Open(s.recv, s.nextID, NewBody),
       out := OutOpen(s.out, s.nextID),
       progress := s.progress[s.nextID := Progress(false, false, false, !hasBody, false)])
  }

  function StartRoundTrip(s: Client, hasBody: bool, writeFails: bool): Client {
    if !MayOpen(s) then s
    else if writeFails then TearDown(OpenStream(s, hasBody), s.nextID)
    else OpenStream(s, hasBody)
  }

  function FinishUpload(s: Client, id: Id): Client {
    if id in s.recv.held.bodies && id in s.progress then
      Retire(Mark(s, id, s.progress[id].(uploadDone := true)), id)
    else s
  }

  /** The response body was read to its end or closed: trailerBody.promote. */
  function FinishResponse(s: Client, id: Id, closed: bool): Client {
    if id !in s.progress then s
    else
      var s' := Mark(s.(recv := if closed then CloseBody(s.recv, id) else s.recv), id,
          s.progress[id].(responseDone := true));
      if s.progress[id].ended then Retire(s', id) else TearDown(s', id)
  }

  function FinishPush(s: Client, id: Id, truncated: bool): Client {
    if id !in s.pushes then s
    else s.(pushes := s.pushes - {id},
            captured := s.captured + [Pushed(id, s.pushes[id], truncated)],
            recv := s.recv.(inbound := InForget(s.recv.inbound, id)),
            out := OutForget(s.out, id))
  }

  function EndResponse(s: Client, id: Id): Client {
    var s' := s.(recv := CloseBody(s.recv, id));
    if id in s.progress then Mark(s', id, s.progress[id].(ended := true)) else s'
  }

  /** DATA of a promised stream: kept up to maxBody, and credited at once. A push that outgrows the cap is cut
      there and captured. */
  function PushData(s: Client, id: Id, payload: seq<Byte>, n: nat, end: bool): Client
    requires id in s.pushes
  {
    var kept := s.pushes[id];
    if payload != [] && s.maxBody > 0 && |kept| + |payload| > s.maxBody then
      var keep := s.maxBody - |kept|;
      var cut := if keep > 0 then kept + payload[..keep] else kept;
      FinishPush(s.(pushes := s.pushes[id := cut], recv := Return(s.recv, id, n)), id, true)
    else
      var s' := s.(pushes := s.pushes[id := kept + payload]);
      if end then FinishPush(s'.(recv := Return(s.recv, id, n)), id, false)
      else s'.(recv := Credit(Charge(s.recv, id, n), id, n))
  }

  function HandleData(s: Client, id: Id, payload: seq<Byte>, n: nat, end: bool): Client
    requires |payload| <= n
  {
    match Verdict(s.recv, id, payload, n)
    case Fatal => FailAll(s)
    case Refused => TearDown(s.(recv := Return(s.recv, id, n)), id)
    case Stray =>
      if id in s.pushes then PushData(s, id, payload, n, end)
      else s.(recv := Return(s.recv, id, n))
    case Buffered =>
      var s' := s.(recv := Buffer(s.recv, id, payload, n));
      if end then EndResponse(s', id) else s'
  }

  function HandleHeaders(s: Client, id: Id, informational: bool, end: bool): Client {
    if id in s.recv.held.bodies then
      if informational then (if end then TearDown(s, id) else s)
      else
        var s' := if id in s.progress then Mark(s, id, s.progress[id].(gotResp := true)) else s;
        if end then EndResponse(s', id) else s'
    else if id in s.pushes && end then FinishPush(s, id, false)
    else s
  }

  function HandlePushPromise(s: Client, id: Id): Client {
    if !s.capturePush then s
    else s.(recv := s.recv.(inbound := InOpen(s.recv.inbound, id)),
            pushes := s.pushes[id := []],
            promised := s.promised + {id},
            out := OutOpen(s.out, id))
  }

  /** NO_ERROR after END_STREAM only stops the upload (stopCompletedUpload). */
  function HandleReset(s: Client, id: Id, noError: bool): Client {
    if noError && id in s.recv.held.bodies && id in s.progress && s.progress[id].gotResp && s.progress[id].ended then
      Mark(s, id, s.progress[id].(uploadStopped := true)).(out := OutForget(s.out, id))
    else TearDown(s, id)
  }

  function FailAll(s: Client): Client {
    s.(live := false,
       recv := Abandon(s.recv),
       out := s.out.(closed := true, stream := map[]),
       pushes := map[])
  }

  function Handle(s: Client, e: Event): Client
    requires IsFrame(e)
  {
    match e
    case Data(id, payload, n, end) =>
      // the framer delivers no frame whose payload is longer than its length field
      if |payload| <= n then HandleData(s, id, payload, n, end) else s
    case Headers(id, informational, end) => HandleHeaders(s, id, informational, end)
    case PushPromise(id) => HandlePushPromise(s, id)
    case ResetStream(id, noError) => HandleReset(s, id, noError)
    case WindowUpdate(id, n) => s.(out := OutAdd(s.out, id, n))
    case InitialWindow(v) => s.(out := OutInitialWindow(s.out, v))
    case MaxFrame(v) => s.(out := OutMaxFrame(s.out, v))
    case Shutdown => FailAll(s)
  }

  function Step(s: Client, e: Event): Client {
    match e
    case RoundTrip(hasBody, writeFails) => StartRoundTrip(s, hasBody, writeFails)
    case GivesUp(id) => if id in s.progress then TearDown(s, id) else s
    case UploadEnds(id) => FinishUpload(s, id)
    case UploadFails(id) => if id in s.progress && !s.progress[id].uploadStopped then TearDown(s, id) else s
    case ResponseDone(id, closed) => FinishResponse(s, id, closed)
    case Read(id, room) => s.(recv := ReadBody(s.recv, id, room))
    case Send(id, want) => s.(out := OutTake(s.out, id, want, false).0)
    case _ => if s.live then Handle(s, e) else s
  }

  function Run(s: Client, es: seq<Event>): Client
    decreases |es|
  {
    if es == [] then s else Step(Run(s, es[..|es| - 1]), es[|es| - 1])
  }

  // ---------------------------------------------------------------- invariant

  ghost predicate TableOk(s: Client) {
    && s.nextID % 2 == 1
    && (forall id | id in s.recv.held.bodies :: id < s.nextID)
    && (forall id | id in s.recv.held.detached :: id < s.nextID)
    && s.pushes.Keys <= s.promised
    && s.out.stream.Keys <= s.recv.held.bodies.Keys + s.promised
    && (s.maxBody > 0 ==> forall id | id in s.pushes :: |s.pushes[id]| <= s.maxBody)
  }

  ghost predicate Inv(s: Client) {
    Sound(s.recv, s.promised) && TableOk(s)
  }

  lemma TearDownInv(s: Client, id: Id)
    requires Conserved(s.recv) && Released(s.recv) && StreamsConserved(s.recv, s.promised + {id}) && TableOk(s)
    ensures Inv(TearDown(s, id))
  {
    DropSound(s.recv, id, s.promised);
  }

  lemma TearDownSound(s: Client, id: Id)
    requires Inv(s)
    ensures Inv(TearDown(s, id))
  {
    assert StreamsConserved(s.recv, s.promised + {id});
    TearDownInv(s, id);
  }

  lemma OpenStreamInv(s: Client, hasBody: bool)
    requires Inv(s) && s.live
    ensures Inv(OpenStream(s, hasBody))
  {
    OpenSound(s.recv, s.nextID, NewBody, s.promised);
  }

  lemma StartRoundTripInv(s: Client, hasBody: bool, writeFails: bool)
    requires Inv(s)
    ensures Inv(StartRoundTrip(s, hasBody, writeFails))
  {
    if MayOpen(s) {
      OpenStreamInv(s, hasBody);
      TearDownSound(OpenStream(s, hasBody), s.nextID);
    }
  }

  lemma RetireInv(s: Client, id: Id)
    requires Inv(s)
    ensures Inv(Retire(s, id))
  {
    TearDownSound(s, id);
  }

  lemma CloseBodyInv(s: Client, id: Id)
    requires Inv(s)
    ensures Inv(s.(recv := CloseBody(s.recv, id)))
  {
    CloseBodySound(s.recv, id, s.promised);
    assert CloseBody(s.recv, id).held.bodies.Keys == s.recv.held.bodies.Keys;
    assert CloseBody(s.recv, id).held.detached.Keys == s.recv.held.detached.Keys;
  }

  lemma EndResponseInv(s: Client, id: Id)
    requires Inv(s)
    ensures Inv(EndResponse(s, id))
  {
    CloseBodyInv(s, id);
  }

  lemma FinishUploadInv(s: Client, id: Id)
    requires Inv(s)
    ensures Inv(FinishUpload(s, id))
  {
    if id in s.progress {
      RetireInv(Mark(s, id, s.progress[id].(uploadDone := true)), id);
    }
  }

  lemma FinishResponseInv(s: Client, id: Id, closed: bool)
    requires Inv(s)
    ensures Inv(FinishResponse(s, id, closed))
  {
    if id in s.progress {
      CloseBodyInv(s, id);
      var s' := Mark(s.(recv := if closed then CloseBody(s.recv, id) else s.recv), id,
          s.progress[id].(responseDone := true));
      assert Inv(s');
      RetireInv(s', id);
      TearDownSound(s', id);
    }
  }

  lemma FinishPushInv(s: Client, id: Id, truncated: bool)
    requires Inv(s)
    ensures Inv(FinishPush(s, id, truncated))
  {
    var s' := FinishPush(s, id, truncated);
    forall i | i in s'.recv.held.bodies && i !in s.promised
      ensures StreamConserved(s'.recv, i)
    {
      assert StreamConserved(s.recv, i);
    }
  }

  lemma HandlePushPromiseInv(s: Client, id: Id)
    requires Inv(s)
    ensures Inv(HandlePushPromise(s, id))
  {
    var s' := HandlePushPromise(s, id);
    forall i | i in s'.recv.held.bodies && i !in s'.promised
      ensures StreamConserved(s'.recv, i)
    {
      assert StreamConserved(s.recv, i);
    }
  }

  lemma PushDataInv(s: Client, id: Id, payload: seq<Byte>, n: nat, end: bool)
    requires Inv(s) && id in s.pushes && Verdict(s.recv, id, payload, n).Stray?
    ensures Inv(PushData(s, id, payload, n, end))
  {
    ReturnSound(s.recv, id, n, s.promised);
    ReturnBothSound(s.recv, id, n, s.promised);
    var kept := s.pushes[id];
    if payload != [] && s.maxBody > 0 && |kept| + |payload| > s.maxBody {
      var keep := s.maxBody - |kept|;
      var cut := if keep > 0 then kept + payload[..keep] else kept;
      var s' := s.(pushes := s.pushes[id := cut], recv := Return(s.recv, id, n));
      assert TableOk(s');
      FinishPushInv(s', id, true);
    } else {
      var s' := s.(pushes := s.pushes[id := kept + payload]);
      assert TableOk(s');
      if end {
        FinishPushInv(s'.(recv := Return(s.recv, id, n)), id, false);
      }
    }
  }

  lemma RefusedInv(s: Client, id: Id, n: nat)
    requires Inv(s) && n <= s.recv.inbound.conn
    ensures Inv(TearDown(s.(recv := Return(s.recv, id, n)), id))
  {
    ReturnSound(s.recv, id, n, s.promised);
    TearDownInv(s.(recv := Return(s.recv, id, n)), id);
  }

  lemma StrayInv(s: Client, id: Id, n: nat)
    requires Inv(s) && n <= s.recv.inbound.conn && id !in s.recv.held.bodies
    ensures Inv(s.(recv := Return(s.recv, id, n)))
  {
    ReturnSound(s.recv, id, n, s.promised);
  }

  lemma BufferedInv(s: Client, id: Id, payload: seq<Byte>, n: nat)
    requires |payload| <= n
    requires Inv(s) && Verdict(s.recv, id, payload, n).Buffered?
    ensures Inv(s.(recv := Buffer(s.recv, id, payload, n)))
  {
    BufferedSound(s.recv, id, payload, n, s.promised);
    assert Buffer(s.recv, id, payload, n).held.bodies.Keys == s.recv.held.bodies.Keys;
  }

  lemma DataInv(s: Client, id: Id, payload: seq<Byte>, n: nat, end: bool)
    requires |payload| <= n
    requires Inv(s)
    ensures HandleData(s, id, payload, n, end).live ==> Inv(HandleData(s, id, payload, n, end))
  {
    match Verdict(s.recv, id, payload, n)
    case Fatal =>
    case Refused => RefusedInv(s, id, n);
    case Stray =>
      if id in s.pushes {
        PushDataInv(s, id, payload, n, end);
      } else {
        StrayInv(s, id, n);
      }
    case Buffered =>
      BufferedInv(s, id, payload, n);
      EndResponseInv(s.(recv := Buffer(s.recv, id, payload, n)), id);
  }

  lemma HeadersInv(s: Client, id: Id, informational: bool, end: bool)
    requires Inv(s)
    ensures Inv(HandleHeaders(s, id, informational, end))
  {
    if id in s.recv.held.bodies {
      TearDownSound(s, id);
      var s' := if id in s.progress then Mark(s, id, s.progress[id].(gotResp := true)) else s;
      EndResponseInv(s', id);
    } else {
      FinishPushInv(s, id, false);
    }
  }

  lemma ReadInv(s: Client, id: Id, room: nat)
    requires Inv(s)
    ensures Inv(s.(recv := ReadBody(s.recv, id, room)))
  {
    ReadBodySound(s.recv, id, room, s.promised);
    assert ReadBody(s.recv, id, room).held.bodies.Keys == s.recv.held.bodies.Keys;
    assert ReadBody(s.recv, id, room).held.detached.Keys == s.recv.held.detached.Keys;
  }

  lemma FrameInv(s: Client, e: Event)
    requires Inv(s) && IsFrame(e)
    ensures Handle(s, e).live ==> Inv(Handle(s, e))
  {
    match e
    case Data(id, payload, n, end) =>
      if |payload| <= n {
        DataInv(s, id, payload, n, end);
      }
    case Headers(id, informational, end) => HeadersInv(s, id, informational, end);
    case PushPromise(id) => HandlePushPromiseInv(s, id);
    case ResetStream(id, noError) => TearDownSound(s, id);
    case _ =>
  }

  lemma StepInv(s: Client, e: Event)
    requires Inv(s) && s.live
    ensures Step(s, e).live ==> Inv(Step(s, e))
  {
    match e
    case RoundTrip(hasBody, writeFails) => StartRoundTripInv(s, hasBody, writeFails);
    case GivesUp(id) => TearDownSound(s, id);
    case UploadEnds(id) => FinishUploadInv(s, id);
    case UploadFails(id) => TearDownSound(s, id);
    case ResponseDone(id, closed) => FinishResponseInv(s, id, closed);
    case Read(id, room) => ReadInv(s, id, room);
    case Send(_, _) =>
    case _ => FrameInv(s, e);
  }

  lemma StepStaysDown(s: Client, e: Event)
    ensures Step(s, e).live ==> s.live
  {
  }

  lemma InitialInv(s: Client)
    requires Initial(s)
    ensures Inv(s)
  {
    NewSound(s.recv);
  }

  /** The invariant of every reachable state of a live connection. */
  lemma {:induction false} RunInv(s0: Client, es: seq<Event>)
    requires Initial(s0)
    ensures Run(s0, es).live ==> Inv(Run(s0, es))
    decreases |es|
  {
    if es == [] {
      InitialInv(s0);
    } else {
      var s := Run(s0, es[..|es| - 1]);
      RunInv(s0, es[..|es| - 1]);
      StepStaysDown(s, es[|es| - 1]);
      if s.live {
        StepInv(s, es[|es| - 1]);
      }
    }
  }

  /** Receive-window conservation on the origin hop. The connection law holds whatever the origin
      promises; the per-stream law holds for every request stream whose id was never promised. */
  lemma ReceiveWindowConservation(s0: Client, es: seq<Event>)
    requires Initial(s0)
    ensures
      var s := Run(s0, es);
      var r := s.recv;
      s.live ==>
        && r.inbound.conn + Unread(r.held.bodies) == INITIAL_WINDOW
        && Unread(r.held.bodies) <= INITIAL_WINDOW
        && r.credited == r.received - Unread(r.held.bodies)
        && (forall id | id in r.held.bodies && id !in s.promised ::
              id in r.inbound.stream && r.inbound.stream[id] + |r.held.bodies[id].buf| == INITIAL_WINDOW)
        && (s.maxBody > 0 ==> forall id | id in s.pushes :: |s.pushes[id]| <= s.maxBody)
  {
    RunInv(s0, es);
    var s := Run(s0, es);
    if s.live {
      forall id | id in s.recv.held.bodies && id !in s.promised
        ensures StreamConserved(s.recv, id)
      {
      }
    }
  }

  // ---------------------------------------------------------------- dead streams

  /** The id of a request stream that left the table. */
  ghost predicate Dead(s: Client, id: Id) {
    id % 2 == 1 && id < s.nextID && id !in s.recv.held.bodies
  }

  lemma DataKeepsDead(s: Client, id: Id, payload: seq<Byte>, n: nat, end: bool, dead: Id)
    requires |payload| <= n && Dead(s, dead)
    ensures Dead(HandleData(s, id, payload, n, end), dead) && HandleData(s, id, payload, n, end).nextID == s.nextID
  {
  }

  lemma FrameKeepsDead(s: Client, e: Event, id: Id)
    requires Dead(s, id) && IsFrame(e)
    ensures Dead(Handle(s, e), id) && Handle(s, e).nextID == s.nextID
  {
    if e.Data? && |e.payload| <= e.length {
      DataKeepsDead(s, e.id, e.payload, e.length, e.end, id);
    }
  }

  lemma TearDownKeepsDead(s: Client, torn: Id, id: Id)
    requires Dead(s, id)
    ensures Dead(TearDown(s, torn), id) && TearDown(s, torn).nextID == s.nextID
  {
  }

  lemma RoundTripKeepsDead(s: Client, hasBody: bool, writeFails: bool, id: Id)
    requires Dead(s, id) && s.nextID % 2 == 1
    ensures
      var t := StartRoundTrip(s, hasBody, writeFails);
      Dead(t, id) && t.nextID % 2 == 1
  {
    if MayOpen(s) && writeFails {
      TearDownKeepsDead(OpenStream(s, hasBody), s.nextID, id);
    }
  }

  lemma FinishKeepsDead(s: Client, done: Id, closed: bool, id: Id)
    requires Dead(s, id)
    ensures Dead(FinishUpload(s, done), id) && FinishUpload(s, done).nextID == s.nextID
    ensures Dead(FinishResponse(s, done, closed), id) && FinishResponse(s, done, closed).nextID == s.nextID
  {
  }

  lemma ReadKeepsDead(s: Client, from: Id, room: nat, id: Id)
    requires Dead(s, id)
    ensures Dead(s.(recv := ReadBody(s.recv, from, room)), id)
  {
  }

  lemma StepKeepsDead(s: Client, e: Event, id: Id)
    requires Dead(s, id) && s.nextID % 2 == 1
    ensures Dead(Step(s, e), id) && Step(s, e).nextID % 2 == 1
  {
    hide TearDown, StartRoundTrip, FinishUpload, FinishResponse, ReadBody, OutTake, Handle;
    match e
    case RoundTrip(hasBody, writeFails) => RoundTripKeepsDead(s, hasBody, writeFails, id);
    case GivesUp(x) => TearDownKeepsDead(s, x, id);
    case UploadEnds(x) => FinishKeepsDead(s, x, false, id);
    case UploadFails(x) => TearDownKeepsDead(s, x, id);
    case ResponseDone(x, closed) => FinishKeepsDead(s, x, closed, id);
    case Read(x, room) => ReadKeepsDead(s, x, room, id);
    case Send(_, _) =>
    case _ => FrameKeepsDead(s, e, id);
  }

  lemma {:induction false} DeadForever(s: Client, es: seq<Event>, id: Id)
    requires Dead(s, id) && s.nextID % 2 == 1
    ensures Dead(Run(s, es), id) && Run(s, es).nextID % 2 == 1
    decreases |es|
  {
    if es != [] {
      DeadForever(s, es[..|es| - 1], id);
      StepKeepsDead(Run(s, es[..|es| - 1]), es[|es| - 1], id);
    }
  }

  lemma {:induction false} RunConcat(s: Client, a: seq<Event>, b: seq<Event>)
    ensures Run(s, a + b) == Run(Run(s, a), b)
    decreases |b|
  {
    if b == [] {
      assert a + b == a;
    } else {
      assert (a + b)[..|a + b| - 1] == a + b[..|b| - 1];
      RunConcat(s, a, b[..|b| - 1]);
    }
  }

  lemma DeadIsInert(s: Client, id: Id)
    requires Inv(s) && s.live && Dead(s, id) && id !in s.promised
    ensures id !in s.out.stream
    ensures forall want :: Step(s, Send(id, want)) == s
    ensures forall n :: Step(s, WindowUpdate(id, n)) == s
  {
  }

  /** A dead request stream never spends or regains send window again: ids are allocated in strictly
      increasing odd order, so only a PUSH_PROMISE that reuses the id could give it a window. */
  lemma DeadStreamSpendsNothing(s0: Client, before: seq<Event>, after: seq<Event>, id: Id)
    requires Initial(s0) && Run(s0, before).live && Dead(Run(s0, before), id)
    ensures
      var s := Run(s0, before + after);
      s.live && id !in s.promised ==>
        && id !in s.recv.held.bodies
        && id !in s.out.stream
        && (forall want :: Step(s, Send(id, want)) == s)
        && (forall n :: Step(s, WindowUpdate(id, n)) == s)
  {
    RunConcat(s0, before, after);
    RunInv(s0, before);
    DeadForever(Run(s0, before), after, id);
    RunInv(s0, before + after);
    var s := Run(s0, before + after);
    if s.live && id !in s.promised {
      DeadIsInert(s, id);
    }
  }

  /** That exception is real as well: a dead id gets a send window again exactly when it is promised while
      pushes are captured and the windows are open. handlePushPromise does not look at the id. */
  lemma PromiseRevivesDeadIff(s: Client, id: Id)
    requires Inv(s) && s.live && Dead(s, id) && id !in s.promised
    ensures id in Step(s, PushPromise(id)).out.stream <==> s.capturePush && !s.out.closed
  {
    DeadIsInert(s, id);
  }

  lemma RunOfThree(s: Client, a: Event, b: Event, c: Event)
    ensures Run(s, [a, b, c]) == Step(Step(Step(s, a), b), c)
  {
    assert [a, b, c][..2] == [a, b] && [a, b][..1] == [a] && [a][..0] == [];
    assert Run(s, [a]) == Step(s, a);
    assert Run(s, [a, b]) == Step(Run(s, [a]), b);
  }

  lemma ResetAfterRequest(s0: Client)
    requires Initial(s0)
    ensures
      var s := Step(Step(s0, RoundTrip(true, false)), ResetStream(1, false));
      && s.live && Dead(s, 1) && s.capturePush == s0.capturePush
      && s.out == s0.out && 1 !in s.out.stream && !s.out.closed
  {
    var s1 := Step(s0, RoundTrip(true, false));
    assert s1.out.stream == map[1 := s0.out.initStream];
    assert s1.out.stream - {1} == map[];
  }

  /** It is reached in three steps: an upload is reset, the origin promises its id, and the upload, still
      waiting for window, spends a byte of the connection window on a stream that is gone. */
  lemma RevivedStreamSpends(s0: Client)
    requires Initial(s0) && s0.capturePush
    ensures
      var s := Run(s0, [RoundTrip(true, false), ResetStream(1, false), PushPromise(1)]);
      && s.live && Dead(s, 1) && 1 in s.out.stream
      && Step(s, Send(1, 1)).out.conn == s.out.conn - 1
  {
    RunOfThree(s0, RoundTrip(true, false), ResetStream(1, false), PushPromise(1));
    ResetAfterRequest(s0);
  }

  /** The receive windows have their exception too: promising the id of a live request stream resets its receive window
      while the stream's bytes are still unread. */
  lemma PromisedRequestIdBreaksStreamLaw(s: Client, id: Id)
    requires Inv(s) && s.live && s.capturePush && id in s.recv.held.bodies
    ensures
      var t := Step(s, PushPromise(id));
      (t.recv.inbound.stream[id] + |t.recv.held.bodies[id].buf| == INITIAL_WINDOW) <==> s.recv.held.bodies[id].buf == []
  {
  }

  /** It is reached in three steps: a request, one byte of its response, and a promise of its own id. */
  lemma BrokenStreamLawIsReached(s0: Client)
    requires Initial(s0) && s0.capturePush
    ensures
      var s := Run(s0, [RoundTrip(false, false), Data(1, [7], 1, false), PushPromise(1)]);
      s.live && 1 in s.recv.held.bodies && !StreamConserved(s.recv, 1)
  {
    var a, b := RoundTrip(false, false), Data(1, [7], 1, false);
    RunOfThree(s0, a, b, PushPromise(1));
    ByteAfterRequest(s0);
    hide HandleData, StartRoundTrip;
  }

  lemma ByteAfterRequest(s0: Client)
    requires Initial(s0)
    ensures
      var s := Step(Step(s0, RoundTrip(false, false)), Data(1, [7], 1, false));
      && s.live && s.capturePush == s0.capturePush
      && 1 in s.recv.held.bodies && s.recv.held.bodies[1].buf == [7]
  {
    var s1 := Step(s0, RoundTrip(false, false));
    assert s1.live && 1 in s1.recv.held.bodies && s1.recv.held.bodies[1].buf == [];
  }
}
