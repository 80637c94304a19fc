/**
 What the client side of an HTTP/2 hop (OriginConn in internal/http2x/origin_conn.go) does with the bytes
 and the frames of a run, told from its events: which bytes the readers of responses get, what is
 captured of server pushes, when streams leave their tables, and what send windows are left.
 */
module OriginDelivery {
  import opened B = Bytes
  import opened Windows
  import opened Receive
  import opened Delivery
  import opened OriginConn

  // ---------------------------------------------------------------- response bodies

  /** A live connection handles a DATA frame of this stream. */
  predicate Gets(s: Client, e: Event, id: Id) {
    s.live && e.Data? && e.id == id && |e.payload| <= e.length
  }

  /** The event is a DATA frame whose payload the body of its stream takes. */
  predicate Takes(s: Client, e: Event, id: Id) {
    Gets(s, e, id) && Accepts(s.recv, id, e.payload, e.length)
  }

  /** The payloads of a stream's accepted DATA frames, in arrival order. */
  function Arrived(s0: Client, es: seq<Event>, id: Id): seq<Byte>
    decreases |es|
  {
    if es == [] then []
    else
      var k := |es| - 1;
      Arrived(s0, es[..k], id) + if Takes(Run(s0, es[..k]), es[k], id) then es[k].payload else []
  }

  /** The bytes its Reads handed out. */
  function HandedOut(s0: Client, es: seq<Event>, id: Id): seq<Byte>
    decreases |es|
  {
    if es == [] then []
    else
      var k := |es| - 1;
      HandedOut(s0, es[..k], id)
      + if es[k].Read? && es[k].id == id then Front(Left(Run(s0, es[..k]).recv, id), es[k].room) else []
  }

  lemma TearDownKeepsLeft(s: Client, id: Id)
    ensures SameLeft(s.recv, TearDown(s, id).recv)
  {
    DropKeepsLeft(s.recv, id);
  }

  lemma OpenStreamLeft(s: Client, hasBody: bool)
    requires s.live ==> Inv(s)
    ensures MayOpen(s) ==>
      forall x :: Left(OpenStream(s, hasBody).recv, x) == Left(s.recv, x)
  {
    if MayOpen(s) {
      OpenLeft(s.recv, s.nextID, NewBody);
    }
  }

  lemma StartLeft(s: Client, hasBody: bool, writeFails: bool)
    requires s.live ==> Inv(s)
    ensures forall x :: Left(StartRoundTrip(s, hasBody, writeFails).recv, x) == Left(s.recv, x)
  {
    hide OpenStream, TearDown, Left, Inv;
    if MayOpen(s) {
      OpenStreamLeft(s, hasBody);
      TearDownKeepsLeft(OpenStream(s, hasBody), s.nextID);
    }
  }

  lemma RetireKeepsLeft(s: Client, id: Id)
    ensures SameLeft(s.recv, Retire(s, id).recv)
  {
    TearDownKeepsLeft(s, id);
  }

  lemma FinishResponseLeft(s: Client, id: Id, closed: bool)
    ensures SameLeft(s.recv, FinishResponse(s, id, closed).recv)
  {
    if id in s.progress {
      var s' := Mark(s.(recv := if closed then CloseBody(s.recv, id) else s.recv), id,
          s.progress[id].(responseDone := true));
      CloseKeepsLeft(s.recv, id);
      RetireKeepsLeft(s', id);
      TearDownKeepsLeft(s', id);
    }
  }

  lemma PushDataLeft(s: Client, id: Id, payload: seq<Byte>, n: nat, end: bool)
    requires id in s.pushes
    ensures SameLeft(s.recv, PushData(s, id, payload, n, end).recv)
  {
  }

  lemma DataLeft(s: Client, e: Event, id: Id)
    requires e.Data? && s.live
    ensures Left(Step(s, e).recv, id) == Left(s.recv, id) + if Takes(s, e, id) then e.payload else []
  {
    if |e.payload| <= e.length {
      VerdictExactly(s.recv, e.id, e.payload, e.length);
      hide Left, Known, TearDown, EndResponse, Buffer, Return, FailAll, Accepts, PushData;
      match Verdict(s.recv, e.id, e.payload, e.length)
      case Fatal => FailAllLeft(s);
      case Refused =>
        WindowsKeepLeft(s.recv, e.id, e.length);
        TearDownKeepsLeft(s.(recv := Return(s.recv, e.id, e.length)), e.id);
      case Stray =>
        WindowsKeepLeft(s.recv, e.id, e.length);
        if e.id in s.pushes {
          PushDataLeft(s, e.id, e.payload, e.length, e.end);
        }
      case Buffered =>
        BufferLeft(s.recv, e.id, e.payload, e.length);
        EndResponseLeft(s.(recv := Buffer(s.recv, e.id, e.payload, e.length)), e.id);
    }
  }

  lemma FailAllLeft(s: Client)
    ensures SameLeft(s.recv, FailAll(s).recv)
  {
    AbandonKeepsLeft(s.recv);
  }

  lemma EndResponseLeft(s: Client, id: Id)
    ensures SameLeft(s.recv, EndResponse(s, id).recv)
  {
    CloseKeepsLeft(s.recv, id);
  }

  lemma HeadersLeft(s: Client, id: Id, informational: bool, end: bool)
    ensures SameLeft(s.recv, HandleHeaders(s, id, informational, end).recv)
  {
    hide TearDown, EndResponse;
    TearDownKeepsLeft(s, id);
    EndResponseLeft(if id in s.progress then Mark(s, id, s.progress[id].(gotResp := true)) else s, id);
  }

  lemma FrameLeft(s: Client, e: Event)
    requires IsFrame(e) && !e.Data?
    ensures SameLeft(s.recv, Handle(s, e).recv)
  {
    hide HandleHeaders, TearDown, FailAll, OutAdd, OutInitialWindow, OutMaxFrame;
    match e
    case Headers(id, informational, end) => HeadersLeft(s, id, informational, end);
    case ResetStream(id, _) => TearDownKeepsLeft(s, id);
    case Shutdown => FailAllLeft(s);
    case _ =>
  }

  /** What one event does to the unread bytes of a stream. */
  lemma StepLeft(s: Client, e: Event, id: Id)
    requires s.live ==> Inv(s)
    ensures
      var now := Left(Step(s, e).recv, id);
      if Takes(s, e, id) then now == Left(s.recv, id) + e.payload
      else if e.Read? && e.id == id then Front(Left(s.recv, id), e.room) + now == Left(s.recv, id)
      else now == Left(s.recv, id)
  {
    hide Left, TearDown, Retire, StartRoundTrip, FinishUpload, FinishResponse, Handle, Inv, OutTake, ReadBody, Accepts;
    match e
    case RoundTrip(hasBody, writeFails) => StartLeft(s, hasBody, writeFails);
    case GivesUp(x) => TearDownKeepsLeft(s, x);
    case UploadEnds(x) => UploadEndsLeft(s, x);
    case UploadFails(x) => TearDownKeepsLeft(s, x);
    case ResponseDone(x, closed) => FinishResponseLeft(s, x, closed);
    case Read(x, room) => ReadLeft(s.recv, x, room);
    case Send(_, _) =>
    case Data(_, _, _, _) =>
      if s.live {
        DataLeft(s, e, id);
      }
    case _ => FrameLeft(s, e);
  }

  lemma UploadEndsLeft(s: Client, id: Id)
    ensures SameLeft(s.recv, FinishUpload(s, id).recv)
  {
    if id in s.progress {
      RetireKeepsLeft(Mark(s, id, s.progress[id].(uploadDone := true)), id);
    }
  }

  /** Nothing of a response is lost, invented or reordered: in every run, for every stream, the bytes its Reads
      handed out and then those still buffered are the payloads of its accepted DATA frames in arrival order,
      whatever the origin promises, and also after the stream or the connection is gone. */
  lemma {:induction false} BytesArriveInOrder(s0: Client, es: seq<Event>, id: Id)
    requires Initial(s0)
    ensures HandedOut(s0, es, id) + Left(Run(s0, es).recv, id) == Arrived(s0, es, id)
    decreases |es|
  {
    if es != [] {
      var k := |es| - 1;
      var s := Run(s0, es[..k]);
      BytesArriveInOrder(s0, es[..k], id);
      RunInv(s0, es[..k]);
      StepLeft(s, es[k], id);
      var out, was := HandedOut(s0, es[..k], id), Left(s.recv, id);
      Reassociate(out, Front(was, if es[k].Read? then es[k].room else 0), Left(Step(s, es[k]).recv, id));
      if Takes(s, es[k], id) {
        Reassociate(out, was, es[k].payload);
      }
    }
  }

  // ---------------------------------------------------------------- captured pushes

  /** A promise that is captured. */
  predicate Promises(s: Client, e: Event, id: Id) {
    s.live && e == PushPromise(id) && s.capturePush
  }

  /** A DATA frame of an awaited push that fits the windows. */
  predicate PushTakes(s: Client, e: Event, id: Id) {
    Gets(s, e, id) && FitsWindows(s.recv, id, e.length) && id !in s.recv.held.bodies && id in s.pushes
  }

  /** HEADERS that end an awaited push. */
  predicate PushEnds(s: Client, e: Event, id: Id) {
    s.live && e.Headers? && e.id == id && e.end && id !in s.recv.held.bodies && id in s.pushes
  }

  /** What OnPush is handed by an event, given the payloads its push had sent before: all of them, unless they
      outgrow the cap; then as much as the cap allows, at once. */
  function Caught(s: Client, e: Event, before: seq<Byte>): seq<Pushed> {
    if e.Data? && PushTakes(s, e, e.id) then
      var all := before + e.payload;
      if e.payload != [] && 0 < s.maxBody < |all| then [Pushed(e.id, all[..s.maxBody], true)]
      else if e.end then [Pushed(e.id, all, false)]
      else []
    else if e.Headers? && PushEnds(s, e, e.id) then [Pushed(e.id, before, false)]
    else []
  }

  predicate Captures(s: Client, e: Event, id: Id) {
    if e.Data? && PushTakes(s, e, id) then
      e.end || (e.payload != [] && 0 < s.maxBody < |s.pushes[id]| + |e.payload|)
    else PushEnds(s, e, id)
  }

  /** The payloads of a push since its latest promise, in arrival order. */
  function PushArrived(s0: Client, es: seq<Event>, id: Id): seq<Byte>
    decreases |es|
  {
    if es == [] then []
    else
      var s, e := Run(s0, es[..|es| - 1]), es[|es| - 1];
      if Promises(s, e, id) then []
      else PushArrived(s0, es[..|es| - 1], id) + if PushTakes(s, e, id) then e.payload else []
  }

  function AllCaught(s0: Client, es: seq<Event>): seq<Pushed>
    decreases |es|
  {
    if es == [] then []
    else
      var s, e := Run(s0, es[..|es| - 1]), es[|es| - 1];
      AllCaught(s0, es[..|es| - 1])
      + if e.Data? || e.Headers? then Caught(s, e, PushArrived(s0, es[..|es| - 1], e.id)) else []
  }

  /** What one event does to the awaited pushes and to what OnPush was handed. */
  ghost predicate PushesAfter(s: Client, e: Event, t: Client) {
    && (forall id :: id in t.pushes ==>
          if Promises(s, e, id) then t.pushes[id] == []
          else id in s.pushes && t.pushes[id] == s.pushes[id] + if PushTakes(s, e, id) then e.payload else [])
    && t.captured == s.captured
         + if (e.Data? || e.Headers?) && e.id in s.pushes then Caught(s, e, s.pushes[e.id]) else []
  }

  predicate SamePushes(s: Client, t: Client) {
    t.captured == s.captured && forall id | id in t.pushes :: id in s.pushes && t.pushes[id] == s.pushes[id]
  }

  lemma TearDownPushes(s: Client, id: Id)
    ensures SamePushes(s, TearDown(s, id)) && SamePushes(s, FailAll(s))
  {
  }

  lemma OtherPushes(s: Client, e: Event)
    requires !e.Data? && !e.Headers? && !e.PushPromise?
    ensures SamePushes(s, Step(s, e))
  {
    hide Drop, OutForget, OutTake, OutAdd, OutInitialWindow, OutMaxFrame, CloseBody, ReadBody, Open, OutOpen, Abandon;
  }

  lemma PushDataAfter(s: Client, e: Event)
    requires e.Data? && Gets(s, e, e.id) && Inv(s) && PushTakes(s, e, e.id)
    ensures PushesAfter(s, e, PushData(s, e.id, e.payload, e.length, e.end))
  {
    hide Sound, Return, Credit, Charge, InForget, OutForget, FitsWindows;
    var kept := s.pushes[e.id];
    if e.payload != [] && s.maxBody > 0 && |kept| + |e.payload| > s.maxBody {
      assert (kept + e.payload)[..s.maxBody] == kept + e.payload[..s.maxBody - |kept|];
    }
  }

  lemma Untouched(s: Client, e: Event, t: Client)
    requires SamePushes(s, t)
    requires e.Data? && !PushTakes(s, e, e.id)
    ensures PushesAfter(s, e, t)
  {
    hide FitsWindows;
  }

  lemma DataPushes(s: Client, e: Event)
    requires e.Data? && Gets(s, e, e.id) && Inv(s)
    ensures PushesAfter(s, e, Step(s, e))
  {
    VerdictExactly(s.recv, e.id, e.payload, e.length);
    hide Return, Buffer, TearDown, FailAll, Inv, PushData, Accepts, PushesAfter, FitsWindows, Verdict;
    match Verdict(s.recv, e.id, e.payload, e.length)
    case Fatal =>
      assert !FitsWindows(s.recv, e.id, e.length) by {
        FatalNeverFits(s.recv, e.id, e.length);
      }
      TearDownPushes(s, e.id);
      Untouched(s, e, Step(s, e));
    case Refused =>
      TearDownPushes(s.(recv := Return(s.recv, e.id, e.length)), e.id);
      Untouched(s, e, Step(s, e));
    case Stray =>
      if e.id in s.pushes {
        PushDataAfter(s, e);
      } else {
        Untouched(s, e, Step(s, e));
      }
    case Buffered =>
      BufferedPushes(s, e);
      Untouched(s, e, Step(s, e));
  }

  lemma FatalNeverFits(r: Recv, id: Id, n: nat)
    requires n > r.inbound.conn
    ensures !FitsWindows(r, id, n)
  {
  }

  lemma BufferedPushes(s: Client, e: Event)
    requires e.Data? && Gets(s, e, e.id) && Verdict(s.recv, e.id, e.payload, e.length).Buffered?
    ensures SamePushes(s, Step(s, e))
    ensures e.id in s.recv.held.bodies
  {
    hide Buffer, CloseBody;
  }

  lemma HeadersPushes(s: Client, e: Event)
    requires e.Headers? && s.live
    ensures PushesAfter(s, e, Step(s, e))
  {
    hide Drop, OutForget, CloseBody, InForget;
  }

  lemma StepPushes(s: Client, e: Event)
    requires s.live ==> Inv(s)
    ensures PushesAfter(s, e, Step(s, e))
  {
    hide Inv, Step, PushesAfter;
    if e.Data? && s.live && |e.payload| <= e.length {
      DataPushes(s, e);
    } else if e.Headers? && s.live {
      HeadersPushes(s, e);
    } else {
      RestPushes(s, e);
    }
  }

  lemma PromisePushes(s: Client, e: Event)
    requires e.PushPromise?
    ensures PushesAfter(s, e, Step(s, e))
  {
    hide OutOpen, InOpen;
  }

  lemma RestPushes(s: Client, e: Event)
    requires !(e.Data? && s.live && |e.payload| <= e.length) && !(e.Headers? && s.live)
    ensures PushesAfter(s, e, Step(s, e))
  {
    if e.PushPromise? {
      PromisePushes(s, e);
    } else if e.Data? || e.Headers? {
      assert Step(s, e) == s;
    } else {
      OtherPushes(s, e);
      hide Step;
    }
  }

  /** Over every run an awaited push holds exactly the payloads since its promise, and OnPush was handed, in
      order, each push that ended or outgrew the cap: whole, or cut at the cap and marked so. */
  lemma {:induction false} PushesArrive(s0: Client, es: seq<Event>, id: Id)
    requires Initial(s0)
    ensures id in Run(s0, es).pushes ==> Run(s0, es).pushes[id] == PushArrived(s0, es, id)
    ensures Run(s0, es).captured == AllCaught(s0, es)
    decreases |es|
  {
    if es != [] {
      var k := |es| - 1;
      var s, e := Run(s0, es[..k]), es[k];
      PushesArrive(s0, es[..k], id);
      if e.Data? || e.Headers? {
        PushesArrive(s0, es[..k], e.id);
      }
      RunInv(s0, es[..k]);
      StepPushes(s, e);
      hide Step, Inv;
    }
  }

  // ---------------------------------------------------------------- the tables

  /** A RoundTrip that gets a stream and sends its HEADERS. */
  predicate Opens(s: Client, e: Event, id: Id) {
    e.RoundTrip? && !e.writeFails && MayOpen(s) && id == s.nextID
  }

  /** The connection dies of a DATA frame beyond its window or by shutdown. */
  predicate Kills(s: Client, e: Event) {
    s.live && (e.Shutdown? || (e.Data? && |e.payload| <= e.length && e.length > s.recv.inbound.conn))
  }

  /** NO_ERROR behind a complete response stops the upload and keeps the response. */
  predicate StopsUpload(s: Client, e: Event, id: Id) {
    && s.live && e == ResetStream(id, true) && id in s.recv.held.bodies && id in s.progress
    && s.progress[id].gotResp && s.progress[id].ended
  }

  /** The event tears a stream down: its request fails, its caller gives up or lets go of the response before
      its end, it is reset, it receives DATA it may not, an informational response ends it, or the later of
      upload and response is done. */
  predicate Torn(s: Client, e: Event, id: Id) {
    match e
    case RoundTrip(_, writeFails) => writeFails && MayOpen(s) && id == s.nextID
    case GivesUp(x) => x == id && id in s.progress
    case UploadEnds(x) => x == id && id in s.recv.held.bodies && id in s.progress && s.progress[id].responseDone
    case UploadFails(x) => x == id && id in s.progress && !s.progress[id].uploadStopped
    case ResponseDone(x, _) => x == id && id in s.progress && (!s.progress[id].ended || s.progress[id].uploadDone)
    case Data(_, payload, n, _) =>
      && Gets(s, e, id) && n <= s.recv.inbound.conn
      && (!FitsWindows(s.recv, id, n) || (id in s.recv.held.bodies && !Takes(s, e, id)))
    case Headers(x, informational, end) => x == id && s.live && id in s.recv.held.bodies && informational && end
    case ResetStream(x, _) => x == id && s.live && !StopsUpload(s, e, id)
    case _ => false
  }

  /** Both tables after one event, exactly. */
  ghost predicate TablesAfter(s: Client, e: Event, t: Client) {
    && (t.live <==> s.live && !Kills(s, e))
    && (t.live ==> forall id :: id in t.recv.held.bodies <==>
          Opens(s, e, id) || (id in s.recv.held.bodies && !Torn(s, e, id)))
    && (t.live ==> forall id :: id in t.pushes <==>
          Promises(s, e, id) || (id in s.pushes && !Torn(s, e, id) && !Captures(s, e, id)))
  }

  predicate SameTables(s: Client, t: Client) {
    t.live == s.live && t.pushes.Keys == s.pushes.Keys && t.recv.held.bodies.Keys == s.recv.held.bodies.Keys
  }

  predicate WithoutStream(s: Client, t: Client, id: Id) {
    && t.live == s.live && t.pushes.Keys == s.pushes.Keys - {id}
    && t.recv.held.bodies.Keys == s.recv.held.bodies.Keys - {id}
  }

  lemma TearDownTables(s: Client, id: Id)
    ensures WithoutStream(s, TearDown(s, id), id)
  {
  }

  lemma StartTables(s: Client, e: Event)
    requires e.RoundTrip?
    ensures TablesAfter(s, e, Step(s, e))
  {
    hide TearDown, InOpen, OutOpen;
    if MayOpen(s) {
      TearDownTables(OpenStream(s, e.hasBody), s.nextID);
    }
  }

  lemma UploadEndsTables(s: Client, e: Event)
    requires e.UploadEnds?
    ensures TablesAfter(s, e, Step(s, e))
  {
    hide TearDown;
    if e.id in s.progress {
      TearDownTables(Mark(s, e.id, s.progress[e.id].(uploadDone := true)), e.id);
    }
  }

  lemma CloseTables(s: Client, id: Id)
    ensures CloseBody(s.recv, id).held.bodies.Keys == s.recv.held.bodies.Keys
  {
  }

  lemma ResponseDoneTables(s: Client, e: Event)
    requires e.ResponseDone?
    ensures TablesAfter(s, e, Step(s, e))
  {
    hide TearDown, CloseBody;
    CloseTables(s, e.id);
    if e.id in s.progress {
      TearDownTables(Mark(s.(recv := if e.closed then CloseBody(s.recv, e.id) else s.recv), e.id,
          s.progress[e.id].(responseDone := true)), e.id);
    }
  }

  lemma ResetTables(s: Client, e: Event)
    requires e.GivesUp? || e.UploadFails? || e.ResetStream?
    ensures TablesAfter(s, e, Step(s, e))
  {
    hide TearDown, OutForget;
    TearDownTables(s, e.id);
  }

  lemma ResponseHeadersTables(s: Client, e: Event)
    requires e.Headers? && s.live && e.id in s.recv.held.bodies
    ensures TablesAfter(s, e, Step(s, e))
  {
    hide TearDown, CloseBody;
    TearDownTables(s, e.id);
    CloseTables(s, e.id);
  }

  lemma HeadersTables(s: Client, e: Event)
    requires e.Headers? && !(s.live && e.id in s.recv.held.bodies)
    ensures TablesAfter(s, e, Step(s, e))
  {
    hide TearDown, CloseBody, OutForget, InForget, EndResponse;
    assert forall id :: !Torn(s, e, id) && !Opens(s, e, id) && !Promises(s, e, id);
  }

  lemma BufferedTables(s: Client, e: Event)
    requires e.Data? && Gets(s, e, e.id) && Takes(s, e, e.id)
    ensures SameTables(s, Step(s, e))
  {
    VerdictExactly(s.recv, e.id, e.payload, e.length);
    hide Accepts, Verdict, BodyWrite, FitsWindows, InCredit, InTaken;
  }

  lemma PushDataTables(s: Client, e: Event)
    requires e.Data? && e.id in s.pushes
    requires PushTakes(s, e, e.id)
    ensures TablesAfter(s, e, PushData(s, e.id, e.payload, e.length, e.end))
  {
    hide InForget, OutForget, InCredit, InTaken, Accepts;
  }

  lemma DataTables(s: Client, e: Event)
    requires e.Data? && Gets(s, e, e.id)
    ensures TablesAfter(s, e, Step(s, e))
  {
    VerdictExactly(s.recv, e.id, e.payload, e.length);
    hide Return, Buffer, TearDown, PushData, Accepts, Verdict, FitsWindows, EndResponse;
    match Verdict(s.recv, e.id, e.payload, e.length)
    case Fatal => FatalNeverFits(s.recv, e.id, e.length);
    case Refused => RefusedTables(s, e);
    case Stray =>
      if e.id in s.pushes {
        PushDataTables(s, e);
      }
    case Buffered =>
      BufferedTables(s, e);
      hide Step;
  }

  lemma RefusedTables(s: Client, e: Event)
    requires e.Data? && Gets(s, e, e.id) && Verdict(s.recv, e.id, e.payload, e.length).Refused?
    ensures TablesAfter(s, e, Step(s, e))
  {
    VerdictExactly(s.recv, e.id, e.payload, e.length);
    hide Return, Buffer, TearDown, PushData, Accepts, FitsWindows, EndResponse;
    TearDownTables(s.(recv := Return(s.recv, e.id, e.length)), e.id);
  }

  lemma RestTables(s: Client, e: Event)
    requires e.Read? || e.Send? || e.PushPromise? || e.WindowUpdate? || e.InitialWindow? || e.MaxFrame? || e.Shutdown?
    ensures TablesAfter(s, e, Step(s, e))
  {
    hide InCredit, OutTake, OutAdd, OutInitialWindow, OutMaxFrame, OutOpen, InOpen;
  }

  lemma StepTables(s: Client, e: Event)
    ensures TablesAfter(s, e, Step(s, e))
  {
    hide Step, TablesAfter, Torn, Kills;
    match e
    case RoundTrip(_, _) => StartTables(s, e);
    case UploadEnds(_) => UploadEndsTables(s, e);
    case ResponseDone(_, _) => ResponseDoneTables(s, e);
    case GivesUp(_) => ResetTables(s, e);
    case UploadFails(_) => ResetTables(s, e);
    case ResetStream(_, _) => ResetTables(s, e);
    case Headers(id, _, _) =>
      if s.live && id in s.recv.held.bodies {
        ResponseHeadersTables(s, e);
      } else {
        HeadersTables(s, e);
      }
    case Data(id, payload, n, _) =>
      if s.live && |payload| <= n {
        DataTables(s, e);
      } else {
        IdleTables(s, e);
      }
    case _ => RestTables(s, e);
  }

  lemma IdleTables(s: Client, e: Event)
    requires e.Data? && !Gets(s, e, e.id)
    ensures TablesAfter(s, e, Step(s, e))
  {
    hide FitsWindows, HandleData;
    assert Step(s, e) == s;
  }

  // ---------------------------------------------------------------- stories

  /** What a run has done to a request stream: its response began, the origin ended it, its reader closed it, its
      upload is stopped, its upload is done, its response was let go of. */
  datatype Story = Story(got: bool, ended: bool, closed: bool, stopped: bool, uploadDone: bool, responseDone: bool)

  /** A response's HEADERS, or its trailers. */
  predicate Heads(s: Client, e: Event, id: Id) {
    s.live && e.Headers? && e.id == id && !e.informational && id in s.recv.held.bodies
  }

  /** END_STREAM on accepted DATA or on HEADERS. */
  predicate Ends(s: Client, e: Event, id: Id) {
    (e.Data? && Takes(s, e, id) && e.end) || (e.Headers? && Heads(s, e, id) && e.end)
  }

  function Told(s: Client, e: Event, id: Id, was: Story): Story {
    if e.RoundTrip? && Opens(s, e, id) then Story(false, false, false, false, !e.hasBody, false)
    else if e.Headers? || e.Data? then
      was.(got := was.got || (e.Headers? && Heads(s, e, id)), ended := was.ended || Ends(s, e, id))
    else if e.ResponseDone? && e.id == id then was.(closed := was.closed || e.closed, responseDone := true)
    else if e.UploadEnds? && e.id == id then was.(uploadDone := true)
    else if e.ResetStream? && StopsUpload(s, e, id) then was.(stopped := true)
    else was
  }

  function StoryOf(s0: Client, es: seq<Event>, id: Id): Story
    decreases |es|
  {
    if es == [] then Story(false, false, false, false, false, false)
    else Told(Run(s0, es[..|es| - 1]), es[|es| - 1], id, StoryOf(s0, es[..|es| - 1], id))
  }

  /** A request stream in the table tells its story, and is not kept longer than its two halves need it. */
  predicate Tells(s: Client, id: Id, story: Story) {
    id in s.recv.held.bodies ==>
      && id in s.progress
      && (s.recv.held.bodies[id].closed <==> story.ended || story.closed)
      && var p := s.progress[id];
      && (p.gotResp <==> story.got) && (p.ended <==> story.ended) && (p.uploadStopped <==> story.stopped)
      && (p.uploadDone <==> story.uploadDone) && (p.responseDone <==> story.responseDone)
      && (story.responseDone ==> story.ended && !story.uploadDone)
  }

  /** Nothing happened to a stream, or it is gone. */
  predicate SameStream(s: Client, t: Client, id: Id) {
    id in t.recv.held.bodies ==>
      && id in s.recv.held.bodies && t.recv.held.bodies[id].closed == s.recv.held.bodies[id].closed
      && (id in s.progress ==> id in t.progress && t.progress[id] == s.progress[id])
  }

  lemma SameTells(s: Client, t: Client, id: Id, story: Story)
    requires Tells(s, id, story) && SameStream(s, t, id)
    ensures Tells(t, id, story)
  {
  }

  lemma TearDownSame(s: Client, torn: Id, id: Id)
    ensures SameStream(s, TearDown(s, torn), id)
    ensures torn !in TearDown(s, torn).recv.held.bodies
  {
  }

  /** Events that name another stream. */
  predicate Elsewhere(s: Client, e: Event, id: Id) {
    match e
    case RoundTrip(_, _) => id != s.nextID
    case Shutdown => false
    case InitialWindow(_) => true
    case MaxFrame(_) => true
    case _ => e.id != id
  }

  lemma ElsewhereTold(s: Client, e: Event, id: Id, story: Story)
    requires Elsewhere(s, e, id)
    ensures Told(s, e, id, story) == story
  {
    hide Accepts;
  }

  lemma StartSame(s: Client, e: Event, id: Id)
    requires e.RoundTrip? && id != s.nextID
    ensures SameStream(s, Step(s, e), id)
  {
    hide TearDown, InOpen, OutOpen;
    TearDownSame(OpenStream(s, e.hasBody), s.nextID, id);
  }

  lemma UploadEndsSame(s: Client, e: Event, id: Id)
    requires e.UploadEnds? && e.id != id
    ensures SameStream(s, Step(s, e), id)
  {
    hide TearDown;
    if e.id in s.progress {
      TearDownSame(Mark(s, e.id, s.progress[e.id].(uploadDone := true)), e.id, id);
    }
  }

  lemma ResponseDoneSame(s: Client, e: Event, id: Id)
    requires e.ResponseDone? && e.id != id
    ensures SameStream(s, Step(s, e), id)
  {
    hide TearDown;
    if e.id in s.progress {
      TearDownSame(Mark(s.(recv := if e.closed then CloseBody(s.recv, e.id) else s.recv), e.id,
          s.progress[e.id].(responseDone := true)), e.id, id);
    }
  }

  lemma HeadersSame(s: Client, e: Event, id: Id)
    requires e.Headers? && e.id != id
    ensures SameStream(s, Step(s, e), id)
  {
    hide TearDown, OutForget, InForget;
    TearDownSame(s, e.id, id);
  }

  lemma DataSame(s: Client, e: Event, id: Id)
    requires e.Data? && Gets(s, e, e.id) && e.id != id
    ensures SameStream(s, Step(s, e), id)
  {
    hide TearDown, Verdict, PushData, InCredit, InTaken, Abandon;
    TearDownSame(s.(recv := Return(s.recv, e.id, e.length)), e.id, id);
    if e.id in s.pushes {
      PushDataSame(s, e, id);
    }
    FailAllSame(s, id);
    hide FailAll;
  }

  lemma FailAllSame(s: Client, id: Id)
    ensures SameStream(s, FailAll(s), id)
  {
  }

  lemma PushDataSame(s: Client, e: Event, id: Id)
    requires e.Data? && e.id in s.pushes
    ensures SameStream(s, PushData(s, e.id, e.payload, e.length, e.end), id)
  {
    hide InForget, OutForget, InCredit, InTaken;
  }

  lemma RestSame(s: Client, e: Event, id: Id)
    requires e.Read? || e.Send? || e.PushPromise? || e.WindowUpdate? || e.InitialWindow? || e.MaxFrame?
          || (e.Data? && !Gets(s, e, e.id)) || e.GivesUp? || e.UploadFails?
    ensures SameStream(s, Step(s, e), id)
  {
    hide OutTake, OutAdd, OutInitialWindow, OutMaxFrame, OutOpen, InOpen, HandleData, InCredit, TearDown;
    if e.GivesUp? || e.UploadFails? {
      TearDownSame(s, e.id, id);
    }
  }

  lemma RestTells(s: Client, e: Event, id: Id, story: Story)
    requires e.Read? || e.Send? || e.PushPromise? || e.WindowUpdate? || e.InitialWindow? || e.MaxFrame?
          || (e.Data? && !Gets(s, e, e.id)) || e.GivesUp? || e.UploadFails?
    requires Tells(s, id, story)
    ensures Tells(Step(s, e), id, Told(s, e, id, story))
  {
    RestSame(s, e, id);
    SameTells(s, Step(s, e), id, story);
    hide Step, Tells, SameStream, Accepts;
  }

  lemma StartTells(s: Client, e: Event, story: Story)
    requires e.RoundTrip? && Tells(s, s.nextID, story)
    ensures Tells(Step(s, e), s.nextID, Told(s, e, s.nextID, story))
  {
    hide TearDown, InOpen, OutOpen;
    TearDownSame(OpenStream(s, e.hasBody), s.nextID, s.nextID);
  }

  lemma UploadEndsTells(s: Client, e: Event, story: Story)
    requires e.UploadEnds? && Tells(s, e.id, story)
    ensures Tells(Step(s, e), e.id, Told(s, e, e.id, story))
  {
    hide TearDown;
    if e.id in s.progress {
      TearDownSame(Mark(s, e.id, s.progress[e.id].(uploadDone := true)), e.id, e.id);
    }
  }

  lemma ResponseDoneTells(s: Client, e: Event, story: Story)
    requires e.ResponseDone? && Tells(s, e.id, story)
    ensures Tells(Step(s, e), e.id, Told(s, e, e.id, story))
  {
    hide TearDown;
    if e.id in s.progress {
      TearDownSame(Mark(s.(recv := if e.closed then CloseBody(s.recv, e.id) else s.recv), e.id,
          s.progress[e.id].(responseDone := true)), e.id, e.id);
    }
  }

  lemma ResetTells(s: Client, e: Event, story: Story)
    requires e.ResetStream? && Tells(s, e.id, story) && s.live
    ensures Tells(Step(s, e), e.id, Told(s, e, e.id, story))
  {
    hide TearDown, OutForget;
    TearDownSame(s, e.id, e.id);
  }

  lemma ResetSame(s: Client, e: Event, id: Id)
    requires e.ResetStream? && e.id != id
    ensures SameStream(s, Step(s, e), id)
  {
    hide TearDown, OutForget;
    TearDownSame(s, e.id, id);
  }

  lemma HeadersTells(s: Client, e: Event, story: Story)
    requires e.Headers? && Tells(s, e.id, story) && s.live
    ensures Tells(Step(s, e), e.id, Told(s, e, e.id, story))
  {
    hide TearDown, OutForget, InForget;
    TearDownSame(s, e.id, e.id);
  }

  lemma BufferedTells(s: Client, e: Event, story: Story)
    requires e.Data? && Takes(s, e, e.id) && Tells(s, e.id, story)
    ensures Tells(Step(s, e), e.id, Told(s, e, e.id, story))
  {
    VerdictExactly(s.recv, e.id, e.payload, e.length);
    hide Accepts, Verdict, FitsWindows, InCredit, InTaken;
  }

  lemma DataTells(s: Client, e: Event, story: Story)
    requires e.Data? && Gets(s, e, e.id) && Tells(s, e.id, story) && !Kills(s, e)
    ensures Tells(Step(s, e), e.id, Told(s, e, e.id, story))
  {
    VerdictExactly(s.recv, e.id, e.payload, e.length);
    hide TearDown, Accepts, Verdict, FitsWindows, PushData, Buffer, InCredit, InTaken, Tells;
    match Verdict(s.recv, e.id, e.payload, e.length)
    case Refused =>
      TearDownSame(s.(recv := Return(s.recv, e.id, e.length)), e.id, e.id);
      GoneTells(Step(s, e), e.id, Told(s, e, e.id, story));
    case Stray =>
      if e.id in s.pushes {
        PushDataSame(s, e, e.id);
      }
      GoneTells(Step(s, e), e.id, Told(s, e, e.id, story));
    case Buffered => BufferedTells(s, e, story);
  }

  lemma GoneTells(s: Client, id: Id, story: Story)
    requires id !in s.recv.held.bodies
    ensures Tells(s, id, story)
  {
  }

  lemma StepTells(s: Client, e: Event, id: Id, story: Story)
    requires s.live && !Kills(s, e) && Tells(s, id, story)
    ensures Tells(Step(s, e), id, Told(s, e, id, story))
  {
    assert !e.Shutdown?;
    if Elsewhere(s, e, id) {
      ElsewhereTold(s, e, id, story);
      hide Step, Tells, Told, Kills, SameStream;
      match e
      case RoundTrip(_, _) => StartSame(s, e, id);
      case UploadEnds(_) => UploadEndsSame(s, e, id);
      case ResponseDone(_, _) => ResponseDoneSame(s, e, id);
      case ResetStream(_, _) => ResetSame(s, e, id);
      case Headers(_, _, _) => HeadersSame(s, e, id);
      case Data(_, payload, n, _) =>
        if |payload| <= n {
          DataSame(s, e, id);
        } else {
          RestSame(s, e, id);
        }
      case _ => RestSame(s, e, id);
      SameTells(s, Step(s, e), id, story);
    } else {
      OwnTells(s, e, id, story);
    }
  }

  lemma OwnTells(s: Client, e: Event, id: Id, story: Story)
    requires s.live && !Kills(s, e) && Tells(s, id, story) && !Elsewhere(s, e, id) && !e.Shutdown?
    ensures Tells(Step(s, e), id, Told(s, e, id, story))
  {
    hide Step, Tells, Told, Kills;
    match e
    case RoundTrip(_, _) => StartTells(s, e, story);
    case UploadEnds(_) => UploadEndsTells(s, e, story);
    case ResponseDone(_, _) => ResponseDoneTells(s, e, story);
    case ResetStream(_, _) => ResetTells(s, e, story);
    case Headers(_, _, _) => HeadersTells(s, e, story);
    case Data(_, payload, n, _) =>
      if |payload| <= n {
        DataTells(s, e, story);
      } else {
        RestTells(s, e, id, story);
      }
    case _ => RestTells(s, e, id, story);
  }

  /** After every run, one more event changes the tables exactly so. */
  lemma TablesExactly(s0: Client, es: seq<Event>, e: Event)
    ensures TablesAfter(Run(s0, es), e, Run(s0, es + [e]))
  {
    StepTables(Run(s0, es), e);
    assert (es + [e])[..|es|] == es;
  }

  /** In every reachable state of a live connection each request stream in the table tells its story: its body is
      closed exactly when the origin ended it or its reader closed it, NO_ERROR stops its upload exactly behind
      a complete response, and it leaves when upload and response are both done. */
  lemma {:induction false} RunTells(s0: Client, es: seq<Event>, id: Id)
    requires Initial(s0)
    ensures Run(s0, es).live ==> Tells(Run(s0, es), id, StoryOf(s0, es, id))
    decreases |es|
  {
    if es != [] {
      var k := |es| - 1;
      var s := Run(s0, es[..k]);
      RunTells(s0, es[..k], id);
      StepTables(s, es[k]);
      hide Step, Told, Tells, Kills;
      if Run(s0, es).live {
        StepTells(s, es[k], id, StoryOf(s0, es[..k], id));
      }
    }
  }

  // ---------------------------------------------------------------- windows

  /** What an event does to the send windows, told by the tables. */
  function Ops(s: Client, e: Event): seq<OutOp> {
    match e
    case RoundTrip(_, writeFails) =>
      if !MayOpen(s) then []
      else if writeFails then [OpOpen(s.nextID), OpForget(s.nextID)]
      else [OpOpen(s.nextID)]
    case WindowUpdate(id, n) => [OpAdd(id, n)]
    case InitialWindow(v) => [OpInitialWindow(v)]
    case MaxFrame(v) => [OpMaxFrame(v)]
    case Send(id, want) => [OpTake(id, want, false)]
    case PushPromise(id) => if s.capturePush then [OpOpen(id)] else []
    case Shutdown => []
    case _ =>
      if Torn(s, e, e.id) || Captures(s, e, e.id) || StopsUpload(s, e, e.id) then [OpForget(e.id)] else []
  }

  function AllOps(s0: Client, es: seq<Event>): seq<OutOp>
    decreases |es|
  {
    if es == [] then [] else AllOps(s0, es[..|es| - 1]) + Ops(Run(s0, es[..|es| - 1]), es[|es| - 1])
  }

  predicate Forgets(s: Client, e: Event) {
    e.GivesUp? || e.UploadEnds? || e.UploadFails? || e.ResponseDone? || e.Data? || e.Headers? || e.ResetStream?
  }

  lemma ForgetOut(s: Client, e: Event)
    requires Forgets(s, e) && !e.Data? && s.live
    ensures Step(s, e).out
      == if Torn(s, e, e.id) || Captures(s, e, e.id) || StopsUpload(s, e, e.id) then OutForget(s.out, e.id) else s.out
  {
    hide OutForget, Drop, CloseBody, InForget;
  }

  lemma DataOut(s: Client, e: Event)
    requires e.Data? && s.live && !Kills(s, e)
    ensures Step(s, e).out
      == if Torn(s, e, e.id) || Captures(s, e, e.id) || StopsUpload(s, e, e.id) then OutForget(s.out, e.id) else s.out
  {
    if |e.payload| <= e.length {
      VerdictExactly(s.recv, e.id, e.payload, e.length);
      hide OutForget, Drop, InForget, CloseBody, Accepts, FitsWindows, Return, Buffer, Verdict;
    }
  }

  lemma StepOut(s: Client, e: Event)
    requires s.live && !Kills(s, e)
    ensures Step(s, e).out == OutRun(s.out, Ops(s, e))
  {
    assert !e.Shutdown?;
    OutRunFew(s.out, Ops(s, e));
    if e.Data? {
      DataOut(s, e);
    } else if Forgets(s, e) {
      ForgetOut(s, e);
    }
    hide OutOpen, OutForget, OutTake, OutAdd, OutInitialWindow, OutMaxFrame, HandleData, HandleHeaders, HandleReset,
      OutRun, ReadBody, Torn, Captures, StopsUpload, Open, Drop;
  }

  lemma OutRunFew(w: OutWindow, ops: seq<OutOp>)
    ensures ops == [] ==> OutRun(w, ops) == w
    ensures |ops| == 1 ==> OutRun(w, ops) == OutStep(w, ops[0])
    ensures |ops| == 2 ==> OutRun(w, ops) == OutStep(OutStep(w, ops[0]), ops[1])
  {
    if |ops| == 1 {
      assert ops[..0] == [];
    } else if |ops| == 2 {
      OutRunFew(w, ops[..1]);
    }
  }

  /** The send windows of every reachable state of a live connection are those of the events: one window opened by
      each request and each captured promise and forgotten when it leaves its table, every WINDOW_UPDATE and
      SETTINGS change applied, every take charged. So each is the exact balance of its ledger. */
  lemma {:induction false} SendWindowsTold(s0: Client, es: seq<Event>)
    requires Initial(s0)
    ensures Run(s0, es).live ==>
      Run(s0, es).out == OutRun(NewOut, AllOps(s0, es)) && Balanced(Run(s0, es).out, LedgerRun(AllOps(s0, es)))
    decreases |es|
  {
    SendWindowsBalance(AllOps(s0, es));
    hide Balanced;
    if es == [] {
      assert s0.out == NewOut;
    } else {
      var k := |es| - 1;
      var s := Run(s0, es[..k]);
      SendWindowsTold(s0, es[..k]);
      StepTables(s, es[k]);
      hide Step, Ops, OutRun;
      if Run(s0, es).live {
        StepOut(s, es[k]);
        OutRunConcat(NewOut, AllOps(s0, es[..k]), Ops(s, es[k]));
      }
    }
  }

  /** The wire lengths of the DATA frames that fit the connection window. */
  function Charges(s0: Client, es: seq<Event>): nat
    decreases |es|
  {
    if es == [] then 0
    else
      var s, e := Run(s0, es[..|es| - 1]), es[|es| - 1];
      Charges(s0, es[..|es| - 1])
      + if s.live && e.Data? && |e.payload| <= e.length && !Kills(s, e) then e.length else 0
  }

  lemma DataReceived(s: Client, e: Event)
    requires e.Data? && Gets(s, e, e.id)
    ensures Step(s, e).recv.received == s.recv.received + if Kills(s, e) then 0 else e.length
  {
    VerdictExactly(s.recv, e.id, e.payload, e.length);
    hide Verdict, Accepts, FitsWindows, BodyWrite, InCredit, InTaken, InForget, OutForget, Closed;
  }

  lemma TearDownReceived(s: Client, id: Id)
    ensures TearDown(s, id).recv.received == s.recv.received && CloseBody(s.recv, id).received == s.recv.received
  {
  }

  lemma FrameReceived(s: Client, e: Event)
    requires IsFrame(e) && !(e.Data? && Gets(s, e, e.id)) && s.live
    ensures Step(s, e).recv.received == s.recv.received
  {
    hide Closed, OutForget, OutAdd, OutInitialWindow, OutMaxFrame, OutOpen, InOpen, InForget, HandleData, TearDown,
      CloseBody;
    if e.Headers? || e.ResetStream? {
      TearDownReceived(s, e.id);
    }
  }

  lemma OtherReceived(s: Client, e: Event)
    requires !(e.Data? && Gets(s, e, e.id))
    ensures Step(s, e).recv.received == s.recv.received
  {
    hide BodyRead, OutTake, OutOpen, InOpen, InCredit, Handle, TearDown, CloseBody;
    match e
    case RoundTrip(hasBody, _) => TearDownReceived(OpenStream(s, hasBody), s.nextID);
    case GivesUp(id) => TearDownReceived(s, id);
    case UploadFails(id) => TearDownReceived(s, id);
    case UploadEnds(id) =>
      if id in s.progress {
        TearDownReceived(Mark(s, id, s.progress[id].(uploadDone := true)), id);
      }
    case ResponseDone(id, closed) =>
      if id in s.progress {
        TearDownReceived(s, id);
        TearDownReceived(Mark(s.(recv := if closed then CloseBody(s.recv, id) else s.recv), id,
            s.progress[id].(responseDone := true)), id);
      }
    case Read(_, _) =>
    case Send(_, _) =>
    case _ =>
      if s.live {
        FrameReceived(s, e);
      }
  }

  /** Every byte of every DATA frame is charged, padding included, and given back once it is no longer unread. */
  lemma {:induction false} EveryByteIsCharged(s0: Client, es: seq<Event>)
    requires Initial(s0)
    ensures Run(s0, es).recv.received == Charges(s0, es)
    ensures Run(s0, es).live ==> Run(s0, es).recv.credited == Charges(s0, es) - Unread(Run(s0, es).recv.held.bodies)
    decreases |es|
  {
    if es != [] {
      EveryByteIsCharged(s0, es[..|es| - 1]);
      var s, e := Run(s0, es[..|es| - 1]), es[|es| - 1];
      if e.Data? && Gets(s, e, e.id) {
        DataReceived(s, e);
      } else {
        OtherReceived(s, e);
      }
      hide Step;
    }
    ReceiveWindowConservation(s0, es);
  }
}
