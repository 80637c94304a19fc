/**
 What the server side of an HTTP/2 hop (ServeConn in internal/http2x/serve.go) does with the bytes
 and the frames of a run, told from its events: which bytes handlers read, when request bodies end,
 when streams leave the table, and what send windows are left.
 */
module ServeDelivery {
  import opened B = Bytes
  import opened Windows
  import opened Receive
  import opened Delivery
  import opened ServeConn

  // ---------------------------------------------------------------- request bodies

  /** The event is a DATA frame of this stream whose payload its body takes. */
  predicate Takes(s: Server, e: Event, id: Id) {
    e.Data? && e.id == id && s.live && |e.payload| <= e.length && Accepts(s.recv, id, e.payload, e.length)
  }

  /** The payloads of a stream's accepted DATA frames, in arrival order. */
  function Arrived(s0: Server, es: seq<Event>, id: Id): seq<Byte>
    decreases |es|
  {
    if es == [] then []
    else
      var k := |es| - 1;
      Arrived(s0, es[..k], id) + if Takes(Run(s0, es[..k]), es[k], id) then es[k].payload else []
  }

  /** The bytes its Reads handed out. */
  function HandedOut(s0: Server, es: seq<Event>, id: Id): seq<Byte>
    decreases |es|
  {
    if es == [] then []
    else
      var k := |es| - 1;
      HandedOut(s0, es[..k], id)
      + if es[k].Read? && es[k].id == id then Front(Left(Run(s0, es[..k]).recv, id), es[k].room) else []
  }

  lemma FinishKeepsLeft(s: Server, id: Id, force: bool)
    ensures SameLeft(s.recv, Finish(s, id, force).recv)
  {
    DropKeepsLeft(s.recv, id);
  }

  lemma EndKeepsLeft(s: Server, id: Id)
    ensures SameLeft(s.recv, EndRequestBody(s, id).recv)
  {
    CloseKeepsLeft(s.recv, id);
    FinishKeepsLeft(s.(recv := CloseBody(s.recv, id)), id, true);
  }

  /** What one event does to the unread bytes of a stream. */
  lemma DataLeft(s: Server, e: Event, id: Id)
    requires e.Data? && s.live
    ensures Left(Step(s, e).recv, id) == Left(s.recv, id) + if Takes(s, e, id) then e.payload else []
    ensures Known(Step(s, e).recv, id) <==> Known(s.recv, id)
  {
    if |e.payload| <= e.length {
      VerdictExactly(s.recv, e.id, e.payload, e.length);
      hide Left, Known, Finish, EndRequestBody, Buffer, Return, Abandon, Accepts;
      match Verdict(s.recv, e.id, e.payload, e.length)
      case Fatal => AbandonKeepsLeft(s.recv);
      case Refused =>
        WindowsKeepLeft(s.recv, e.id, e.length);
        FinishKeepsLeft(s.(recv := Return(s.recv, e.id, e.length)), e.id, true);
      case Stray => WindowsKeepLeft(s.recv, e.id, e.length);
      case Buffered =>
        BufferLeft(s.recv, e.id, e.payload, e.length);
        EndKeepsLeft(s.(recv := Buffer(s.recv, e.id, e.payload, e.length)), e.id);
    }
  }

  lemma HeadersLeft(s: Server, id: Id, end: bool)
    requires Inv(s)
    ensures
      var r := HandleHeaders(s, id, end).recv;
      forall x :: Left(r, x) == Left(s.recv, x) && (Known(s.recv, x) ==> Known(r, x))
  {
    if id == 0 || id % 2 == 0 {
      AbandonKeepsLeft(s.recv);
    } else if id in s.recv.held.bodies {
      EndKeepsLeft(s, id);
    } else if !(id <= s.lastID || s.open >= s.maxStreams) {
      assert !Known(s.recv, id);
      OpenLeft(s.recv, id, if end then BodyClose(NewBody) else NewBody);
    }
  }

  lemma StepLeft(s: Server, e: Event, id: Id)
    requires s.live ==> Inv(s)
    ensures
      var now := Left(Step(s, e).recv, id);
      if Takes(s, e, id) then now == Left(s.recv, id) + e.payload
      else if e.Read? && e.id == id then Front(Left(s.recv, id), e.room) + now == Left(s.recv, id)
      else now == Left(s.recv, id)
  {
    hide Left, Finish, HandleData, HandleHeaders, Inv, OutTake, OutAdd, OutInitialWindow, OutMaxFrame, ReadBody,
      CloseBody, Abandon, Accepts;
    match e
    case Read(x, room) => ReadLeft(s.recv, x, room);
    case ConsumerCloses(x) => CloseKeepsLeft(s.recv, x);
    case HandlerReturns(x, failed) => FinishKeepsLeft(s, x, failed);
    case Send(_, _) =>
    case Data(_, _, _, _) =>
      if s.live {
        DataLeft(s, e, id);
      }
    case Headers(x, end) =>
      if s.live {
        HeadersLeft(s, x, end);
      }
    case ResetStream(x) => FinishKeepsLeft(s, x, true);
    case Shutdown => AbandonKeepsLeft(s.recv);
    case _ =>
  }

  /** Nothing is lost, invented or reordered: in every run, for every stream, the bytes its Reads handed out
      and then those still buffered are the payloads of its accepted DATA frames in arrival order. It holds
      on after the stream is torn down and after the connection dies. */
  lemma {:induction false} BytesArriveInOrder(s0: Server, es: seq<Event>, id: Id)
    requires Initial(s0)
    ensures HandedOut(s0, es, id) + Left(Run(s0, es).recv, id) == Arrived(s0, es, id)
    decreases |es|
  {
    if es != [] {
      var k := |es| - 1;
      var s := Run(s0, es[..k]);
      BytesArriveInOrder(s0, es[..k], id);
      RunInv(s0, es[..k]);
      StepLeft(s, es[k], id);
      var out, was := HandedOut(s0, es[..k], id), Left(s.recv, id);
      Reassociate(out, Front(was, if es[k].Read? then es[k].room else 0), Left(Step(s, es[k]).recv, id));
      if Takes(s, es[k], id) {
        Reassociate(out, was, es[k].payload);
      }
    }
  }

  // ---------------------------------------------------------------- the stream table

  /** HEADERS that open a stream: an odd id above every earlier one, under the stream limit. */
  predicate Opens(s: Server, e: Event, id: Id) {
    && s.live && e.Headers? && e.id == id && id % 2 == 1 && id !in s.recv.held.bodies
    && id > s.lastID && s.open < s.maxStreams
  }

  /** The event ends the request body: END_STREAM on accepted DATA or on the opening HEADERS, or trailers. */
  predicate Ends(s: Server, e: Event, id: Id) {
    || (Takes(s, e, id) && e.end)
    || (Opens(s, e, id) && e.end)
    || (s.live && e.Headers? && e.id == id && id % 2 == 1 && id in s.recv.held.bodies)
  }

  /** The event takes a stream out of the table: a reset, a DATA frame it may not receive, a handler that
      fails or returns when the body is closed, or the end of the body when the handler has returned. */
  predicate Leaves(s: Server, e: Event, id: Id) {
    && id in s.recv.held.bodies
    && (|| (s.live && e == ResetStream(id))
        || (s.live && e.Data? && e.id == id && |e.payload| <= e.length && !Takes(s, e, id))
        || (e.HandlerReturns? && e.id == id && (e.failed || s.recv.held.bodies[id].closed))
        || (Ends(s, e, id) && id in s.handlerDone))
  }

  /** The connection dies of a DATA frame beyond its window, of HEADERS on an even id, or by shutdown. */
  predicate Kills(s: Server, e: Event) {
    && s.live
    && (|| e.Shutdown?
        || (e.Headers? && e.id % 2 == 0)
        || (e.Data? && |e.payload| <= e.length && e.length > s.recv.inbound.conn))
  }

  /** The table after one event, exactly. */
  ghost predicate TableAfter(s: Server, e: Event, t: Server) {
    && (t.live <==> s.live && !Kills(s, e))
    && (t.live ==> forall id :: id in t.recv.held.bodies <==>
          Opens(s, e, id) || (id in s.recv.held.bodies && !Leaves(s, e, id)))
  }

  lemma FinishTable(s: Server, id: Id, force: bool)
    ensures
      var t := Finish(s, id, force);
      && t.live == s.live && t.lastID == s.lastID && t.maxStreams == s.maxStreams
      && (forall x :: x in t.recv.held.bodies <==>
            x in s.recv.held.bodies && !(x == id && (force || s.recv.held.bodies[id].closed)))
      && (forall x | x in t.recv.held.bodies :: t.recv.held.bodies[x] == s.recv.held.bodies[x])
      && (forall x | x in t.recv.held.bodies ::
            x in t.handlerDone <==> x in s.handlerDone || (x == id && !force))
  {
  }

  lemma EndTable(s: Server, id: Id)
    requires id in s.recv.held.bodies
    ensures
      var t := EndRequestBody(s, id);
      && t.live == s.live && t.lastID == s.lastID && t.maxStreams == s.maxStreams
      && (forall x :: x in t.recv.held.bodies <==> x in s.recv.held.bodies && !(x == id && id in s.handlerDone))
      && (forall x | x in t.recv.held.bodies ::
            t.recv.held.bodies[x].closed == (s.recv.held.bodies[x].closed || x == id))
      && (forall x | x in t.recv.held.bodies :: x in t.handlerDone <==> x in s.handlerDone)
  {
    FinishTable(s.(recv := CloseBody(s.recv, id)), id, true);
  }

  /** What a run has done to a stream: its body ended, its consumer closed it, its handler returned. */
  datatype Story = Story(ended: bool, closed: bool, returned: bool)

  function Told(s: Server, e: Event, id: Id, was: Story): Story {
    Story(was.ended || Ends(s, e, id),
          was.closed || (e == ConsumerCloses(id) && id in s.recv.held.bodies),
          was.returned || (e.HandlerReturns? && e.id == id && id in s.recv.held.bodies))
  }

  function StoryOf(s0: Server, es: seq<Event>, id: Id): Story
    decreases |es|
  {
    if es == [] then Story(false, false, false)
    else Told(Run(s0, es[..|es| - 1]), es[|es| - 1], id, StoryOf(s0, es[..|es| - 1], id))
  }

  /** A stream in the table tells its story; one not opened yet has none. */
  ghost predicate Tells(s: Server, id: Id, story: Story) {
    && (id in s.recv.held.bodies ==>
          && (s.recv.held.bodies[id].closed <==> story.ended || story.closed)
          && (id in s.handlerDone <==> story.returned)
          && !(story.ended && story.returned))
    && (id > s.lastID ==> story == Story(false, false, false))
  }

  ghost predicate StepTold(s: Server, e: Event, t: Server) {
    && TableAfter(s, e, t) && s.lastID <= t.lastID
    && (t.live ==> forall id, story | Tells(s, id, story) :: Tells(t, id, Told(s, e, id, story)))
  }

  lemma BufferedTold(s: Server, e: Event)
    requires e.Data? && s.live && Inv(s) && |e.payload| <= e.length
    requires Verdict(s.recv, e.id, e.payload, e.length).Buffered?
    ensures StepTold(s, e, Step(s, e))
  {
    hide Accepts, FitsWindows, Finish, EndRequestBody, InVerdict, InCredit, InTaken;
    VerdictExactly(s.recv, e.id, e.payload, e.length);
    assert Takes(s, e, e.id) && !Kills(s, e);
    var s' := s.(recv := Buffer(s.recv, e.id, e.payload, e.length));
    if e.end {
      EndTable(s', e.id);
    }
  }

  lemma TurnedAwayTold(s: Server, e: Event)
    requires e.Data? && s.live && Inv(s) && |e.payload| <= e.length
    requires !Verdict(s.recv, e.id, e.payload, e.length).Buffered?
    ensures StepTold(s, e, Step(s, e))
  {
    hide Accepts, FitsWindows, Finish, InCredit, InTaken;
    assert !Takes(s, e, e.id) by {
      VerdictExactly(s.recv, e.id, e.payload, e.length);
    }
    FinishTable(s.(recv := Return(s.recv, e.id, e.length)), e.id, true);
  }

  lemma TrailersTold(s: Server, e: Event)
    requires e.Headers? && s.live && Inv(s) && e.id in s.recv.held.bodies
    ensures StepTold(s, e, Step(s, e))
  {
    hide EndRequestBody, Sound;
    EndTable(s, e.id);
  }

  lemma OpeningTold(s: Server, e: Event)
    requires e.Headers? && s.live && Inv(s) && e.id !in s.recv.held.bodies
    ensures StepTold(s, e, Step(s, e))
  {
    hide EndRequestBody, Sound, Abandon, OutOpen, InOpen;
  }

  lemma ReturnTold(s: Server, e: Event)
    requires e.HandlerReturns? && (s.live ==> Inv(s))
    ensures StepTold(s, e, Step(s, e))
  {
    hide Finish;
    FinishTable(s, e.id, e.failed);
  }

  lemma ResetTold(s: Server, e: Event)
    requires e.ResetStream? && s.live && Inv(s)
    ensures StepTold(s, e, Step(s, e))
  {
    hide Finish;
    FinishTable(s, e.id, true);
  }

  lemma CloseTold(s: Server, e: Event)
    requires e.ConsumerCloses? && (s.live ==> Inv(s))
    ensures StepTold(s, e, Step(s, e))
  {
  }

  lemma ReadTold(s: Server, e: Event)
    requires e.Read?
    ensures StepTold(s, e, Step(s, e))
  {
    hide Front, Left, InCredit;
    var t := Step(s, e);
    assert t.recv.held.bodies.Keys == s.recv.held.bodies.Keys;
    assert forall id | id in t.recv.held.bodies :: t.recv.held.bodies[id].closed == s.recv.held.bodies[id].closed;
  }

  /** Events that only move send windows, and a frame the framer never delivers. */
  lemma QuietTold(s: Server, e: Event)
    requires (e.Data? && |e.payload| > e.length) || e.WindowUpdate? || e.InitialWindow? || e.MaxFrame? || e.Send?
    ensures StepTold(s, e, Step(s, e))
  {
    hide OutTake, OutAdd, OutInitialWindow, OutMaxFrame, Accepts;
  }

  lemma StepTells(s: Server, e: Event)
    requires s.live ==> Inv(s)
    ensures s.live ==> StepTold(s, e, Step(s, e))
  {
    hide StepTold, Step, Inv;
    if s.live {
      match e
      case Data(_, payload, n, _) =>
        if |payload| > n {
          QuietTold(s, e);
        } else if Verdict(s.recv, e.id, payload, n).Buffered? {
          BufferedTold(s, e);
        } else {
          TurnedAwayTold(s, e);
        }
      case Headers(id, _) =>
        if id in s.recv.held.bodies {
          TrailersTold(s, e);
        } else {
          OpeningTold(s, e);
        }
      case ResetStream(_) => ResetTold(s, e);
      case HandlerReturns(_, _) => ReturnTold(s, e);
      case ConsumerCloses(_) => CloseTold(s, e);
      case Read(_, _) => ReadTold(s, e);
      case Shutdown => ShutdownTold(s, e);
      case _ => QuietTold(s, e);
    }
  }

  lemma ShutdownTold(s: Server, e: Event)
    requires e.Shutdown? && Inv(s)
    ensures StepTold(s, e, Step(s, e))
  {
    hide Abandon;
  }

  /** In every reachable state of a live connection each stream tells its story: its body is closed exactly when the
      request ended or the consumer closed it, it waits in the table with its handler returned exactly until the
      request ends, and an id above the last one has none. */
  lemma {:induction false} RunTells(s0: Server, es: seq<Event>, id: Id)
    requires Initial(s0)
    ensures Run(s0, es).live ==> Tells(Run(s0, es), id, StoryOf(s0, es, id))
    decreases |es|
  {
    if es != [] {
      var k := |es| - 1;
      var s := Run(s0, es[..k]);
      RunTells(s0, es[..k], id);
      RunInv(s0, es[..k]);
      StepStaysDown(s, es[k]);
      hide Step, Inv, TableAfter;
      if s.live {
        StepTells(s, es[k]);
      }
    }
  }

  /** After every run, what one more event does to the table and to the life of the connection. */
  lemma TableExactly(s0: Server, es: seq<Event>, e: Event)
    requires Initial(s0) && Run(s0, es).live
    ensures TableAfter(Run(s0, es), e, Run(s0, es + [e]))
  {
    RunInv(s0, es);
    StepTells(Run(s0, es), e);
    assert (es + [e])[..|es|] == es;
  }

  // ---------------------------------------------------------------- windows

  /** What an event does to the send windows, told by the table. */
  function Ops(s: Server, e: Event): seq<OutOp> {
    match e
    case WindowUpdate(id, n) => [OpAdd(id, n)]
    case InitialWindow(v) => [OpInitialWindow(v)]
    case MaxFrame(v) => [OpMaxFrame(v)]
    case Send(id, want) => [OpTake(id, want, false)]
    case Shutdown => []
    case _ =>
      if Opens(s, e, e.id) then [OpOpen(e.id)]
      else if Leaves(s, e, e.id) then [OpForget(e.id)]
      else []
  }

  function AllOps(s0: Server, es: seq<Event>): seq<OutOp>
    decreases |es|
  {
    if es == [] then [] else AllOps(s0, es[..|es| - 1]) + Ops(Run(s0, es[..|es| - 1]), es[|es| - 1])
  }

  lemma FinishOut(s: Server, id: Id, force: bool)
    ensures Finish(s, id, force).out
      == if id in s.recv.held.bodies && (force || s.recv.held.bodies[id].closed) then OutForget(s.out, id) else s.out
  {
  }

  lemma DataOut(s: Server, e: Event)
    requires e.Data? && s.live && !Kills(s, e)
    ensures Step(s, e).out == if Leaves(s, e, e.id) then OutForget(s.out, e.id) else s.out
  {
    if |e.payload| <= e.length {
      VerdictExactly(s.recv, e.id, e.payload, e.length);
      hide Accepts, FitsWindows, Finish;
      if Verdict(s.recv, e.id, e.payload, e.length).Buffered? {
        FinishOut(s.(recv := CloseBody(Buffer(s.recv, e.id, e.payload, e.length), e.id)), e.id, true);
      } else {
        FinishOut(s.(recv := Return(s.recv, e.id, e.length)), e.id, true);
      }
    }
  }

  lemma HeadersOut(s: Server, e: Event)
    requires e.Headers? && s.live && Inv(s) && !Kills(s, e)
    ensures Step(s, e).out
      == if Opens(s, e, e.id) then OutOpen(s.out, e.id)
         else if Leaves(s, e, e.id) then OutForget(s.out, e.id)
         else s.out
  {
    hide Finish, OutOpen, OutForget, Sound;
    FinishOut(s.(recv := CloseBody(s.recv, e.id)), e.id, true);
  }

  lemma LeaveOut(s: Server, e: Event)
    requires (e.ResetStream? && s.live) || e.HandlerReturns?
    ensures !Opens(s, e, e.id)
    ensures Step(s, e).out == if Leaves(s, e, e.id) then OutForget(s.out, e.id) else s.out
  {
    hide Finish, OutForget;
    FinishOut(s, e.id, e.ResetStream? || e.failed);
  }

  lemma OtherOut(s: Server, e: Event)
    requires e.Data? || e.Read? || e.ConsumerCloses?
    ensures !Opens(s, e, e.id)
    ensures !e.Data? ==> Step(s, e).out == s.out && !Leaves(s, e, e.id)
  {
  }

  lemma StepOut(s: Server, e: Event)
    requires s.live && Inv(s) && !Kills(s, e)
    ensures Step(s, e).out == OutRun(s.out, Ops(s, e))
  {
    OutRunOne(s.out, Ops(s, e));
    assert !e.Shutdown?;
    hide OutOpen, OutForget, OutTake, OutAdd, OutInitialWindow, OutMaxFrame, Finish, HandleData, HandleHeaders, Opens,
      Inv, Leaves, OutRun, ReadBody, CloseBody;
    match e
    case Data(_, _, _, _) =>
      DataOut(s, e);
      OtherOut(s, e);
    case Headers(_, _) => HeadersOut(s, e);
    case ResetStream(_) => LeaveOut(s, e);
    case HandlerReturns(_, _) => LeaveOut(s, e);
    case Read(_, _) => OtherOut(s, e);
    case ConsumerCloses(_) => OtherOut(s, e);
    case _ =>
  }

  lemma OutRunOne(w: OutWindow, ops: seq<OutOp>)
    requires |ops| <= 1
    ensures OutRun(w, ops) == if ops == [] then w else OutStep(w, ops[0])
  {
    if ops != [] {
      assert ops[..0] == [];
    }
  }

  /** The send windows of every reachable state of a live connection are those of the events: one window
      opened by each HEADERS that opens a stream and forgotten when it leaves the table, every WINDOW_UPDATE
      and SETTINGS change applied, every take charged. So each is the exact balance of its ledger. */
  lemma {:induction false} SendWindowsTold(s0: Server, es: seq<Event>)
    requires Initial(s0)
    ensures Run(s0, es).live ==>
      Run(s0, es).out == OutRun(NewOut, AllOps(s0, es)) && Balanced(Run(s0, es).out, LedgerRun(AllOps(s0, es)))
    decreases |es|
  {
    SendWindowsBalance(AllOps(s0, es));
    hide Balanced;
    if es == [] {
      assert s0.out == NewOut;
    } else {
      var k := |es| - 1;
      var s := Run(s0, es[..k]);
      SendWindowsTold(s0, es[..k]);
      RunInv(s0, es[..k]);
      StepStaysDown(s, es[k]);
      hide Step, Inv, Ops, OutRun;
      if Run(s0, es).live {
        StepTells(s, es[k]);
        StepOut(s, es[k]);
        OutRunConcat(NewOut, AllOps(s0, es[..k]), Ops(s, es[k]));
      }
    }
  }

  /** The wire lengths of the DATA frames that fit the connection window. */
  function Charges(s0: Server, es: seq<Event>): nat
    decreases |es|
  {
    if es == [] then 0
    else
      var s, e := Run(s0, es[..|es| - 1]), es[|es| - 1];
      Charges(s0, es[..|es| - 1])
      + if s.live && e.Data? && |e.payload| <= e.length && !Kills(s, e) then e.length else 0
  }

  lemma StepReceived(s: Server, e: Event)
    ensures Step(s, e).recv.received == s.recv.received
      + if s.live && e.Data? && |e.payload| <= e.length && !Kills(s, e) then e.length else 0
  {
    hide Left, BodyWrite, Closed, OutForget, OutTake, OutAdd, OutInitialWindow, OutMaxFrame, OutOpen;
  }

  /** Every byte of every DATA frame is charged, padding included, and given back once it is no longer unread. */
  lemma {:induction false} EveryByteIsCharged(s0: Server, es: seq<Event>)
    requires Initial(s0)
    ensures Run(s0, es).recv.received == Charges(s0, es)
    ensures Run(s0, es).live ==> Run(s0, es).recv.credited == Charges(s0, es) - Unread(Run(s0, es).recv.held.bodies)
    decreases |es|
  {
    if es != [] {
      EveryByteIsCharged(s0, es[..|es| - 1]);
      StepReceived(Run(s0, es[..|es| - 1]), es[|es| - 1]);
    }
    ReceiveWindowConservation(s0, es);
  }
}
