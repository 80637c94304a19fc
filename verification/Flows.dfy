/**
 Captured flows and what they cost (internal/model/flow.go, and the body caps of
 internal/store/memory.go). Times are naturals and 0 is Go's zero time, and `meta` stands for
 every field the inbox only carries along. The body cap is positive, as normalizeOptions makes it.
 */
module Flows {
  import opened Bytes

  datatype Header = Header(name: string, value: string)

  datatype Message = Message(headers: seq<Header>, trailers: seq<Header>, body: seq<Byte>, size: nat, truncated: bool)

  datatype WsFrame = WsFrame(payload: seq<Byte>, size: nat, truncated: bool)

  datatype State = Open | Paused | Completed | Dropped | Failed

  datatype Phase = RequestPhase | ResponsePhase | OtherPhase

  /** A decoded gRPC tree by its costs: the lengths of two labels, and per message its fields' sizes. */
  datatype GrpcTree = GrpcTree(contentType: nat, error: nat, messages: seq<seq<nat>>, truncated: bool)

  datatype Flow = Flow(
    startedAt: nat,
    completedAt: nat,
    state: State,
    phase: Phase,
    request: Message,
    response: Message,
    ws: seq<WsFrame>,
    grpc: GrpcTree,
    timedOut: bool,
    truncated: bool,
    meta: int)

  const WS_MAX_FRAMES: nat := 4096
  const WS_FRAME_OVERHEAD: nat := 64
  const GRPC_FIELD_OVERHEAD: nat := 16
  const GRPC_TRUNCATED_LABEL: nat := 9

  function EvictTime(f: Flow): nat {
    if f.completedAt != 0 then f.completedAt else f.startedAt
  }

  // ---------------------------------------------------------------- resident size

  function HeaderCost(hs: seq<Header>): nat {
    if hs == [] then 0 else |hs[0].name| + |hs[0].value| + 4 + HeaderCost(hs[1..])
  }

  function BodyCost(m: Message): nat {
    if |m.body| == 0 then m.size else |m.body|
  }

  function MessageResident(m: Message): nat {
    BodyCost(m) + HeaderCost(m.headers) + HeaderCost(m.trailers)
  }

  function FrameCost(w: WsFrame): nat {
    WS_FRAME_OVERHEAD + if |w.payload| > 0 then |w.payload| else w.size
  }

  function WsResident(ws: seq<WsFrame>): nat {
    if ws == [] then 0 else FrameCost(ws[0]) + WsResident(ws[1..])
  }

  function Sum(costs: seq<nat>): nat {
    if costs == [] then 0 else Sum(costs[..|costs| - 1]) + costs[|costs| - 1]
  }

  function MessagesCost(messages: seq<seq<nat>>): nat {
    if messages == [] then 0
    else MessagesCost(messages[..|messages| - 1]) + GRPC_FIELD_OVERHEAD + Sum(messages[|messages| - 1])
  }

  function TreeBytes(g: GrpcTree): nat {
    g.contentType + g.error + MessagesCost(g.messages)
  }

  function Resident(f: Flow): nat {
    MessageResident(f.request) + MessageResident(f.response) + WsResident(f.ws) + TreeBytes(f.grpc)
  }

  // ---------------------------------------------------------------- what the resident size counts

  /** The text of a list of headers. */
  function HeaderText(hs: seq<Header>): string {
    if hs == [] then ""
    else HeaderText(hs[..|hs| - 1]) + hs[|hs| - 1].name + hs[|hs| - 1].value
  }

  /** The payloads of a list of frames. */
  function Payloads(ws: seq<WsFrame>): seq<Byte> {
    if ws == [] then [] else Payloads(ws[..|ws| - 1]) + ws[|ws| - 1].payload
  }

  /** The sizes declared by frames that hold no payload. */
  function DeclaredSizes(ws: seq<WsFrame>): nat {
    if ws == [] then 0
    else DeclaredSizes(ws[..|ws| - 1]) + if ws[|ws| - 1].payload == [] then ws[|ws| - 1].size else 0
  }

  /** The fields of all messages of a tree, one after the other. */
  function AllFields(messages: seq<seq<nat>>): seq<nat> {
    if messages == [] then [] else AllFields(messages[..|messages| - 1]) + messages[|messages| - 1]
  }

  /** What callers see of a message: its body, or the size declared for a body that is not there, and headers
      and trailers; 4 more for each header. */
  function MessageShown(m: Message): nat {
    (if m.body == [] then m.size else |m.body|) + |HeaderText(m.headers)| + |HeaderText(m.trailers)|
    + 4 * (|m.headers| + |m.trailers|)
  }

  function FramesShown(ws: seq<WsFrame>): nat {
    |Payloads(ws)| + DeclaredSizes(ws) + 64 * |ws|
  }

  function TreeShown(g: GrpcTree): nat {
    g.contentType + g.error + 16 * |g.messages| + Sum(AllFields(g.messages))
  }

  /** The bytes of a flow that callers are shown. */
  function Footprint(f: Flow): nat {
    |f.request.body| + |f.response.body| + |Payloads(f.ws)|
    + |HeaderText(f.request.headers)| + |HeaderText(f.request.trailers)|
    + |HeaderText(f.response.headers)| + |HeaderText(f.response.trailers)|
  }

  lemma {:induction false} HeaderCostSnoc(hs: seq<Header>, h: Header)
    ensures HeaderCost(hs + [h]) == HeaderCost(hs) + |h.name| + |h.value| + 4
  {
    if hs == [] {
      assert [h][1..] == [];
      assert hs + [h] == [h];
    } else {
      assert (hs + [h])[1..] == hs[1..] + [h];
      HeaderCostSnoc(hs[1..], h);
    }
  }

  lemma {:induction false} HeaderCostShown(hs: seq<Header>)
    ensures HeaderCost(hs) == |HeaderText(hs)| + 4 * |hs|
    decreases |hs|
  {
    if hs != [] {
      var k := |hs| - 1;
      HeaderCostShown(hs[..k]);
      HeaderCostSnoc(hs[..k], hs[k]);
      assert hs == hs[..k] + [hs[k]];
    }
  }

  lemma {:induction false} WsResidentSnoc(ws: seq<WsFrame>, w: WsFrame)
    ensures WsResident(ws + [w]) == WsResident(ws) + FrameCost(w)
  {
    if ws == [] {
      assert [w][1..] == [];
      assert ws + [w] == [w];
    } else {
      assert (ws + [w])[1..] == ws[1..] + [w];
      WsResidentSnoc(ws[1..], w);
    }
  }

  lemma {:induction false} WsResidentShown(ws: seq<WsFrame>)
    ensures WsResident(ws) == FramesShown(ws)
    decreases |ws|
  {
    if ws != [] {
      var k := |ws| - 1;
      WsResidentShown(ws[..k]);
      WsResidentSnoc(ws[..k], ws[k]);
      assert ws == ws[..k] + [ws[k]];
    }
  }

  lemma {:induction false} SumConcat(a: seq<nat>, b: seq<nat>)
    ensures Sum(a + b) == Sum(a) + Sum(b)
    decreases |b|
  {
    if b == [] {
      assert a + b == a;
    } else {
      assert (a + b)[..|a + b| - 1] == a + b[..|b| - 1];
      SumConcat(a, b[..|b| - 1]);
    }
  }

  lemma {:induction false} MessagesCostShown(messages: seq<seq<nat>>)
    ensures MessagesCost(messages) == 16 * |messages| + Sum(AllFields(messages))
    decreases |messages|
  {
    if messages != [] {
      MessagesCostShown(messages[..|messages| - 1]);
      SumConcat(AllFields(messages[..|messages| - 1]), messages[|messages| - 1]);
    }
  }

  /** The charge of a flow is what callers see of it, part by part, with 4 for each header, 64 for each frame
      and 16 for each gRPC message; so it is never less than the bytes they are shown. */
  lemma ResidentIsShown(f: Flow)
    ensures Resident(f)
      == MessageShown(f.request) + MessageShown(f.response) + FramesShown(f.ws) + TreeShown(f.grpc)
    ensures Footprint(f) <= Resident(f)
  {
    HeaderCostShown(f.request.headers);
    HeaderCostShown(f.request.trailers);
    HeaderCostShown(f.response.headers);
    HeaderCostShown(f.response.trailers);
    WsResidentShown(f.ws);
    MessagesCostShown(f.grpc.messages);
  }

  /** Replacing one part changes the charge by what it shows more or less; nothing else is charged. */
  lemma ChargeFollowsParts(f: Flow, m: Message, ws: seq<WsFrame>, g: GrpcTree)
    ensures Resident(f.(request := m)) - Resident(f) == MessageShown(m) - MessageShown(f.request)
    ensures Resident(f.(response := m)) - Resident(f) == MessageShown(m) - MessageShown(f.response)
    ensures Resident(f.(ws := ws)) - Resident(f) == FramesShown(ws) - FramesShown(f.ws)
    ensures Resident(f.(grpc := g)) - Resident(f) == TreeShown(g) - TreeShown(f.grpc)
    ensures forall h: Flow | h.request == f.request && h.response == f.response && h.ws == f.ws && h.grpc == f.grpc ::
      Resident(h) == Resident(f)
  {
    ResidentIsShown(f);
    ResidentIsShown(f.(request := m));
    ResidentIsShown(f.(response := m));
    ResidentIsShown(f.(ws := ws));
    ResidentIsShown(f.(grpc := g));
  }

  // ---------------------------------------------------------------- body caps

  function CapSide(m: Message, max: nat): Message {
    var cut := if |m.body| > max then m.(body := m.body[..max], truncated := true) else m;
    if cut.size == 0 then cut.(size := |cut.body|)
    else if cut.size > max && |cut.body| > 0 then cut.(size := |cut.body|, truncated := true)
    else cut
  }

  /** The frames that fit, the first one that does not cut to what is left. */
  function CapFrames(ws: seq<WsFrame>, left: int): seq<WsFrame> {
    if ws == [] || left <= 0 then []
    else if |ws[0].payload| > left then [WsFrame(ws[0].payload[..left], left, true)]
    else
      var first := if ws[0].size == 0 then ws[0].(size := |ws[0].payload|) else ws[0];
      [first] + CapFrames(ws[1..], left - |ws[0].payload|)
  }

  function FrameBytes(ws: seq<WsFrame>): nat {
    if ws == [] then 0 else |ws[0].payload| + FrameBytes(ws[1..])
  }

  function CapWs(ws: seq<WsFrame>, max: nat): seq<WsFrame> {
    CapFrames(if |ws| > WS_MAX_FRAMES then ws[..WS_MAX_FRAMES] else ws, max)
  }

  /** One round of truncateGRPC: the last field of the last message goes, or the message if it has none. */
  function DropLast(g: GrpcTree): GrpcTree
    requires g.messages != []
  {
    var k := |g.messages| - 1;
    var last := g.messages[k];
    g.(messages := g.messages[..k] + (if last == [] then [] else [last[..|last| - 1]]),
       truncated := true,
       error := if g.error == 0 then GRPC_TRUNCATED_LABEL else g.error)
  }

  /** The entries DropLast can still remove. */
  function Entries(messages: seq<seq<nat>>): nat {
    if messages == [] then 0 else Entries(messages[..|messages| - 1]) + 1 + |messages[|messages| - 1]|
  }

  lemma DropLastShrinks(g: GrpcTree)
    requires g.messages != []
    ensures Entries(DropLast(g).messages) < Entries(g.messages)
    ensures MessagesCost(DropLast(g).messages) <= MessagesCost(g.messages)
  {
    var k := |g.messages| - 1;
    var last := g.messages[k];
    if last == [] {
      assert g.messages[..k] + [] == g.messages[..k];
    } else {
      assert DropLast(g).messages[..k] == g.messages[..k];
    }
  }

  function CapTree(g: GrpcTree, max: nat): GrpcTree
    decreases Entries(g.messages)
  {
    if TreeBytes(g) <= max || g.messages == [] then g
    else
      DropLastShrinks(g);
      CapTree(DropLast(g), max)
  }

  /** truncateGRPC. */
  method TruncateTree(g: GrpcTree, max: nat) returns (r: GrpcTree)
    ensures r == CapTree(g, max)
  {
    r := g;
    while TreeBytes(r) > max && |r.messages| > 0
      invariant CapTree(r, max) == CapTree(g, max)
      decreases Entries(r.messages)
    {
      DropLastShrinks(r);
      r := DropLast(r);
    }
  }

  /** The messages of a are those of b up to the last, which kept a prefix of its fields. */
  ghost predicate TreePrefix(a: seq<seq<nat>>, b: seq<seq<nat>>) {
    && |a| <= |b|
    && (forall i | 0 <= i < |a| - 1 :: a[i] == b[i])
    && (a != [] ==> a[|a| - 1] <= b[|a| - 1])
  }

  /** The tree cap cuts from the end, changes nothing it need not, and gets the tree under the cap exactly
      when the tree fits already or its labels do, the one for the cut included. */
  lemma {:induction false} CapTreeKept(g: GrpcTree, max: nat)
    ensures TreePrefix(CapTree(g, max).messages, g.messages)
    ensures CapTree(g, max) == g <==> TreeBytes(g) <= max || g.messages == []
    ensures CapTree(g, max) != g ==> CapTree(g, max).truncated && CapTree(g, max).error > 0
    ensures TreeBytes(CapTree(g, max)) <= max <==>
      || TreeBytes(g) <= max
      || (g.messages != [] && g.contentType + (if g.error == 0 then GRPC_TRUNCATED_LABEL else g.error) <= max)
    decreases Entries(g.messages)
  {
    if TreeBytes(g) > max && g.messages != [] {
      DropLastShrinks(g);
      CapTreeKept(DropLast(g), max);
      CutOnce(g, CapTree(DropLast(g), max));
    }
  }

  /** The cap is missed: cutting the one field and its message adds a label that alone is over it. */
  lemma LabelsCanExceedCap()
    ensures
      var g := GrpcTree(10, 0, [[1]], false);
      CapTree(g, 5).messages == [] && TreeBytes(CapTree(g, 5)) == 19
  {
    var g := GrpcTree(10, 0, [[1]], false);
    assert [[1]][..0] == [] && [1][..0] == [];
    var once := DropLast(g);
    assert once == GrpcTree(10, GRPC_TRUNCATED_LABEL, [[]], true);
    var twice := DropLast(once);
    assert twice.messages == [];
    assert CapTree(once, 5) == twice;
  }

  lemma CutOnce(g: GrpcTree, r: GrpcTree)
    requires g.messages != [] && TreePrefix(r.messages, DropLast(g).messages)
    ensures TreePrefix(r.messages, g.messages) && r.messages != g.messages
  {
    var cut := DropLast(g).messages;
    assert forall i | 0 <= i < |cut| - 1 :: cut[i] == g.messages[i];
  }

  function CapFlow(f: Flow, max: nat): Flow {
    var request := CapSide(f.request, max);
    var response := CapSide(f.response, max);
    var ws := CapWs(f.ws, max);
    var grpc := CapTree(f.grpc, max);
    f.(request := request, response := response, ws := ws, grpc := grpc,
       truncated := f.truncated || request.truncated || response.truncated || FrameBytes(ws) < FrameBytes(f.ws)
                    || |ws| < |f.ws| || grpc.truncated)
  }

  /** Frames kept under a byte budget: prefixes of the originals, all but the last whole, and the budget
      is used up if anything is missing. */
  ghost predicate KeptWithin(kept: seq<WsFrame>, ws: seq<WsFrame>, left: nat) {
    && |kept| <= |ws| && FrameBytes(kept) <= left
    && (forall i | 0 <= i < |kept| :: kept[i].payload <= ws[i].payload)
    && (forall i | 0 <= i < |kept| - 1 :: kept[i].payload == ws[i].payload)
    && (FrameBytes(kept) == left || (|kept| == |ws| && forall i | 0 <= i < |ws| :: kept[i].payload == ws[i].payload))
  }

  /** One more whole frame in front of frames kept under what it leaves of the budget. */
  lemma KeptBehind(first: WsFrame, kept: seq<WsFrame>, ws: seq<WsFrame>, left: nat)
    requires ws != [] && first.payload == ws[0].payload && |first.payload| <= left
    requires KeptWithin(kept, ws[1..], left - |first.payload|)
    ensures KeptWithin([first] + kept, ws, left)
  {
    var all, rest := [first] + kept, ws[1..];
    assert all[1..] == kept;
    forall i | 0 <= i < |all|
      ensures all[i].payload <= ws[i].payload && (i < |all| - 1 ==> all[i].payload == ws[i].payload)
    {
      if i > 0 {
        assert all[i] == kept[i - 1] && ws[i] == rest[i - 1];
      }
    }
    if FrameBytes(kept) != left - |first.payload| {
      forall i | 0 <= i < |ws| ensures all[i].payload == ws[i].payload {
        if i > 0 {
          assert all[i] == kept[i - 1] && ws[i] == rest[i - 1];
        }
      }
    }
  }

  lemma {:induction false} CapFramesKept(ws: seq<WsFrame>, left: nat)
    ensures KeptWithin(CapFrames(ws, left), ws, left)
    decreases |ws|
  {
    if ws != [] && left > 0 {
      if |ws[0].payload| > left {
        var cut := WsFrame(ws[0].payload[..left], left, true);
        assert CapFrames(ws, left) == [cut] && [cut][1..] == [] && FrameBytes([cut]) == left;
      } else {
        var kept := CapFrames(ws[1..], left - |ws[0].payload|);
        CapFramesKept(ws[1..], left - |ws[0].payload|);
        var first := if ws[0].size == 0 then ws[0].(size := |ws[0].payload|) else ws[0];
        assert CapFrames(ws, left) == [first] + kept;
        hide KeptWithin, CapFrames;
        KeptBehind(first, kept, ws, left);
      }
    }
  }

  /** The body caps keep prefixes, as long as the cap allows, and flag what they cut. */
  lemma CapsKeepPrefixes(f: Flow, max: nat)
    ensures
      var c := CapFlow(f, max);
      && c.request.body == f.request.body[..if |f.request.body| > max then max else |f.request.body|]
      && c.response.body == f.response.body[..if |f.response.body| > max then max else |f.response.body|]
      && (c.request.body != f.request.body ==> c.request.truncated && c.truncated)
      && (c.response.body != f.response.body ==> c.response.truncated && c.truncated)
      && |c.ws| <= WS_MAX_FRAMES
      && KeptWithin(c.ws, if |f.ws| > WS_MAX_FRAMES then f.ws[..WS_MAX_FRAMES] else f.ws, max)
      && (|c.ws| < |f.ws| || FrameBytes(c.ws) < FrameBytes(f.ws) ==> c.truncated)
      && TreePrefix(c.grpc.messages, f.grpc.messages)
      && (c.grpc != f.grpc ==> c.grpc.truncated && c.truncated)
  {
    CapTreeKept(f.grpc, max);
    CapFramesKept(if |f.ws| > WS_MAX_FRAMES then f.ws[..WS_MAX_FRAMES] else f.ws, max);
  }

  // ---------------------------------------------------------------- honest sizes

  /** Size is the length of the body it describes, or the body is empty. */
  predicate HonestMessage(m: Message) {
    |m.body| == 0 || m.size == |m.body|
  }

  predicate HonestFrames(ws: seq<WsFrame>) {
    forall i | 0 <= i < |ws| :: ws[i].size == |ws[i].payload|
  }

  predicate Honest(f: Flow) {
    HonestMessage(f.request) && HonestMessage(f.response) && HonestFrames(f.ws)
  }

  /** What the proxy's capture code hands to Insert: sizes unset or equal to the captured length. */
  predicate Captured(f: Flow) {
    && (f.request.size == 0 || f.request.size == |f.request.body|)
    && (f.response.size == 0 || f.response.size == |f.response.body|)
    && (forall i | 0 <= i < |f.ws| :: f.ws[i].size == 0 || f.ws[i].size == |f.ws[i].payload|)
  }

  lemma CapSideHonest(m: Message, max: nat)
    requires m.size == 0 || m.size == |m.body|
    ensures HonestMessage(CapSide(m, max)) && |CapSide(m, max).body| <= max
    ensures max > 0 ==> CapSide(m, max).size == |CapSide(m, max).body|
    ensures CapSide(m, max).truncated <==> m.truncated || |m.body| > max
    ensures CapSide(m, max).headers == m.headers && CapSide(m, max).trailers == m.trailers
  {
  }

  lemma {:induction false} CapFramesHonest(ws: seq<WsFrame>, left: int)
    requires forall i | 0 <= i < |ws| :: ws[i].size == 0 || ws[i].size == |ws[i].payload|
    ensures HonestFrames(CapFrames(ws, left)) && |CapFrames(ws, left)| <= |ws|
    ensures forall i | 0 <= i < |CapFrames(ws, left)| ::
      CapFrames(ws, left)[i].truncated <==> ws[i].truncated || CapFrames(ws, left)[i].payload != ws[i].payload
    decreases |ws|
  {
    if ws != [] && left > 0 && |ws[0].payload| <= left {
      CapFramesHonest(ws[1..], left - |ws[0].payload|);
    }
  }

  /** Captured flows stay honest under every body cap, which marks exactly what it cuts and touches nothing but
      bodies, frames and trees. */
  lemma CapFlowHonest(f: Flow, max: nat)
    requires Captured(f)
    ensures Honest(CapFlow(f, max))
    ensures
      var c := CapFlow(f, max);
      && (c.request.truncated <==> f.request.truncated || |f.request.body| > max)
      && (c.response.truncated <==> f.response.truncated || |f.response.body| > max)
      && (forall i | 0 <= i < |c.ws| :: i < |f.ws|
            && (c.ws[i].truncated <==> f.ws[i].truncated || c.ws[i].payload != f.ws[i].payload))
      && c.request.headers == f.request.headers && c.request.trailers == f.request.trailers
      && c.response.headers == f.response.headers && c.response.trailers == f.response.trailers
      && c.(request := f.request, response := f.response, ws := f.ws, grpc := f.grpc, truncated := f.truncated) == f
  {
    CapSideHonest(f.request, max);
    CapSideHonest(f.response, max);
    CapFramesHonest(if |f.ws| > WS_MAX_FRAMES then f.ws[..WS_MAX_FRAMES] else f.ws, max);
  }

  /** A body moved to disk leaves the resident size alone exactly when its size is honest. */
  lemma SpillKeepsCostIff(m: Message)
    ensures MessageResident(m.(body := [])) == MessageResident(m) <==> HonestMessage(m)
  {
  }

  lemma {:induction false} ClearedFramesCost(ws: seq<WsFrame>)
    requires HonestFrames(ws)
    ensures WsResident(Cleared(ws)) == WsResident(ws)
    decreases |ws|
  {
    if ws != [] {
      ClearedFramesCost(ws[1..]);
      assert Cleared(ws)[1..] == Cleared(ws[1..]);
    }
  }

  function Cleared(ws: seq<WsFrame>): (r: seq<WsFrame>)
    ensures |r| == |ws|
    ensures forall i | 0 <= i < |ws| ::
      r[i] == WsFrame([], if ws[i].size == 0 then |ws[i].payload| else ws[i].size, ws[i].truncated)
  {
    seq(|ws|, i requires 0 <= i < |ws| =>
      WsFrame([], if ws[i].size == 0 then |ws[i].payload| else ws[i].size, ws[i].truncated))
  }
}
