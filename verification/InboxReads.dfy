/**
 Get (internal/store/memory.go, loadSpill in internal/store/spill.go): the row is read under the
 lock and its spill files after it, so other calls may come in between.

 `disk` holds, for every file Get opens, what that name held when it was opened; each name is
 opened once, so one map covers reads at different moments. Names in `broken` are unreadable.
 */
module InboxReads {
  import opened Bytes
  import opened Flows
  import opened InboxSpec
  import opened InboxLaws
  import opened InboxRuns
  import opened Spill
  import opened InboxStore
  import opened InboxMemory
  import opened InboxPatch
  import opened InboxApi

  datatype GetResult = Got(flow: Flow) | GetNotFound | GetSpillError

  datatype Reading = ReadOk | ReadMissing | ReadBroken

  /** One os.ReadFile. */
  function ReadFile(disk: Files, broken: set<File>, f: File): Reading {
    if f in broken then ReadBroken else if f in disk then ReadOk else ReadMissing
  }

  /** Whether loadSpill opens a side's file. */
  predicate Opens(rec: Record, side: Side) {
    match side
    case Req => rec.reqSpill && |rec.flow.request.body| == 0 && rec.flow.request.size > 0
    case Resp => rec.respSpill && |rec.flow.response.body| == 0 && rec.flow.response.size > 0
    case Ws => rec.wsSpill
  }

  function Names(rec: Record, id: Id, sides: seq<Side>): seq<File> {
    if sides == [] then []
    else (if Opens(rec, sides[0]) then [File(id, sides[0], false)] else []) + Names(rec, id, sides[1..])
  }

  /** The first failing read ends loadSpill. */
  function ReadAll(names: seq<File>, disk: Files, broken: set<File>): Reading {
    if names == [] then ReadOk
    else if ReadFile(disk, broken, names[0]) != ReadOk then ReadFile(disk, broken, names[0])
    else ReadAll(names[1..], disk, broken)
  }

  method ReadEach(names: seq<File>, disk: Files, broken: set<File>) returns (r: Reading)
    ensures r == ReadAll(names, disk, broken)
  {
    var i := 0;
    while i < |names|
      invariant 0 <= i <= |names| && ReadAll(names, disk, broken) == ReadAll(names[i..], disk, broken)
    {
      r := ReadFile(disk, broken, names[i]);
      if r != ReadOk {
        return;
      }
      i := i + 1;
    }
    return ReadOk;
  }

  lemma {:induction false} NamesHold(rec: Record, id: Id, sides: seq<Side>)
    ensures forall f :: f in Names(rec, id, sides) <==>
      f.id == id && !f.tmp && f.side in sides && Opens(rec, f.side)
    decreases |sides|
  {
    if sides != [] {
      NamesHold(rec, id, sides[1..]);
      assert sides == [sides[0]] + sides[1..];
    }
  }

  lemma {:induction false} ReadsOkIff(names: seq<File>, disk: Files, broken: set<File>)
    ensures ReadAll(names, disk, broken) == ReadOk <==> forall f | f in names :: f in disk && f !in broken
    ensures broken == {} ==> ReadAll(names, disk, broken) != ReadBroken
    decreases |names|
  {
    if names != [] {
      ReadsOkIff(names[1..], disk, broken);
      assert names == [names[0]] + names[1..];
    }
  }

  /** The order of loadSpill. */
  function Sides(): seq<Side> {
    [Req, Resp, Ws]
  }

  function Opened(rec: Record, id: Id): seq<File> {
    Names(rec, id, Sides())
  }

  predicate Readable(rec: Record, id: Id, disk: Files, broken: set<File>) {
    forall side | Opens(rec, side) :: File(id, side, false) in disk && File(id, side, false) !in broken
  }

  lemma OpenedReadable(rec: Record, id: Id, disk: Files, broken: set<File>)
    ensures ReadAll(Opened(rec, id), disk, broken) == ReadOk <==> Readable(rec, id, disk, broken)
    ensures broken == {} ==> ReadAll(Opened(rec, id), disk, broken) != ReadBroken
  {
    NamesHold(rec, id, Sides());
    ReadsOkIff(Opened(rec, id), disk, broken);
    forall side ensures side in Sides() {
      match side
      case Req => assert Sides()[0] == side;
      case Resp => assert Sides()[1] == side;
      case Ws => assert Sides()[2] == side;
    }
    if Readable(rec, id, disk, broken) {
      forall f | f in Opened(rec, id) ensures f in disk && f !in broken {
        assert f == File(id, f.side, false);
      }
    } else {
      var side :| Opens(rec, side) && !(File(id, side, false) in disk && File(id, side, false) !in broken);
      assert File(id, side, false) in Opened(rec, id);
    }
  }

  /** The file of an opened side gives what it gave under the lock: the same bytes, or for frames at least
      the same split. */
  predicate SameBytes(rec: Record, side: Side, was: seq<Byte>, now: seq<Byte>) {
    if side == Ws then SplitFrames(rec.flow.ws, now) == SplitFrames(rec.flow.ws, was) else now == was
  }

  ghost predicate Undisturbed(rec: Record, id: Id, live: Files, disk: Files) {
    forall side | Opens(rec, side) ::
      var f := File(id, side, false);
      f in live && f in disk && SameBytes(rec, side, live[f], disk[f])
  }

  /** What is loaded is what callers were promised exactly if no opened file was replaced. */
  lemma LoadsSameIff(rec: Record, id: Id, live: Files, disk: Files)
    requires RecordOk(rec, id, live) && Readable(rec, id, disk, {})
    ensures Load(rec, id, disk) == Load(rec, id, live) <==> Undisturbed(rec, id, live, disk)
  {
    var req, resp, ws := File(id, Req, false), File(id, Resp, false), File(id, Ws, false);
    assert Opens(rec, Req) == rec.reqSpill && Opens(rec, Resp) == rec.respSpill && Opens(rec, Ws) == rec.wsSpill;
    assert Opens(rec, Req) ==> req in live && req in disk;
    assert Opens(rec, Resp) ==> resp in live && resp in disk;
    assert Opens(rec, Ws) ==> ws in live && ws in disk;
    var x, y := Load(rec, id, disk), Load(rec, id, live);
    assert Undisturbed(rec, id, live, disk) <==>
      && (Opens(rec, Req) ==> disk[req] == live[req])
      && (Opens(rec, Resp) ==> disk[resp] == live[resp])
      && (Opens(rec, Ws) ==> SplitFrames(rec.flow.ws, disk[ws]) == SplitFrames(rec.flow.ws, live[ws])) by {
      if Undisturbed(rec, id, live, disk) {
        assert Opens(rec, Req) ==> SameBytes(rec, Req, live[req], disk[req]);
        assert Opens(rec, Resp) ==> SameBytes(rec, Resp, live[resp], disk[resp]);
        assert Opens(rec, Ws) ==> SameBytes(rec, Ws, live[ws], disk[ws]);
      }
    }
    assert x.request == y.request <==> (Opens(rec, Req) ==> disk[req] == live[req]);
    assert x.response == y.response <==> (Opens(rec, Resp) ==> disk[resp] == live[resp]);
  }

  /** The answer for a row that was read, given whether it still stands at the second look. */
  function Answer(rec: Record, id: Id, disk: Files, broken: set<File>, still: bool): GetResult {
    match ReadAll(Opened(rec, id), disk, broken)
    case ReadOk => Got(Load(rec, id, disk))
    case ReadBroken => GetSpillError
    case ReadMissing => if still then GetSpillError else GetNotFound
  }

  /** Get. It answers with the flow callers were promised exactly if every file it opens is readable and
      gives what it gave under the lock; a file that went away with its row reads as not found, any
      other failed read as a spill error. `last` is the store at the second look. */
  method Get(s: Store, id: Id, disk: Files, broken: set<File>, last: Store) returns (r: GetResult)
    requires Valid(s)
    ensures id !in Abs(s).rows ==> r == GetNotFound
    ensures id in Abs(s).rows ==> r == Answer(s.byID[id], id, disk, broken, id in last.byID)
    ensures id in Abs(s).rows ==>
      (r == Got(Abs(s).rows[id].flow)
       <==> Readable(s.byID[id], id, disk, broken) && Undisturbed(s.byID[id], id, Live(s.files), disk))
  {
    if id !in s.byID {
      return GetNotFound;
    }
    GetExactly(s, id, disk, broken);
    hide ReadAll, Opened, Load, Readable, Undisturbed, Valid, Abs, Live;
    var read := ReadEach(Opened(s.byID[id], id), disk, broken);
    match read
    case ReadOk => return Got(Load(s.byID[id], id, disk));
    case ReadBroken => return GetSpillError;
    case ReadMissing => return if id in last.byID then GetSpillError else GetNotFound;
  }

  lemma GetExactly(s: Store, id: Id, disk: Files, broken: set<File>)
    requires Valid(s) && id in s.byID
    ensures id in Abs(s).rows
    ensures ReadAll(Opened(s.byID[id], id), disk, broken) == ReadOk <==> Readable(s.byID[id], id, disk, broken)
    ensures Readable(s.byID[id], id, disk, broken) ==>
      (Load(s.byID[id], id, disk) == Abs(s).rows[id].flow <==> Undisturbed(s.byID[id], id, Live(s.files), disk))
  {
    var rec, live := s.byID[id], Live(s.files);
    assert RecordOk(rec, id, live);
    assert Abs(s).rows[id].flow == Load(rec, id, live);
    OpenedReadable(rec, id, disk, broken);
    hide Valid, Load, Live, RecordOk, Undisturbed, Abs;
    if Readable(rec, id, disk, broken) {
      LoadsSameIff(rec, id, live, disk);
    }
  }

  /** With nothing in between, Get answers with every visible row. */
  lemma QuietGet(s: Store, id: Id, disk: Files)
    requires Valid(s) && id in s.byID && disk == Live(s.files)
    ensures Readable(s.byID[id], id, disk, {}) && Undisturbed(s.byID[id], id, Live(s.files), disk)
  {
    assert RecordOk(s.byID[id], id, Live(s.files));
    hide Valid, Live;
    QuietReads(s.byID[id], id, disk);
  }

  lemma QuietReads(rec: Record, id: Id, live: Files)
    requires RecordOk(rec, id, live)
    ensures Readable(rec, id, live, {}) && Undisturbed(rec, id, live, live)
  {
  }

  // ---------------------------------------------------------------- a Resume in between

  /** A flow with the body of its paused side replaced, and nothing else. */
  function WithBody(f: Flow, body: seq<Byte>): Flow {
    if f.phase == ResponsePhase then f.(response := f.response.(body := body))
    else f.(request := f.request.(body := body))
  }

  /** What the files of a row give once a patch has replaced them. */
  lemma PatchedReads(rec: Record, id: Id, p: Patch, spilled: bool, a: Files, b: Files)
    requires RecordOk(rec, id, a) && PatchedFiles(rec, id, p, spilled, a, b)
    ensures p.body.KeepBody? || !Opens(rec, SideOf(rec.flow)) ==> Readable(rec, id, b, {}) && Undisturbed(rec, id, a, b)
    ensures p.body.SetBody? && Opens(rec, SideOf(rec.flow)) && spilled ==>
      Readable(rec, id, b, {}) && Load(rec, id, b) == WithBody(Load(rec, id, a), p.body.body)
    ensures p.body.SetBody? && Opens(rec, SideOf(rec.flow)) && !spilled ==> !Readable(rec, id, b, {})
  {
    var mine := File(id, SideOf(rec.flow), false);
    forall side | side != SideOf(rec.flow) && Opens(rec, side)
      ensures
        var f := File(id, side, false);
        f in a && f in b && b[f] == a[f]
    {
      assert File(id, side, false) != mine && File(id, side, false).id == id;
    }
    if p.body.SetBody? && Opens(rec, SideOf(rec.flow)) && spilled {
      assert b[mine] == p.body.body;
      if rec.flow.phase == ResponsePhase {
        assert Opens(rec, Req) == rec.reqSpill;
      } else {
        assert Opens(rec, Resp) == rec.respSpill;
      }
      assert Opens(rec, Ws) == rec.wsSpill;
    }
  }

  /** What Get answers from files that a patch of the row has replaced. */
  function PatchedAnswer(rec: Record, p: Patch, spilled: bool, before: Flow): GetResult {
    if p.body.KeepBody? || !Opens(rec, SideOf(rec.flow)) then Got(before)
    else if spilled then Got(WithBody(before, p.body.body))
    else GetSpillError
  }

  lemma PatchedAnswers(rec: Record, id: Id, p: Patch, spilled: bool, a: Files, b: Files)
    requires RecordOk(rec, id, a) && PatchedFiles(rec, id, p, spilled, a, b)
    ensures Answer(rec, id, b, {}, true) == PatchedAnswer(rec, p, spilled, Load(rec, id, a))
  {
    PatchedReads(rec, id, p, spilled, a, b);
    OpenedReadable(rec, id, b, {});
    hide RecordOk, PatchedFiles, Load, Readable, Undisturbed, Opens, ReadAll, Opened;
    if Readable(rec, id, b, {}) {
      LoadsSameIff(rec, id, a, b);
    }
  }

  lemma QuietAnswers(rec: Record, id: Id, live: Files)
    requires RecordOk(rec, id, live)
    ensures Answer(rec, id, live, {}, true) == Got(Load(rec, id, live))
  {
    QuietReads(rec, id, live);
    OpenedReadable(rec, id, live, {});
  }

  lemma RowRead(s: Store, id: Id)
    requires Valid(s) && id in s.byID
    ensures RecordOk(s.byID[id], id, Live(s.files)) && id in Abs(s).rows
    ensures Abs(s).rows[id].flow == Load(s.byID[id], id, Live(s.files))
  {
  }

  /** A Get with a whole Resume between its two halves. If the Resume goes through and replaces a body that
      was on disk, Get answers with the old row around the new body, or, if the new body is not spilled,
      with a spill error for a row that was there all along; otherwise it notices nothing. */
  method GetAroundResume(s: Store, id: Id, p: Patch) returns (r: GetResult, t: Store)
    requires Valid(s) && id in s.byID
    ensures
      var accepted := ResumeVerdict(s, id, true, p).Accepted?;
      && r == (if accepted then PatchedAnswer(s.byID[id], p, PatchSpills(s, p), Abs(s).rows[id].flow)
               else Got(Abs(s).rows[id].flow))
      && Valid(t) && Abs(t) == (if accepted then ResumeStep(Abs(s), id, true, p, PatchCharge(s, id, p)) else Abs(s))
  {
    hide Valid, Abs, Live, RecordOk, PatchedFiles, PatchedAnswer, Answer, ResumeVerdict, ResumeStep, PatchSpills;
    var v;
    t, v := ResumeFlow(s, id, true, p, false, false);
    RowRead(s, id);
    if v.Accepted? {
      PatchedAnswers(s.byID[id], id, p, PatchSpills(s, p), Live(s.files), Live(t.files));
    } else {
      QuietAnswers(s.byID[id], id, Live(s.files));
    }
    r := Get(s, id, Live(t.files), {}, t);
  }

  // ---------------------------------------------------------------- a run that shows both

  /** A captured request that a rule paused. */
  predicate PausedRequest(f: Flow) {
    && f.state == Paused && f.phase == RequestPhase && f.request.size == |f.request.body| > 0
    && f.request.headers == [] && f.request.trailers == [] && f.ws == []
    && f.response == Message([], [], [], 0, false) && f.grpc == GrpcTree(0, 0, [], false)
    && !f.request.truncated && !f.truncated
  }

  lemma RequestAsCaptured(f: Flow, max: nat)
    requires PausedRequest(f) && |f.request.body| <= max
    ensures CapFlow(f, max) == f && Resident(f) == |f.request.body|
  {
  }

  lemma RequestStored(f: Flow, threshold: nat, size: nat, epoch: nat)
    requires PausedRequest(f) && 0 < threshold <= |f.request.body|
    ensures
      var rec := Stored(f, JobOf(f, true, threshold), size, epoch);
      && Opens(rec, Req) && SideOf(rec.flow) == Req && rec.flow.state == Paused
      && !Struck(JobOf(f, true, threshold), {})
  {
  }

  lemma RequestCharge(f: Flow, threshold: nat, size: nat, epoch: nat, y: seq<Byte>)
    requires PausedRequest(f) && 0 < threshold <= |f.request.body|
    ensures
      var rec := Stored(f, JobOf(f, true, threshold), size, epoch);
      Resident(Patched(rec.flow, Patch(KeepHeaders, SetBody(y)))) == |y|
  {
    assert WsConcat([]) == [] && Cleared([]) == [];
  }

  lemma RequestInserted(a: Inbox, f: Flow)
    requires Initial(a) && PausedRequest(f) && |f.request.body| <= a.caps.maxBytes
    ensures InsertVerdict(a, a.caps, a.epoch, |f.request.body|).Accepted?
    ensures
      var b := InboxSpec.Insert(a, 0, f, |f.request.body|);
      && 0 in b.rows && b.rows[0] == Row(f, |f.request.body|, a.epoch)
      && b.bytes == |f.request.body| && b.caps == a.caps
  {
    InsertWithRoom(a, 0, f, |f.request.body|);
  }

  /** A store whose only row is a paused request with its body on disk. */
  ghost predicate HoldsRequest(s: Store, caps: Caps, threshold: nat, f: Flow) {
    && 0 in s.byID && s.byID[0] == Stored(f, JobOf(f, true, threshold), |f.request.body|, s.core.epoch)
    && 0 in Abs(s).rows && Abs(s).rows[0].flow == f && Abs(s).rows[0].size == |f.request.body|
    && Abs(s).bytes == |f.request.body| && Abs(s).caps == caps && OptionsOf(s) == Spilling(true, threshold)
  }

  lemma ResumeAnswer(s: Store, caps: Caps, threshold: nat, f: Flow, y: seq<Byte>)
    requires HoldsRequest(s, caps, threshold, f) && PausedRequest(f) && 0 < threshold <= |f.request.body|
    requires |y| <= caps.maxBody && |y| <= caps.maxBytes
    ensures
      var p := Patch(KeepHeaders, SetBody(y));
      && ResumeVerdict(s, 0, true, p).Accepted?
      && PatchedAnswer(s.byID[0], p, PatchSpills(s, p), Abs(s).rows[0].flow)
         == if |y| >= threshold then Got(f.(request := f.request.(body := y))) else GetSpillError
  {
    RequestStored(f, threshold, |f.request.body|, s.core.epoch);
    RequestCharge(f, threshold, |f.request.body|, s.core.epoch, y);
    hide Resident, Patched, Stored, JobOf, Opens, Loaded, Struck, Live;
  }

  lemma RequestHeld(a: Inbox, s: Store, caps: Caps, threshold: nat, f: Flow)
    requires Initial(a) && a.caps == caps && PausedRequest(f) && |f.request.body| <= caps.maxBytes
    requires 0 in Abs(s).rows && Abs(s) == InboxSpec.Insert(a, 0, f, |f.request.body|)
    requires OptionsOf(s) == Spilling(true, threshold) && 0 in s.byID
    requires s.byID[0] == Stored(f, JobOf(f, true, threshold), |f.request.body|, a.epoch)
    ensures HoldsRequest(s, caps, threshold, f)
  {
    RequestInserted(a, f);
    hide Stored, JobOf, Loaded, PausedRequest;
    assert Abs(s).epoch == a.epoch;
  }

  /** A new store takes the request. */
  lemma InsertAccepted(st: Store, caps: Caps, threshold: nat, f: Flow)
    requires Valid(st) && Initial(Abs(st)) && Abs(st).caps == caps && OptionsOf(st) == Spilling(true, threshold)
    requires PausedRequest(f) && 0 < threshold <= |f.request.body| && GoodCaps(caps)
    requires |f.request.body| <= caps.maxBody && |f.request.body| <= caps.maxBytes
    ensures 0 !in st.byID && st.core.epoch == Abs(st).epoch
    ensures CapFlow(f, caps.maxBody) == f && Resident(f) == |f.request.body| && HonestFrames(f.ws)
    ensures InsertOutcome(Abs(st), st.spillOn, st.threshold, st.core.epoch, f, caps, {}, {}) == Accepted
  {
    RequestAsCaptured(f, caps.maxBody);
    RequestStored(f, threshold, 0, 0);
    RequestInserted(Abs(st), f);
    assert 0 in st.byID ==> 0 in Abs(st).rows;
    hide Resident, CapFlow, JobOf, Stored, InsertVerdict, InboxSpec.Insert, Valid, Struck, Opens;
  }

  /** A new store, and Insert of the request. */
  method SpillRequest(caps: Caps, threshold: nat, f: Flow) returns (s: Store)
    requires GoodCaps(caps) && PausedRequest(f) && 0 < threshold <= |f.request.body|
    requires |f.request.body| <= caps.maxBody && |f.request.body| <= caps.maxBytes
    ensures Valid(s) && HoldsRequest(s, caps, threshold, f)
  {
    hide NewStore, Valid, Abs, Live, InsertOutcome, CapFlow, Resident, JobOf, Stored, InboxSpec.Insert, HoldsRequest,
      PausedRequest, HonestStore, Priced, Initial, HonestFrames, SubIndex, GoodCaps;
    var st := NewStore(caps, true, threshold);
    NewStoreSound(caps, true, threshold);
    ghost var a := Abs(st);
    InsertAccepted(st, caps, threshold, f);
    var v;
    s, v := InsertFlow(st, st.core.epoch, 0, f, caps, {}, {});
    RequestHeld(a, s, caps, threshold, f);
  }

  /** From a new store: a paused request is spilled, and a Get of it meets a Resume with body y. */
  method TornGet(caps: Caps, threshold: nat, f: Flow, y: seq<Byte>) returns (r: GetResult)
    requires GoodCaps(caps) && PausedRequest(f) && 0 < threshold <= |f.request.body|
    requires |f.request.body| <= caps.maxBody && |f.request.body| <= caps.maxBytes
    requires |y| <= caps.maxBody && |y| <= caps.maxBytes
    ensures r == if |y| >= threshold then Got(f.(request := f.request.(body := y))) else GetSpillError
  {
    var s := SpillRequest(caps, threshold, f);
    ResumeAnswer(s, caps, threshold, f, y);
    assert 0 in s.byID;
    hide *;
    var t;
    r, t := GetAroundResume(s, 0, Patch(KeepHeaders, SetBody(y)));
  }
}
