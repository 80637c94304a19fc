/**
 The row updates of internal/store/breakpoint.go on the mutable inbox: Pause, Drop,
 ExpireBreakpoint, and Resume with its all-or-nothing patch.
 */
module InboxPatch {
  import opened Flows
  import opened Lists
  import opened InboxSpec
  import opened InboxLaws
  import opened InboxRuns
  import opened InboxEffects
  import opened Spill
  import opened InboxStore
  import opened InboxMemory

  // ---------------------------------------------------------------- state changes

  function Stamped(f: Flow, state: State, timedOut: bool, completedAt: nat): Flow {
    f.(state := state, timedOut := timedOut, completedAt := completedAt)
  }

  function StampRecord(s: Store, id: Id, state: State, timedOut: bool, completedAt: nat): Store
    requires id in s.byID
  {
    s.(byID := s.byID[id := s.byID[id].(flow := Stamped(s.byID[id].flow, state, timedOut, completedAt))],
       core := s.core.(generation := s.core.generation + 1))
  }

  lemma StampLoads(rec: Record, id: Id, live: Files, state: State, timedOut: bool, completedAt: nat)
    ensures
      var rec' := rec.(flow := Stamped(rec.flow, state, timedOut, completedAt));
      && RowOf(rec', id, live)
        == RowOf(rec, id, live).(flow := Stamped(Load(rec, id, live), state, timedOut, completedAt))
      && (RecordOk(rec, id, live) ==> RecordOk(rec', id, live))
  {
  }

  lemma FilesSwap(byID: map<Id, Record>, id: Id, rec: Record, live: Files)
    requires id in byID && FilesOk(byID, live, {}) && RecordOk(rec, id, live)
    requires forall side :: Flag(rec, side) == Flag(byID[id], side)
    ensures FilesOk(byID[id := rec], live, {})
  {
    forall f | f in live ensures f.id in byID[id := rec] && Flag(byID[id := rec][f.id], f.side) {
    }
  }

  /** A rewritten record whose flags and charge are unchanged is a restated row. */
  function SwapRecord(s: Store, id: Id, rec: Record): Store {
    s.(byID := s.byID[id := rec], core := s.core.(generation := s.core.generation + 1))
  }

  lemma SwapView(c: Core, rows: map<Id, Row>, id: Id, f: Flow)
    requires id in rows
    ensures
      View(c.(generation := c.generation + 1), rows[id := rows[id].(flow := f)]) == Restate(View(c, rows), id, f)
  {
  }

  lemma SwapRecordAbs(s: Store, id: Id, rec: Record, g: Flow)
    requires id in s.byID
    requires RowOf(rec, id, Live(s.files)) == RowOf(s.byID[id], id, Live(s.files)).(flow := g)
    ensures Abs(SwapRecord(s, id, rec)) == Restate(Abs(s), id, g)
  {
    var live := Live(s.files);
    LoadedPut(s.byID, id, rec, live, live);
    SwapView(s.core, Loaded(s.byID, live), id, g);
  }

  lemma ValidFrom(s: Store, a: Inbox)
    requires Abs(s) == a && Inv(a) && FilesOk(s.byID, Live(s.files), {}) && (s.spillOn ==> s.threshold > 0)
    ensures Valid(s)
  {
  }

  lemma SwapRecordValid(s: Store, id: Id, rec: Record, g: Flow)
    requires Valid(s) && id in s.byID && RecordOk(rec, id, Live(s.files))
    requires RowOf(rec, id, Live(s.files)) == RowOf(s.byID[id], id, Live(s.files)).(flow := g)
    requires forall side :: Flag(rec, side) == Flag(s.byID[id], side)
    ensures Abs(SwapRecord(s, id, rec)) == Restate(Abs(s), id, g)
    ensures Valid(SwapRecord(s, id, rec))
  {
    FilesSwap(s.byID, id, rec, Live(s.files));
    SwapRecordAbs(s, id, rec, g);
    RestateInv(Abs(s), id, g);
    ValidFrom(SwapRecord(s, id, rec), Restate(Abs(s), id, g));
  }

  /** A state change acts on what callers see exactly as on the stored row. */
  lemma StampRecordValid(s: Store, id: Id, state: State, timedOut: bool, completedAt: nat)
    requires Valid(s) && id in s.byID
    ensures Valid(StampRecord(s, id, state, timedOut, completedAt))
    ensures
      Abs(StampRecord(s, id, state, timedOut, completedAt))
      == Restate(Abs(s), id, Stamped(Abs(s).rows[id].flow, state, timedOut, completedAt))
  {
    var rec := s.byID[id].(flow := Stamped(s.byID[id].flow, state, timedOut, completedAt));
    StampLoads(s.byID[id], id, Live(s.files), state, timedOut, completedAt);
    SwapRecordValid(s, id, rec, Stamped(Abs(s).rows[id].flow, state, timedOut, completedAt));
  }

  // ---------------------------------------------------------------- the patch

  function SideOf(f: Flow): Side {
    if f.phase == ResponsePhase then Resp else Req
  }

  function WithoutBody(f: Flow): Flow {
    if f.phase == ResponsePhase then f.(response := f.response.(body := []))
    else f.(request := f.request.(body := []))
  }

  function SetFlag(rec: Record, spilled: bool): Record {
    if rec.flow.phase == ResponsePhase then rec.(respSpill := spilled) else rec.(reqSpill := spilled)
  }

  function PatchedRecord(rec: Record, p: Patch, spilled: bool, next: nat): Record {
    var f := Patched(rec.flow, p);
    if p.body.KeepBody? then rec.(flow := f, resident := next)
    else SetFlag(rec, spilled).(flow := if spilled then WithoutBody(f) else f, resident := next)
  }

  /** The live files of row id after its patch. */
  ghost predicate PatchedFiles(rec: Record, id: Id, p: Patch, spilled: bool, a: Files, b: Files) {
    var f := File(id, SideOf(rec.flow), false);
    && (forall x: File | x.id == id && x != f :: (x in a <==> x in b) && (x in a ==> a[x] == b[x]))
    && (p.body.KeepBody? ==> (f in a <==> f in b) && (f in a ==> a[f] == b[f]))
    && (p.body.SetBody? && spilled ==> f in b && b[f] == p.body.body && |p.body.body| > 0)
    && (p.body.SetBody? && !spilled ==> f !in b)
  }

  function StoredSide(m: Message, p: Patch, spilled: bool): Message {
    if p.body.SetBody? && spilled then PatchMessage(m, p).(body := []) else PatchMessage(m, p)
  }

  lemma PatchSideLoads(m: Message, flag: bool, p: Patch, spilled: bool, a: Files, b: Files, f: File)
    requires flag ==> f in a && |m.body| == 0 && m.size > 0
    requires p.body.KeepBody? ==> (f in a <==> f in b) && (f in a ==> a[f] == b[f])
    requires p.body.SetBody? && spilled ==> f in b && b[f] == p.body.body && |p.body.body| > 0
    ensures
      var flag' := if p.body.SetBody? then spilled else flag;
      && LoadSide(StoredSide(m, p, spilled), flag', b, f) == PatchMessage(LoadSide(m, flag, a, f), p)
      && (flag' ==> f in b && |StoredSide(m, p, spilled).body| == 0 && StoredSide(m, p, spilled).size > 0)
  {
  }

  /** Get after a patch returns the patched flow, across every change of threshold. */
  lemma PatchLoads(rec: Record, id: Id, p: Patch, spilled: bool, next: nat, a: Files, b: Files)
    requires RecordOk(rec, id, a) && PatchedFiles(rec, id, p, spilled, a, b)
    ensures Load(PatchedRecord(rec, p, spilled, next), id, b) == Patched(Load(rec, id, a), p)
    ensures RecordOk(PatchedRecord(rec, p, spilled, next), id, b)
  {
    if rec.flow.phase == ResponsePhase {
      PatchLoadsResponse(rec, id, p, spilled, next, a, b);
    } else {
      PatchLoadsRequest(rec, id, p, spilled, next, a, b);
    }
  }

  lemma PatchLoadsResponse(rec: Record, id: Id, p: Patch, spilled: bool, next: nat, a: Files, b: Files)
    requires RecordOk(rec, id, a) && PatchedFiles(rec, id, p, spilled, a, b) && rec.flow.phase == ResponsePhase
    ensures Load(PatchedRecord(rec, p, spilled, next), id, b) == Patched(Load(rec, id, a), p)
    ensures RecordOk(PatchedRecord(rec, p, spilled, next), id, b)
  {
    var flag := if p.body.SetBody? then spilled else rec.respSpill;
    var f := rec.flow.(response := StoredSide(rec.flow.response, p, spilled));
    assert PatchedRecord(rec, p, spilled, next) == rec.(flow := f, resident := next, respSpill := flag);
    PatchSideLoads(rec.flow.response, rec.respSpill, p, spilled, a, b, File(id, Resp, false));
    assert LoadSide(rec.flow.request, rec.reqSpill, b, File(id, Req, false))
        == LoadSide(rec.flow.request, rec.reqSpill, a, File(id, Req, false));
    assert LoadWs(rec.flow.ws, rec.wsSpill, b, File(id, Ws, false))
      == LoadWs(rec.flow.ws, rec.wsSpill, a, File(id, Ws, false));
  }

  lemma PatchLoadsRequest(rec: Record, id: Id, p: Patch, spilled: bool, next: nat, a: Files, b: Files)
    requires RecordOk(rec, id, a) && PatchedFiles(rec, id, p, spilled, a, b) && rec.flow.phase != ResponsePhase
    ensures Load(PatchedRecord(rec, p, spilled, next), id, b) == Patched(Load(rec, id, a), p)
    ensures RecordOk(PatchedRecord(rec, p, spilled, next), id, b)
  {
    var flag := if p.body.SetBody? then spilled else rec.reqSpill;
    var f := rec.flow.(request := StoredSide(rec.flow.request, p, spilled));
    assert PatchedRecord(rec, p, spilled, next) == rec.(flow := f, resident := next, reqSpill := flag);
    PatchSideLoads(rec.flow.request, rec.reqSpill, p, spilled, a, b, File(id, Req, false));
    assert LoadSide(rec.flow.response, rec.respSpill, b, File(id, Resp, false))
        == LoadSide(rec.flow.response, rec.respSpill, a, File(id, Resp, false));
    assert LoadWs(rec.flow.ws, rec.wsSpill, b, File(id, Ws, false))
      == LoadWs(rec.flow.ws, rec.wsSpill, a, File(id, Ws, false));
  }

  lemma PatchFlags(rec: Record, id: Id, p: Patch, spilled: bool, next: nat, a: Files, b: Files)
    requires PatchedFiles(rec, id, p, spilled, a, b)
    requires forall f | f in a && f.id == id :: Flag(rec, f.side) && !f.tmp
    ensures forall f | f in b && f.id == id :: Flag(PatchedRecord(rec, p, spilled, next), f.side) && !f.tmp
  {
    forall f | f in b && f.id == id ensures Flag(PatchedRecord(rec, p, spilled, next), f.side) && !f.tmp {
      if f != File(id, SideOf(rec.flow), false) {
        assert f in a;
      }
    }
  }

  lemma SideCost(m: Message, flag: bool, live: Files, f: File, p: Patch)
    requires HonestMessage(LoadSide(m, flag, live, f)) && (flag ==> |m.body| == 0)
    ensures MessageResident(LoadSide(m, flag, live, f)) == MessageResident(m)
    ensures MessageResident(PatchMessage(LoadSide(m, flag, live, f), p)) == MessageResident(PatchMessage(m, p))
  {
  }

  lemma CostSum(f: Flow, g: Flow)
    requires MessageResident(f.request) == MessageResident(g.request)
    requires MessageResident(f.response) == MessageResident(g.response)
    requires WsResident(f.ws) == WsResident(g.ws) && f.grpc == g.grpc
    ensures Resident(f) == Resident(g)
  {
  }

  /** The charge of a patch does not depend on spilling when the row's sizes are honest. */
  lemma PatchCost(rec: Record, id: Id, p: Patch, live: Files)
    requires RecordOk(rec, id, live) && Honest(Load(rec, id, live))
    requires WsResident(Load(rec, id, live).ws) == WsResident(rec.flow.ws)
    ensures Resident(Patched(rec.flow, p)) == Resident(Patched(Load(rec, id, live), p))
  {
    var f, g := Patched(rec.flow, p), Patched(Load(rec, id, live), p);
    SideCost(rec.flow.request, rec.reqSpill, live, File(id, Req, false), p);
    SideCost(rec.flow.response, rec.respSpill, live, File(id, Resp, false), p);
    CostSum(f, g);
  }

  // ---------------------------------------------------------------- victims

  /** The scan for victims after i rows: `v` chosen, `left` still to free. */
  ghost predicate Planned(order: seq<Id>, rows: map<Id, Row>, id: Id, excess: int, i: nat, v: seq<Id>, left: int) {
    && i <= |order|
    && v + Victims(order[i..], rows, id, left) == Victims(order, rows, id, excess)
    && left == excess - Charge(v, rows)
  }

  lemma PlanStep(order: seq<Id>, rows: map<Id, Row>, id: Id, excess: int, i: nat, v: seq<Id>, left: int)
    requires Planned(order, rows, id, excess, i, v, left) && i < |order| && left > 0 && order[i] in rows
    ensures order[i] == id ==> Planned(order, rows, id, excess, i + 1, v, left)
    ensures order[i] != id ==> Planned(order, rows, id, excess, i + 1, v + [order[i]], left - rows[order[i]].size)
  {
    var x, rest := order[i], order[i + 1..];
    assert order[i..][0] == x && order[i..][1..] == rest;
    if x != id {
      SnocCharge(rows, v, x);
      assert v + [x] + Victims(rest, rows, id, left - rows[x].size)
        == v + ([x] + Victims(rest, rows, id, left - rows[x].size));
    }
  }

  lemma PlanDone(order: seq<Id>, rows: map<Id, Row>, id: Id, excess: int, i: nat, v: seq<Id>, left: int)
    requires Planned(order, rows, id, excess, i, v, left) && (i == |order| || left <= 0)
    ensures v == Victims(order, rows, id, excess)
  {
    assert Victims(order[i..], rows, id, left) == [];
  }

  /** The plan of applyPatchLocked: the oldest other rows, until the excess is covered. */
  method ChooseVictims(order: seq<Id>, byID: map<Id, Record>, id: Id, excess: int, ghost rows: map<Id, Row>)
    returns (v: seq<Id>, left: int)
    requires forall x | x in order :: x in byID && x in rows && rows[x].size == byID[x].resident
    ensures v == Victims(order, rows, id, excess)
    ensures left == excess - Charge(v, rows)
  {
    v, left := [], excess;
    var i := 0;
    assert order[0..] == order;
    while i < |order| && left > 0
      invariant Planned(order, rows, id, excess, i, v, left)
    {
      assert order[i] in order;
      PlanStep(order, rows, id, excess, i, v, left);
      if order[i] != id {
        v := v + [order[i]];
        left := left - byID[order[i]].resident;
      }
      i := i + 1;
    }
    PlanDone(order, rows, id, excess, i, v, left);
  }

  method EvictAll(s: Store, v: seq<Id>) returns (t: Store)
    ensures t == EvictRecords(s, v)
  {
    t := s;
    for i := 0 to |v|
      invariant t == EvictRecords(s, v[..i])
    {
      assert v[..i + 1][..i] == v[..i];
      t := RemoveLocked(t, v[i], true);
    }
    assert v[..|v|] == v;
  }

  // ---------------------------------------------------------------- committing the patch

  /** A new file in place of (or beside) row id's files changes only what row id loads as. */
  lemma RenamedLinked(s: Store, id: Id, fs: Files)
    requires Linked(s, {}) && id in s.byID && AgreeExcept(Live(s.files), Live(fs), id)
    requires forall f | f in Live(s.files) :: f in Live(fs)
    ensures Linked(s.(files := fs), {id})
    ensures
      var x := RowOf(s.byID[id], id, Live(fs));
      Abs(s.(files := fs)) == Abs(s).(rows := Abs(s).rows[id := x]) && x.size == Abs(s).rows[id].size
  {
    var rec := s.byID[id];
    assert s.byID[id := rec] == s.byID;
    LoadedPut(s.byID, id, rec, Live(s.files), Live(fs));
    ChargeFrame(s.core.order, Abs(s).rows, Abs(s).rows[id := RowOf(rec, id, Live(fs))]);
    RowsFrame(s.byID, id, Live(s.files), Live(fs));
    forall y | y in s.byID ensures RecordOk(s.byID[y], y, Live(fs)) {
      assert y != id ==> SameRow(s.byID[y], y, Live(s.files), Live(fs));
    }
  }

  lemma EvictIgnores(a: Inbox, id: Id, x: Row, v: seq<Id>)
    requires id in a.rows && x.size == a.rows[id].size && id !in v
    ensures Evict(a.(rows := a.rows[id := x]), v) == Evict(a, v).(rows := Evict(a, v).rows[id := x])
  {
    ChargeFrame(v, a.rows, a.rows[id := x]);
    assert a.rows[id := x] - Members(v) == (a.rows - Members(v))[id := x];
  }

  function PutPatched(s: Store, id: Id, rec: Record, was: nat, fs: Files): Store {
    s.(core := s.core.(bytes := s.core.bytes + rec.resident - was), byID := s.byID[id := rec], files := fs)
  }

  lemma PutPatchedView(c: Core, rows: map<Id, Row>, id: Id, f: Flow, next: nat, was: Row)
    ensures
      View(c.(bytes := c.bytes + next - was.size), rows[id := was.(flow := f, size := next)])
      == Resize(View(c, rows), id, f, next, was)
  {
  }

  /** The row, its files and the counter change together. */
  lemma PutPatchedAbs(s: Store, id: Id, rec: Record, was: Row, fs: Files, f: Flow)
    requires AgreeExcept(Live(s.files), Live(fs), id)
    requires RowOf(rec, id, Live(fs)) == was.(flow := f, size := rec.resident)
    ensures Abs(PutPatched(s, id, rec, was.size, fs)) == Resize(Abs(s), id, f, rec.resident, was)
  {
    LoadedPut(s.byID, id, rec, Live(s.files), Live(fs));
    PutPatchedView(s.core, Loaded(s.byID, Live(s.files)), id, f, rec.resident, was);
  }

  /** The live file a spilled patch puts in place. */
  function StagedLive(live: Files, id: Id, side: Side, p: Patch, spilled: bool): Files {
    if p.body.SetBody? && spilled then live[File(id, side, false) := p.body.body] else live
  }

  /** The directory after the patch: a replaced body that is not spilled any more loses its file. */
  function Cleaned(files: Files, id: Id, rec: Record, p: Patch, spilled: bool): Files {
    if p.body.SetBody? && !spilled && Flag(rec, SideOf(rec.flow)) then files - {File(id, SideOf(rec.flow), false)}
    else files
  }

  lemma CleanedFiles(rec: Record, id: Id, p: Patch, spilled: bool, a: Files, staged: Files, evicted: Files)
    requires Live(staged) == StagedLive(a, id, SideOf(rec.flow), p, spilled)
    requires PendingKept(staged, evicted, {id})
    requires forall f | f in a && f.id == id :: Flag(rec, f.side) && !f.tmp
    requires p.body.SetBody? && spilled ==> |p.body.body| > 0
    ensures PatchedFiles(rec, id, p, spilled, a, Live(Cleaned(evicted, id, rec, p, spilled)))
    ensures AgreeExcept(Live(evicted), Live(Cleaned(evicted, id, rec, p, spilled)), id)
  {
    var b := Live(Cleaned(evicted, id, rec, p, spilled));
    var f := File(id, SideOf(rec.flow), false);
    assert f.id in {id} && f in Live(evicted) <==> f in Live(staged);
    assert f in Live(evicted) ==> Live(evicted)[f] == Live(staged)[f];
    forall x: File | x.id == id && x != f ensures (x in a <==> x in b) && (x in a ==> a[x] == b[x]) {
      assert x.id in {id};
      assert x in a <==> x in Live(staged);
    }
  }

  /** Everything after the last fallible step of a patch. */
  method FinishPatch(s: Store, id: Id, p: Patch, spilled: bool, next: nat, v: seq<Id>, staged: Files) returns (t: Store)
    requires Valid(s) && id in s.byID && PatchVerdict(Abs(s), id, p, next).Accepted?
    requires v == Victims(s.core.order, Abs(s).rows, id, Excess(Abs(s), id, next))
    requires Live(staged) == StagedLive(Live(s.files), id, SideOf(s.byID[id].flow), p, spilled)
    requires p.body.SetBody? && spilled ==> |p.body.body| > 0
    ensures Valid(t) && Abs(t) == ApplyPatch(Abs(s), id, p, next)
    ensures id in t.byID && t.byID[id] == PatchedRecord(s.byID[id], p, spilled, next) && SubIndex(t.byID - {id}, s.byID)
    ensures SameOptions(s, t) && PatchedFiles(s.byID[id], id, p, spilled, Live(s.files), Live(t.files))
  {
    var rec := s.byID[id];
    PatchEvicts(s, id, p, spilled, next, v, staged);
    var s2 := EvictAll(s.(files := staged), v);
    var fs := Cleaned(s2.files, id, rec, p, spilled);
    var rec' := PatchedRecord(rec, p, spilled, next);
    PatchLands(s, id, p, spilled, next, v, staged);
    // the below-zero clamp on the counter never acts
    t := PutPatched(s2, id, rec', rec.resident, fs);
  }

  /** The store once the new file is in place and the victims are gone. */
  ghost function Vacated(s: Store, v: seq<Id>, staged: Files): Store {
    EvictRecords(s.(files := staged), v)
  }

  lemma PatchEvicts(s: Store, id: Id, p: Patch, spilled: bool, next: nat, v: seq<Id>, staged: Files)
    requires Valid(s) && id in s.byID && v == Victims(s.core.order, Abs(s).rows, id, Excess(Abs(s), id, next))
    requires Live(staged) == StagedLive(Live(s.files), id, SideOf(s.byID[id].flow), p, spilled)
    ensures id !in v && Linked(s.(files := staged), {id}) && Linked(Vacated(s, v, staged), {id})
    ensures Abs(Vacated(s, v, staged)) == Evict(Abs(s.(files := staged)), v)
    ensures PendingKept(staged, Vacated(s, v, staged).files, {id}) && SubIndex(Vacated(s, v, staged).byID, s.byID)
  {
    var s1 := s.(files := staged);
    StagedLinked(s, id, p, spilled, staged);
    VictimsAreOthers(s.core.order, Abs(s).rows, id, Excess(Abs(s), id, next));
    forall x | x in v ensures x in s1.byID && x !in {id} {
      assert x in Abs(s).rows;
    }
    EvictRecordsLinked(s1, v, {id});
    EvictKeepsPending(s1, v, {id});
    EvictSubIndex(s1, v);
  }

  /** The files of the patched row, and what Get loads for it. */
  lemma PatchedFilesReady(s: Store, id: Id, p: Patch, spilled: bool, next: nat, v: seq<Id>, staged: Files)
    requires Valid(s) && id in s.byID && v == Victims(s.core.order, Abs(s).rows, id, Excess(Abs(s), id, next))
    requires Live(staged) == StagedLive(Live(s.files), id, SideOf(s.byID[id].flow), p, spilled)
    requires p.body.SetBody? && spilled ==> |p.body.body| > 0
    ensures
      var s2 := Vacated(s, v, staged);
      var fs := Live(Cleaned(s2.files, id, s.byID[id], p, spilled));
      var rec := PatchedRecord(s.byID[id], p, spilled, next);
      && AgreeExcept(Live(s2.files), fs, id) && FilesOk(s2.byID[id := rec], fs, {})
      && Load(rec, id, fs) == Patched(Load(s.byID[id], id, Live(s.files)), p)
      && PatchedFiles(s.byID[id], id, p, spilled, Live(s.files), fs)
  {
    var s2, rec, a := Vacated(s, v, staged), s.byID[id], Live(s.files);
    var fs := Cleaned(s2.files, id, rec, p, spilled);
    PatchEvicts(s, id, p, spilled, next, v, staged);
    CleanedFiles(rec, id, p, spilled, a, staged, s2.files);
    PatchLoads(rec, id, p, spilled, next, a, Live(fs));
    PatchFlags(rec, id, p, spilled, next, a, Live(fs));
    FilesPut(s2.byID, id, PatchedRecord(rec, p, spilled, next), Live(s2.files), Live(fs));
  }

  lemma PatchLands(s: Store, id: Id, p: Patch, spilled: bool, next: nat, v: seq<Id>, staged: Files)
    requires Valid(s) && id in s.byID && PatchVerdict(Abs(s), id, p, next).Accepted?
    requires v == Victims(s.core.order, Abs(s).rows, id, Excess(Abs(s), id, next))
    requires Live(staged) == StagedLive(Live(s.files), id, SideOf(s.byID[id].flow), p, spilled)
    requires p.body.SetBody? && spilled ==> |p.body.body| > 0
    ensures
      var s2 := Vacated(s, v, staged);
      var fs := Cleaned(s2.files, id, s.byID[id], p, spilled);
      var t := PutPatched(s2, id, PatchedRecord(s.byID[id], p, spilled, next), s.byID[id].resident, fs);
      && Valid(t) && Abs(t) == ApplyPatch(Abs(s), id, p, next)
      && PatchedFiles(s.byID[id], id, p, spilled, Live(s.files), Live(t.files))
  {
    var s2 := Vacated(s, v, staged);
    var fs := Cleaned(s2.files, id, s.byID[id], p, spilled);
    var rec := PatchedRecord(s.byID[id], p, spilled, next);
    hide *;
    ValidParts(s);
    PatchEvicts(s, id, p, spilled, next, v, staged);
    StagedLinked(s, id, p, spilled, staged);
    PatchedFilesReady(s, id, p, spilled, next, v, staged);
    PatchedRow(s, id, p, spilled, next, fs);
    PatchedAbs(s, s.(files := staged), s2, id, p, rec, fs, v, next);
    ApplyPatchInv(Abs(s), id, p, next);
    PutPatchedFields(s, v, staged, id, rec, fs);
    ValidFrom(PutPatched(s2, id, rec, s.byID[id].resident, fs), ApplyPatch(Abs(s), id, p, next));
  }

  lemma ValidParts(s: Store)
    requires Valid(s)
    ensures Linked(s, {}) && Inv(Abs(s)) && (s.spillOn ==> s.threshold > 0)
    ensures forall id | id in s.byID :: id in Abs(s).rows
  {
  }

  lemma PatchedRow(s: Store, id: Id, p: Patch, spilled: bool, next: nat, fs: Files)
    requires id in s.byID
    requires Load(PatchedRecord(s.byID[id], p, spilled, next), id, Live(fs))
             == Patched(Load(s.byID[id], id, Live(s.files)), p)
    ensures
      var row := RowOf(PatchedRecord(s.byID[id], p, spilled, next), id, Live(fs));
      row == Abs(s).rows[id].(flow := Patched(Abs(s).rows[id].flow, p), size := next)
  {
    hide Load, Patched;
  }

  lemma PutPatchedFields(s: Store, v: seq<Id>, staged: Files, id: Id, rec: Record, fs: Files)
    requires id in s.byID
    ensures
      var s2 := Vacated(s, v, staged);
      var t := PutPatched(s2, id, rec, s.byID[id].resident, fs);
      t.byID == s2.byID[id := rec] && t.files == fs && SameOptions(s, t)
  {
  }

  lemma StagedLinked(s: Store, id: Id, p: Patch, spilled: bool, staged: Files)
    requires Linked(s, {}) && id in s.byID
    requires Live(staged) == StagedLive(Live(s.files), id, SideOf(s.byID[id].flow), p, spilled)
    ensures Linked(s.(files := staged), {id})
    ensures
      var x := RowOf(s.byID[id], id, Live(staged));
      Abs(s.(files := staged)) == Abs(s).(rows := Abs(s).rows[id := x]) && x.size == Abs(s).rows[id].size
  {
    RenamedLinked(s, id, staged);
  }

  lemma PatchedAbs(s: Store, s1: Store, s2: Store, id: Id, p: Patch, rec: Record, fs: Files, v: seq<Id>, next: nat)
    requires id in s.byID && id !in v && v == Victims(s.core.order, Abs(s).rows, id, Excess(Abs(s), id, next))
    requires
      var x := RowOf(s.byID[id], id, Live(s1.files));
      Abs(s1) == Abs(s).(rows := Abs(s).rows[id := x]) && x.size == Abs(s).rows[id].size
    requires Abs(s2) == Evict(Abs(s1), v)
    requires AgreeExcept(Live(s2.files), Live(fs), id)
    requires RowOf(rec, id, Live(fs)) == Abs(s).rows[id].(flow := Patched(Abs(s).rows[id].flow, p), size := next)
    ensures Abs(PutPatched(s2, id, rec, s.byID[id].resident, fs)) == ApplyPatch(Abs(s), id, p, next)
  {
    hide *;
    RowFacts(s, id, rec, fs);
    var a := Abs(s);
    var x, f := RowOf(s.byID[id], id, Live(s1.files)), Patched(a.rows[id].flow, p);
    EvictIgnores(a, id, x, v);
    PutPatchedAbs(s2, id, rec, a.rows[id], fs, f);
    ResizeIgnores(Evict(a, v), id, x, f, next, a.rows[id]);
    ApplyPatchParts(a, id, p, next, v);
  }

  lemma RowFacts(s: Store, id: Id, rec: Record, fs: Files)
    requires id in s.byID
    ensures id in Abs(s).rows && Abs(s).rows[id].size == s.byID[id].resident && Abs(s).order == s.core.order
    ensures RowOf(rec, id, Live(fs)).size == rec.resident
  {
  }

  lemma ApplyPatchParts(a: Inbox, id: Id, p: Patch, next: nat, v: seq<Id>)
    requires id in a.rows && v == Victims(a.order, a.rows, id, Excess(a, id, next))
    ensures ApplyPatch(a, id, p, next) == Resize(Evict(a, v), id, Patched(a.rows[id].flow, p), next, a.rows[id])
  {
  }

  lemma ResizeIgnores(t: Inbox, id: Id, x: Row, f: Flow, next: nat, was: Row)
    ensures Resize(t.(rows := t.rows[id := x]), id, f, next, was) == Resize(t, id, f, next, was)
  {
    assert t.rows[id := x][id := was.(flow := f, size := next)] == t.rows[id := was.(flow := f, size := next)];
  }

  // ---------------------------------------------------------------- Resume

  function PatchCharge(s: Store, id: Id, p: Patch): nat
    requires id in s.byID
  {
    Resident(Patched(s.byID[id].flow, p))
  }

  function PatchSpills(s: Store, p: Patch): bool {
    p.body.SetBody? && Big(p.body.body, s.spillOn, s.threshold)
  }

  /** stageSideSpill and the rename: the live name is untouched until the rename succeeds. */
  method Stage(s: Store, id: Id, p: Patch, writeFails: bool, renameFails: bool) returns (fs: Files, ok: bool)
    requires id in s.byID
    ensures ok ==> Live(fs) == StagedLive(Live(s.files), id, SideOf(s.byID[id].flow), p, PatchSpills(s, p))
    ensures !ok ==> Live(fs) == Live(s.files)
    ensures ok <==> !(PatchSpills(s, p) && (writeFails || renameFails))
  {
    fs := s.files;
    if !PatchSpills(s, p) {
      return fs, true;
    }
    var side := SideOf(s.byID[id].flow);
    var tmp := File(id, side, true);
    if writeFails {
      assert Live(fs - {tmp}) == Live(fs);
      return fs - {tmp}, false;
    }
    fs := fs[tmp := p.body.body];
    assert Live(fs) == Live(s.files);
    if renameFails {
      assert Live(fs - {tmp}) == Live(fs);
      return fs - {tmp}, false;
    }
    return Rename(fs, id, side), true;
  }

  /** A patch that is accepted can still fail on the file it spills to. */
  function PatchOutcome(verdict: Refusal, spills: bool, fails: bool): Refusal {
    if verdict.Accepted? && spills && fails then Refused(SpillFailed) else verdict
  }

  /** applyPatchLocked: an error leaves rows, order, counters and live files as they were. */
  method PatchFlow(s: Store, id: Id, p: Patch, writeFails: bool, renameFails: bool) returns (t: Store, r: Refusal)
    requires Valid(s) && id in s.byID
    ensures Valid(t) && SameOptions(s, t)
    ensures r == PatchOutcome(PatchVerdict(Abs(s), id, p, PatchCharge(s, id, p)), PatchSpills(s, p),
                              writeFails || renameFails)
    ensures r.Refused? ==> Abs(t) == Abs(s) && t.byID == s.byID && Live(t.files) == Live(s.files)
    ensures r.Accepted? ==>
      && Abs(t) == ApplyPatch(Abs(s), id, p, PatchCharge(s, id, p))
      && id in t.byID
      && t.byID[id] == PatchedRecord(s.byID[id], p, PatchSpills(s, p), PatchCharge(s, id, p))
      && SubIndex(t.byID - {id}, s.byID)
      && PatchedFiles(s.byID[id], id, p, PatchSpills(s, p), Live(s.files), Live(t.files))
  {
    var caps := s.core.caps;
    if p.body.SetBody? && |p.body.body| > caps.maxBody {
      return s, Refused(TooLarge);
    }
    var next := PatchCharge(s, id, p);
    if next > caps.maxBytes {
      return s, Refused(TooLarge);
    }
    var excess := s.core.bytes + next - s.byID[id].resident - caps.maxBytes;
    if excess > 0 && !caps.evictOldest {
      return s, Refused(Full);
    }
    t, r := PatchAccepted(s, id, p, next, writeFails, renameFails);
  }

  /** The second refusal as full is unreachable: the plan covers the excess. */
  lemma PlanCovers(a: Inbox, id: Id, p: Patch, next: nat)
    requires Inv(a) && id in a.rows && PatchVerdict(a, id, p, next).Accepted?
    ensures Excess(a, id, next) <= Charge(Victims(a.order, a.rows, id, Excess(a, id, next)), a.rows)
  {
    hide Victims, Charge, Excluding, Members, Indexed, Sorted;
    PatchEviction(a, id, next);
  }

  lemma ExcessSeen(s: Store, id: Id, next: nat)
    requires Valid(s) && id in s.byID
    ensures id in Abs(s).rows && Inv(Abs(s)) && Indexed(Abs(s)) && Abs(s).order == s.core.order
    ensures Excess(Abs(s), id, next) == s.core.bytes + next - s.byID[id].resident - s.core.caps.maxBytes
  {
  }

  method PlanEviction(s: Store, id: Id, p: Patch, next: nat) returns (v: seq<Id>)
    requires Valid(s) && id in s.byID && PatchVerdict(Abs(s), id, p, next).Accepted?
    ensures v == Victims(s.core.order, Abs(s).rows, id, Excess(Abs(s), id, next))
  {
    hide *;
    ExcessSeen(s, id, next);
    OrderCovers(s);
    PlanCovers(Abs(s), id, p, next);
    var excess := s.core.bytes + next - s.byID[id].resident - s.core.caps.maxBytes;
    var left;
    v, left := ChooseVictims(s.core.order, s.byID, id, excess, Abs(s).rows);
    assert left <= 0;
  }

  /** From the planned eviction on: only the spill file can still fail. */
  method PatchAccepted(s: Store, id: Id, p: Patch, next: nat, writeFails: bool, renameFails: bool)
    returns (t: Store, r: Refusal)
    requires Valid(s) && id in s.byID && next == PatchCharge(s, id, p) && PatchVerdict(Abs(s), id, p, next).Accepted?
    ensures Valid(t) && SameOptions(s, t)
    ensures r == if PatchSpills(s, p) && (writeFails || renameFails) then Refused(SpillFailed) else Accepted
    ensures r.Refused? ==> Abs(t) == Abs(s) && t.byID == s.byID && Live(t.files) == Live(s.files)
    ensures r.Accepted? ==>
      && Abs(t) == ApplyPatch(Abs(s), id, p, next)
      && id in t.byID && t.byID[id] == PatchedRecord(s.byID[id], p, PatchSpills(s, p), next)
      && SubIndex(t.byID - {id}, s.byID)
      && PatchedFiles(s.byID[id], id, p, PatchSpills(s, p), Live(s.files), Live(t.files))
  {
    var v := PlanEviction(s, id, p, next);
    var fs, ok := Stage(s, id, p, writeFails, renameFails);
    if !ok {
      SameLive(s, fs, {});
      return s.(files := fs), Refused(SpillFailed);
    }
    t := FinishPatch(s, id, p, PatchSpills(s, p), next, v, fs);
    return t, Accepted;
  }

  lemma OrderCovers(s: Store)
    requires Indexed(Abs(s))
    ensures forall x | x in s.core.order :: x in s.byID && x in Abs(s).rows && Abs(s).rows[x].size == s.byID[x].resident
  {
    forall x | x in s.core.order ensures x in s.byID {
      assert x in Abs(s).rows;
    }
  }

  function ResumeState(f: Flow): State {
    if f.phase == RequestPhase then Open else Completed
  }

  /** The state change that ends Resume. */
  method Release(s: Store, id: Id) returns (t: Store)
    requires Valid(s) && id in s.byID
    ensures Valid(t) && Abs(t) == Resume(Abs(s), id)
    ensures t.files == s.files && id in t.byID && SubIndex(t.byID - {id}, s.byID) && SameOptions(s, t)
    ensures t.byID[id].wsSpill == s.byID[id].wsSpill && t.byID[id].flow.ws == s.byID[id].flow.ws
  {
    var f := s.byID[id].flow;
    StampRecordValid(s, id, ResumeState(f), f.timedOut, f.completedAt);
    StampIsResumed(s.byID[id], id, Live(s.files));
    t := StampRecord(s, id, ResumeState(f), f.timedOut, f.completedAt);
  }

  /** What Resume answers, spill failures aside. */
  ghost function ResumeVerdict(s: Store, id: Id, patched: bool, p: Patch): Refusal {
    if id !in s.byID then Refused(NotFound)
    else if s.byID[id].flow.state != Paused then Refused(BreakpointInactive)
    else if patched then PatchVerdict(Abs(s), id, p, PatchCharge(s, id, p))
    else Accepted
  }

  /** Resume, all or nothing: a spill failure changes nothing, and otherwise callers see exactly the
      step of a store without spill files. */
  method ResumeFlow(s: Store, id: Id, patched: bool, p: Patch, writeFails: bool, renameFails: bool)
    returns (t: Store, r: Refusal)
    requires Valid(s)
    ensures Valid(t) && SameOptions(s, t)
    ensures r == PatchOutcome(ResumeVerdict(s, id, patched, p), patched && PatchSpills(s, p), writeFails || renameFails)
    ensures r.Refused? ==> Abs(t) == Abs(s) && t.byID == s.byID && Live(t.files) == Live(s.files)
    ensures r.Accepted? ==> IsPaused(Abs(s), id) && Abs(t) == ResumeStep(Abs(s), id, patched, p, PatchCharge(s, id, p))
    ensures r.Accepted? ==>
      && id in t.byID && SubIndex(t.byID - {id}, s.byID)
      && t.byID[id].wsSpill == s.byID[id].wsSpill && t.byID[id].flow.ws == s.byID[id].flow.ws
    ensures r.Accepted? ==>
      if patched then PatchedFiles(s.byID[id], id, p, PatchSpills(s, p), Live(s.files), Live(t.files))
      else Live(t.files) == Live(s.files)
    ensures ResumeAnswers(Abs(s), id, patched, p, if id in s.byID then PatchCharge(s, id, p) else 0,
                          s.spillOn && p.body.SetBody? && |p.body.body| >= s.threshold && (writeFails || renameFails),
                          r)
    ensures r.Accepted? ==> Released(Abs(s), Abs(t), id, patched, p, Abs(t).evictions - Abs(s).evictions)
  {
    hide Released, ResumeAnswers, PatchVerdict, PatchOutcome, ResumeVerdict, ResumeStep, PatchCharge, PatchedFiles,
      SubIndex, Inv, Linked, Loaded, Live, Abs, PatchSpills;
    ResumeAnswered(s, id, patched, p, writeFails || renameFails);
    if id !in s.byID {
      NotPausedVerdict(s, id, patched, p, writeFails || renameFails);
      return s, Refused(NotFound);
    }
    PausedSeen(s, id);
    if s.byID[id].flow.state != Paused {
      NotPausedVerdict(s, id, patched, p, writeFails || renameFails);
      return s, Refused(BreakpointInactive);
    }
    PausedVerdict(s, id, patched, p, writeFails || renameFails);
    if !patched {
      t := ReleasePaused(s, id, p);
      return t, Accepted;
    }
    t, r := ResumePatched(s, id, p, writeFails, renameFails);
  }

  lemma NotPausedVerdict(s: Store, id: Id, patched: bool, p: Patch, fails: bool)
    requires id in s.byID ==> s.byID[id].flow.state != Paused
    ensures PatchOutcome(ResumeVerdict(s, id, patched, p), patched && PatchSpills(s, p), fails)
      == if id in s.byID then Refused(BreakpointInactive) else Refused(NotFound)
  {
  }

  lemma PausedVerdict(s: Store, id: Id, patched: bool, p: Patch, fails: bool)
    requires id in s.byID && s.byID[id].flow.state == Paused
    ensures PatchOutcome(ResumeVerdict(s, id, patched, p), patched && PatchSpills(s, p), fails)
      == if patched then PatchOutcome(PatchVerdict(Abs(s), id, p, PatchCharge(s, id, p)), PatchSpills(s, p), fails)
         else Accepted
  {
  }

  lemma ResumeAnswered(s: Store, id: Id, patched: bool, p: Patch, fails: bool)
    requires Valid(s)
    ensures ResumeAnswers(Abs(s), id, patched, p, if id in s.byID then PatchCharge(s, id, p) else 0,
                          s.spillOn && p.body.SetBody? && |p.body.body| >= s.threshold && fails,
                          PatchOutcome(ResumeVerdict(s, id, patched, p), patched && PatchSpills(s, p), fails))
  {
    hide Inv, Indexed, FilesOk;
    if id in s.byID {
      PausedSeen(s, id);
    }
  }

  lemma PausedSeen(s: Store, id: Id)
    requires id in s.byID
    ensures IsPaused(Abs(s), id) <==> s.byID[id].flow.state == Paused
  {
  }

  method ReleasePaused(s: Store, id: Id, p: Patch) returns (t: Store)
    requires Valid(s) && id in s.byID && IsPaused(Abs(s), id)
    ensures Valid(t) && SameOptions(s, t) && Abs(t) == ResumeStep(Abs(s), id, false, p, PatchCharge(s, id, p))
    ensures Released(Abs(s), Abs(t), id, false, p, Abs(t).evictions - Abs(s).evictions)
    ensures Live(t.files) == Live(s.files) && id in t.byID && SubIndex(t.byID - {id}, s.byID)
    ensures t.byID[id].wsSpill == s.byID[id].wsSpill && t.byID[id].flow.ws == s.byID[id].flow.ws
  {
    hide Released, Resume, ResumeStep, Abs, SubIndex, Inv, Linked, Loaded, Live;
    UnpatchedStep(Abs(s), id, p, PatchCharge(s, id, p));
    t := Release(s, id);
  }

  method ResumePatched(s: Store, id: Id, p: Patch, writeFails: bool, renameFails: bool) returns (t: Store, r: Refusal)
    requires Valid(s) && id in s.byID && IsPaused(Abs(s), id)
    ensures Valid(t) && SameOptions(s, t)
    ensures r == PatchOutcome(PatchVerdict(Abs(s), id, p, PatchCharge(s, id, p)), PatchSpills(s, p),
                              writeFails || renameFails)
    ensures r.Refused? ==> Abs(t) == Abs(s) && t.byID == s.byID && Live(t.files) == Live(s.files)
    ensures r.Accepted? ==>
      && id in t.byID && SubIndex(t.byID - {id}, s.byID)
      && t.byID[id].wsSpill == s.byID[id].wsSpill && t.byID[id].flow.ws == s.byID[id].flow.ws
      && Abs(t) == ResumeStep(Abs(s), id, true, p, PatchCharge(s, id, p))
      && Released(Abs(s), Abs(t), id, true, p, Abs(t).evictions - Abs(s).evictions)
      && PatchedFiles(s.byID[id], id, p, PatchSpills(s, p), Live(s.files), Live(t.files))
  {
    hide Released, ApplyPatch, Resume, ResumeStep, PatchVerdict, PatchCharge, PatchSpills, PatchedRecord, PatchedFiles,
      SubIndex, Abs, Inv, Linked, Loaded, Live;
    var u;
    u, r := PatchFlow(s, id, p, writeFails, renameFails);
    if r.Refused? {
      return u, r;
    }
    PatchKeepsWs(s.byID[id], p, PatchSpills(s, p), PatchCharge(s, id, p));
    PatchedStep(Abs(s), id, p, PatchCharge(s, id, p));
    t := Release(u, id);
    SubIndexChain(t.byID, u.byID, s.byID, id);
  }

  lemma PatchKeepsWs(rec: Record, p: Patch, spilled: bool, next: nat)
    ensures
      var rec' := PatchedRecord(rec, p, spilled, next);
      rec'.wsSpill == rec.wsSpill && rec'.flow.ws == rec.flow.ws
  {
  }

  lemma SubIndexChain(t: map<Id, Record>, u: map<Id, Record>, s: map<Id, Record>, id: Id)
    requires SubIndex(t - {id}, u) && SubIndex(u - {id}, s)
    ensures SubIndex(t - {id}, s)
  {
    forall x | x in t - {id} ensures x in s && t[x] == s[x] {
      assert x in u - {id};
    }
  }

  lemma StampIsResumed(rec: Record, id: Id, live: Files)
    ensures
      var g := Load(rec, id, live);
      Stamped(g, ResumeState(rec.flow), rec.flow.timedOut, rec.flow.completedAt) == Resumed(g)
  {
  }
}
