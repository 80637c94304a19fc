/**
 Memory, the mutable inbox (internal/store/memory.go and the row updates of
 internal/store/breakpoint.go): the loops and branches of the source, proved against the
 spill-free functions of InboxSpec through the view InboxStore.Abs.

 The fields live in one Store value that the methods reassign. Ids are fresh ULIDs; the sets
 `writeFails` and `renameFails` say which file operations fail.
 */
module InboxMemory {
  import opened Flows
  import opened Lists
  import opened InboxSpec
  import opened InboxLaws
  import opened InboxEffects
  import opened Spill
  import opened InboxStore

  // ---------------------------------------------------------------- scans

  lemma PlaceUnique(order: seq<Id>, rows: map<Id, Row>, id: Id, f: Flow, k: nat)
    requires k <= |order|
    requires forall i | 0 <= i < k :: order[i] in rows && !Earlier(f, id, rows[order[i]].flow, order[i])
    requires k < |order| ==> order[k] in rows && Earlier(f, id, rows[order[k]].flow, order[k])
    ensures k == Place(order, rows, id, f)
  {
    PlaceSplits(order, rows, id, f);
  }

  /** insertOrderLocked's scan. The index is read with its bodies on disk: spilling does not move rows. */
  method FindPlace(s: Store, id: Id, f: Flow) returns (k: nat)
    requires Indexed(Abs(s))
    ensures k == Place(s.core.order, Abs(s).rows, id, f)
  {
    k := 0;
    var order := s.core.order;
    ghost var rows := Abs(s).rows;
    while k < |order|
      invariant 0 <= k <= |order|
      invariant forall i | 0 <= i < k :: order[i] in rows && !Earlier(f, id, rows[order[i]].flow, order[i])
    {
      assert order[k] in rows;
      var other := s.byID[order[k]].flow;
      assert EvictTime(rows[order[k]].flow) == EvictTime(other);
      if EvictTime(f) < EvictTime(other) || (EvictTime(f) == EvictTime(other) && id < order[k]) {
        break;
      }
      k := k + 1;
    }
    PlaceUnique(order, rows, id, f, k);
  }

  /** canAcceptLocked: a dry run of the eviction loop on two counters. */
  method DryRun(s: Store, candidate: nat) returns (ok: bool)
    requires Inv(Abs(s))
    ensures ok == CanAccept(Abs(s), candidate)
  {
    hide Abs, Loaded, Inv;
    StoreView(s);
    var order, caps := s.core.order, s.core.caps;
    if |order| < caps.maxFlows && s.core.bytes + candidate <= caps.maxBytes {
      return true;
    }
    if !caps.evictOldest {
      return false;
    }
    var bytes := s.core.bytes;
    var count := |order|;
    var i := 0;
    ghost var rows := Abs(s).rows;
    while i < |order|
      invariant 0 <= i <= |order|
      invariant bytes == s.core.bytes - Charge(order[..i], rows) && bytes >= 0
      invariant count == |order| - i
    {
      if count < caps.maxFlows && bytes + candidate <= caps.maxBytes {
        return true;
      }
      assert order[i] in order;
      ChargeUpTo(order, rows, i);
      bytes := bytes - s.byID[order[i]].resident;
      if bytes < 0 {
        bytes := 0;
      }
      count := count - 1;
      i := i + 1;
    }
    assert order[..i] == order;
    return count < caps.maxFlows && bytes + candidate <= caps.maxBytes;
  }

  /** What the fields of a store say about what callers see. */
  lemma StoreView(s: Store)
    requires Inv(Abs(s))
    ensures
      var a := Abs(s);
      && a.order == s.core.order && a.bytes == s.core.bytes && a.caps == s.core.caps && UnderCaps(a) && GoodCaps(a.caps)
      && a.bytes == Charge(a.order, a.rows)
      && forall id | id in a.order :: id in s.byID && id in a.rows && a.rows[id].size == s.byID[id].resident
  {
    hide Live;
  }

  lemma ChargeUpTo(order: seq<Id>, rows: map<Id, Row>, i: nat)
    requires i < |order| && order[i] in rows
    ensures Charge(order[..i + 1], rows) == Charge(order[..i], rows) + rows[order[i]].size <= Charge(order, rows)
  {
    assert order[..i + 1] == order[..i] + [order[i]];
    SnocCharge(rows, order[..i], order[i]);
    assert order == order[..i + 1] + order[i + 1..];
    ChargeConcat(order[..i + 1], order[i + 1..], rows);
  }

  // ---------------------------------------------------------------- adding a row

  function Grown(c: Core, id: Id, k: nat, size: nat): Core
    requires k <= |c.order|
  {
    c.(order := c.order[..k] + [id] + c.order[k..], bytes := c.bytes + size, generation := c.generation + 1)
  }

  function AddRecord(s: Store, id: Id, k: nat, rec: Record): Store
    requires k <= |s.core.order|
  {
    s.(core := Grown(s.core, id, k, rec.resident), byID := s.byID[id := rec])
  }

  lemma AddRecordLinked(s: Store, id: Id, k: nat, rec: Record)
    requires Linked(s, {id}) && id !in s.byID && rec.epoch == s.core.epoch
    requires k == Place(s.core.order, Abs(s).rows, id, Load(rec, id, Live(s.files)))
    requires RecordOk(rec, id, Live(s.files))
    requires forall f | f in Live(s.files) && f.id == id :: Flag(rec, f.side)
    ensures Linked(AddRecord(s, id, k, rec), {})
    ensures Abs(AddRecord(s, id, k, rec)) == Add(Abs(s), id, Load(rec, id, Live(s.files)), rec.resident)
  {
    var live := Live(s.files);
    LoadedPut(s.byID, id, rec, live, live);
    FilesPut(s.byID, id, rec, live, live);
    GrownView(s.core, Abs(s).rows, id, k, Load(rec, id, live), rec.resident);
  }

  lemma GrownIsAdd(c: Core, rows: map<Id, Row>, id: Id, k: nat, f: Flow, size: nat)
    requires k == Place(c.order, rows, id, f)
    ensures View(Grown(c, id, k, size), rows[id := Row(f, size, c.epoch)]) == Add(View(c, rows), id, f, size)
  {
  }

  lemma GrownView(c: Core, rows: map<Id, Row>, id: Id, k: nat, f: Flow, size: nat)
    requires Indexed(View(c, rows)) && id !in rows && k == Place(c.order, rows, id, f)
    ensures View(Grown(c, id, k, size), rows[id := Row(f, size, c.epoch)]) == Add(View(c, rows), id, f, size)
    ensures Indexed(Add(View(c, rows), id, f, size))
  {
    GrownIsAdd(c, rows, id, k, f, size);
    AddIndexed(View(c, rows), id, f, size);
  }

  /** Temporary files are invisible. */
  lemma SameLive(s: Store, fs: Files, pending: set<Id>)
    requires Live(fs) == Live(s.files)
    ensures Abs(s.(files := fs)) == Abs(s)
    ensures Linked(s, pending) ==> Linked(s.(files := fs), pending)
  {
  }

  /** The record an insert indexes, and the live files it comes with. */
  function Stored(f: Flow, job: Job, size: nat, epoch: nat): Record {
    Record(Emptied(f, job), size, job.req, job.resp, job.ws, epoch)
  }

  /** A side that is spilled has a positive size, so Get refills it. */
  ghost predicate Sized(f: Flow) {
    (|f.request.body| > 0 ==> f.request.size > 0) && (|f.response.body| > 0 ==> f.response.size > 0)
  }

  lemma CappedSized(f: Flow, max: nat)
    ensures Sized(CapFlow(f, max))
  {
  }

  lemma StoredLoads(f: Flow, id: Id, size: nat, epoch: nat, live: Files, spillOn: bool, threshold: nat)
    requires Sized(f) && forall x | x in live :: x.id != id && !x.tmp
    ensures
      var job := JobOf(f, spillOn, threshold);
      var rec := Stored(f, job, size, epoch);
      var after := Added(live, id, f, job);
      && AgreeExcept(live, after, id)
      && RecordOk(rec, id, after)
      && (forall x | x in after :: !x.tmp && (x.id == id ==> Flag(rec, x.side)))
      && EvictTime(Load(rec, id, after)) == EvictTime(f)
      && (HonestFrames(f.ws) ==> Load(rec, id, after) == f)
  {
    var job := JobOf(f, spillOn, threshold);
    var rec := Stored(f, job, size, epoch);
    var after := Added(live, id, f, job);
    if HonestFrames(f.ws) {
      SplitRestores(f.ws, []);
      assert WsConcat(f.ws) + [] == WsConcat(f.ws);
      assert LoadSide(rec.flow.request, rec.reqSpill, after, File(id, Req, false)) == f.request;
      assert LoadSide(rec.flow.response, rec.respSpill, after, File(id, Resp, false)) == f.response;
      assert LoadWs(rec.flow.ws, rec.wsSpill, after, File(id, Ws, false)) == f.ws;
    }
  }

  // ---------------------------------------------------------------- eviction loops

  /** Evicting other rows leaves the files of a pending insert alone. */
  ghost predicate PendingKept(before: Files, after: Files, pending: set<Id>) {
    forall f: File | f.id in pending :: (f in before <==> f in after) && (f in before ==> before[f] == after[f])
  }

  lemma RemoveKeepsPending(before: Files, s: Store, id: Id, pending: set<Id>)
    requires PendingKept(before, s.files, pending) && id !in pending
    ensures PendingKept(before, RemoveRecord(s, id, true).files, pending)
  {
  }

  /** The rows of t are rows of s. */
  ghost predicate SubIndex(t: map<Id, Record>, s: map<Id, Record>) {
    forall x | x in t :: x in s && t[x] == s[x]
  }

  lemma {:induction false} EvictKeepsPending(s: Store, v: seq<Id>, pending: set<Id>)
    requires forall x | x in v :: x !in pending
    ensures PendingKept(s.files, EvictRecords(s, v).files, pending)
    decreases |v|
  {
    if v != [] {
      var k := |v| - 1;
      EvictKeepsPending(s, v[..k], pending);
      assert v[k] in v;
      RemoveKeepsPending(s.files, EvictRecords(s, v[..k]), v[k], pending);
    }
  }

  lemma {:induction false} EvictSubIndex(s: Store, v: seq<Id>)
    ensures SubIndex(EvictRecords(s, v).byID, s.byID)
    decreases |v|
  {
    if v != [] {
      EvictSubIndex(s, v[..|v| - 1]);
    }
  }

  /** The store without its i oldest rows. */
  ghost function Trimmed(s: Store, i: nat): Store
    requires i <= |s.core.order|
  {
    EvictRecords(s, s.core.order[..i])
  }

  lemma OrderSeen(s: Store)
    ensures Abs(s).order == s.core.order
    ensures Linked(s, {}) ==> Distinct(s.core.order)
  {
  }

  lemma OrderAt(order: seq<Id>, i: nat)
    requires i < |order|
    ensures order[..i + 1] != [] && order[..i + 1][..i] == order[..i] && order[..i + 1][i] == order[i]
  {
  }

  lemma TrimmedNone(s: Store)
    ensures Trimmed(s, 0) == s
  {
  }

  lemma TrimmedOneMore(s: Store, i: nat)
    requires i < |s.core.order|
    ensures Trimmed(s, i + 1) == RemoveRecord(Trimmed(s, i), s.core.order[i], true)
  {
    OrderAt(s.core.order, i);
  }

  /** What is left when the i oldest rows are gone. */
  lemma TrimmedOldest(s: Store, i: nat, pending: set<Id>)
    requires Linked(s, pending) && i <= |s.core.order| && forall id | id in pending :: id !in s.byID
    ensures Linked(Trimmed(s, i), pending) && Abs(Trimmed(s, i)) == Evict(Abs(s), s.core.order[..i])
    ensures Trimmed(s, i).core.order == s.core.order[i..]
  {
    PrefixDistinct(Abs(s), i);
    EvictRecordsLinked(s, s.core.order[..i], pending);
    ExcludingPrefix(s.core.order, i);
  }

  lemma TrimmedOrder(s: Store, i: nat, pending: set<Id>)
    requires Linked(s, pending) && i <= |s.core.order| && forall id | id in pending :: id !in s.byID
    ensures Trimmed(s, i).core.order == s.core.order[i..]
  {
    TrimmedOldest(s, i, pending);
  }

  predicate HasRoom(s: Store, candidate: nat) {
    |s.core.order| < s.core.caps.maxFlows && s.core.bytes + candidate <= s.core.caps.maxBytes
  }

  lemma RoomIsRoomAfter(s: Store, i: nat, candidate: nat, pending: set<Id>)
    requires Linked(s, pending) && i <= |s.core.order| && forall id | id in pending :: id !in s.byID
    ensures HasRoom(Trimmed(s, i), candidate) <==> RoomAfter(Abs(s), i, candidate)
    ensures HasRoom(Trimmed(s, i), candidate) <==> Fits(Abs(Trimmed(s, i)), candidate)
  {
    TrimmedOldest(s, i, pending);
    hide Linked, Trimmed, Excluding, Members, Charge, Loaded;
  }

  /** The eviction loop on its way: no shorter prefix made room. */
  ghost predicate TooFew(s: Store, i: nat, candidate: nat) {
    i <= |s.core.order| && forall j | 0 <= j < i :: !HasRoom(Trimmed(s, j), candidate)
  }

  /** The loop stops exactly where the specification does. */
  lemma EvictedUntilFits(s: Store, i: nat, candidate: nat, pending: set<Id>)
    requires Linked(s, pending) && forall id | id in pending :: id !in s.byID
    requires TooFew(s, i, candidate) && (i == |s.core.order| || HasRoom(Trimmed(s, i), candidate))
    ensures Linked(Trimmed(s, i), pending) && Abs(Trimmed(s, i)) == MakeRoom(Abs(s), candidate)
    ensures HasRoom(Trimmed(s, i), candidate) <==> Fits(Abs(Trimmed(s, i)), candidate)
  {
    TrimmedOldest(s, i, pending);
    forall j | 0 <= j <= i ensures HasRoom(Trimmed(s, j), candidate) <==> RoomAfter(Abs(s), j, candidate) {
      RoomIsRoomAfter(s, j, candidate, pending);
    }
    RoomIsRoomAfter(s, i, candidate, pending);
    EvictCountUnique(Abs(s), i, candidate);
  }

  lemma EvictedAside(s: Store, i: nat, pending: set<Id>)
    requires Linked(s, pending) && i <= |s.core.order| && forall id | id in pending :: id !in s.byID
    ensures PendingKept(s.files, Trimmed(s, i).files, pending) && SubIndex(Trimmed(s, i).byID, s.byID)
    ensures SameOptions(s, Trimmed(s, i))
  {
    PrefixDistinct(Abs(s), i);
    EvictKeepsPending(s, s.core.order[..i], pending);
    EvictSubIndex(s, s.core.order[..i]);
  }

  /** The same for new caps. */
  ghost predicate UnderAfter(a: Inbox, j: nat)
    requires j <= |a.order|
  {
    |a.order| - j <= a.caps.maxFlows && a.bytes - Charge(a.order[..j], a.rows) <= a.caps.maxBytes
  }

  predicate WithinCaps(s: Store) {
    |s.core.order| <= s.core.caps.maxFlows && s.core.bytes <= s.core.caps.maxBytes
  }

  ghost predicate StillOver(s: Store, i: nat) {
    i <= |s.core.order| && forall j | 0 <= j < i :: !WithinCaps(Trimmed(s, j))
  }

  lemma WithinIsUnder(t: Store)
    ensures WithinCaps(t) <==> UnderCaps(Abs(t))
  {
  }

  lemma UnderAfterEvict(a: Inbox, i: nat)
    requires i <= |a.order| && Excluding(a.order, a.order[..i]) == a.order[i..]
    ensures UnderCaps(Evict(a, a.order[..i])) <==> UnderAfter(a, i)
  {
    hide Excluding, Members, Charge;
  }

  lemma UnderIsUnderAfter(s: Store, i: nat)
    requires Linked(s, {}) && i <= |s.core.order|
    ensures WithinCaps(Trimmed(s, i)) <==> UnderAfter(Abs(s), i)
    ensures WithinCaps(Trimmed(s, i)) <==> UnderCaps(Abs(Trimmed(s, i)))
  {
    hide *;
    TrimmedOldest(s, i, {});
    WithinIsUnder(Trimmed(s, i));
    OrderSeen(s);
    ExcludingPrefix(Abs(s).order, i);
    UnderAfterEvict(Abs(s), i);
  }

  lemma OverCountUnique(a: Inbox, i: nat)
    requires i <= |a.order|
    requires forall j | 0 <= j < i :: !UnderAfter(a, j)
    requires i == |a.order| || UnderAfter(a, i)
    ensures i == OverCount(a.order, a.rows, a.bytes, a.caps)
  {
    OverCountShortest(a.order, a.rows, a.bytes, a.caps);
    var k := OverCount(a.order, a.rows, a.bytes, a.caps);
    assert k < i ==> UnderAfter(a, k);
  }

  lemma EvictedUntilUnder(s: Store, i: nat)
    requires Linked(s, {}) && StillOver(s, i) && (i == |s.core.order| || WithinCaps(Trimmed(s, i)))
    ensures
      var a := Abs(s);
      && Linked(Trimmed(s, i), {})
      && Abs(Trimmed(s, i)) == Evict(a, a.order[..OverCount(a.order, a.rows, a.bytes, a.caps)])
    ensures WithinCaps(Trimmed(s, i)) <==> UnderCaps(Abs(Trimmed(s, i)))
  {
    TrimmedOldest(s, i, {});
    forall j | 0 <= j <= i ensures WithinCaps(Trimmed(s, j)) <==> UnderAfter(Abs(s), j) {
      UnderIsUnderAfter(s, j);
    }
    UnderIsUnderAfter(s, i);
    OverCountUnique(Abs(s), i);
  }

  // ---------------------------------------------------------------- methods on the fields

  /** removeLocked, with the waiters left to the module Breakpoints. */
  method RemoveLocked(s: Store, id: Id, eviction: bool) returns (t: Store)
    ensures t == RemoveRecord(s, id, eviction)
  {
    if id !in s.byID {
      return s;
    }
    var rec := s.byID[id];
    var rest := DropFromOrder(s.core.order, id);
    var left := s.core.bytes - rec.resident;
    if left < 0 {
      left := 0;
    }
    var evicted := if eviction then s.core.evictions + 1 else s.core.evictions;
    var core := s.core.(order := rest, bytes := left, generation := s.core.generation + 1, evictions := evicted);
    return s.(core := core, byID := s.byID - {id}, files := Unlink(s.files, id, rec));
  }

  /** evictUntilFitsLocked. */
  method EvictUntilFits(s: Store, candidate: nat, ghost pending: set<Id>) returns (t: Store, ok: bool)
    requires Linked(s, pending) && forall id | id in pending :: id !in s.byID
    ensures Linked(t, pending)
    ensures Abs(t) == MakeRoom(Abs(s), candidate)
    ensures ok == Fits(Abs(t), candidate)
    ensures PendingKept(s.files, t.files, pending) && SubIndex(t.byID, s.byID) && SameOptions(s, t)
  {
    TrimmedNone(s);
    hide Linked, Trimmed, Fits, HasRoom, MakeRoom, PendingKept, SubIndex;
    t := s;
    ghost var i := 0;
    ghost var order := s.core.order;
    while |t.core.order| > 0 && !HasRoom(t, candidate)
      invariant i <= |order| && t == Trimmed(s, i) && TooFew(s, i, candidate)
      decreases |order| - i
    {
      TrimmedOrder(s, i, pending);
      TrimmedOneMore(s, i);
      t := RemoveLocked(t, t.core.order[0], true);
      i := i + 1;
    }
    TrimmedOrder(s, i, pending);
    EvictedUntilFits(s, i, candidate, pending);
    EvictedAside(s, i, pending);
    return t, HasRoom(t, candidate);
  }

  /** evictUntilUnderCapsLocked. */
  method EvictUntilUnderCaps(s: Store) returns (t: Store, ok: bool)
    requires Linked(s, {})
    ensures Linked(t, {})
    ensures
      var a := Abs(s);
      Abs(t) == Evict(a, a.order[..OverCount(a.order, a.rows, a.bytes, a.caps)])
    ensures ok == UnderCaps(Abs(t))
    ensures SubIndex(t.byID, s.byID) && SameOptions(s, t)
  {
    TrimmedNone(s);
    hide Linked, Trimmed, UnderCaps, WithinCaps, Evict, OverCount, SubIndex;
    t := s;
    ghost var i := 0;
    ghost var order := s.core.order;
    while |t.core.order| > 0 && !WithinCaps(t)
      invariant i <= |order| && t == Trimmed(s, i) && StillOver(s, i)
      decreases |order| - i
    {
      TrimmedOrder(s, i, {});
      TrimmedOneMore(s, i);
      t := RemoveLocked(t, t.core.order[0], true);
      i := i + 1;
    }
    TrimmedOrder(s, i, {});
    EvictedUntilUnder(s, i);
    EvictedAside(s, i, {});
    return t, WithinCaps(t);
  }

  // ---------------------------------------------------------------- insert

  lemma NoFilesYet(s: Store, id: Id)
    requires Linked(s, {}) && id !in s.byID
    ensures forall f | f in Live(s.files) :: f.id != id && !f.tmp
    ensures forall side :: File(id, side, false) !in Live(s.files)
  {
    forall side ensures File(id, side, false) !in Live(s.files) {
      assert File(id, side, false).id == id;
    }
  }

  lemma PendingFiles(byID: map<Id, Record>, id: Id, a: Files, b: Files)
    requires FilesOk(byID, a, {}) && id !in byID && AgreeExcept(a, b, id) && forall x | x in b :: !x.tmp
    ensures FilesOk(byID, b, {id}) && Loaded(byID, a) == Loaded(byID, b)
  {
    RowsFrame(byID, id, a, b);
    forall x | x in byID ensures RecordOk(byID[x], x, b) && RowOf(byID[x], x, a) == RowOf(byID[x], x, b) {
      assert SameRow(byID[x], x, a, b);
    }
    forall f | f in b ensures f.id in {id} || (f.id in byID && Flag(byID[f.id], f.side)) {
      if f.id != id {
        assert f in a;
      }
    }
  }

  /** `rec` can be indexed over these live files and then loads as `g`. */
  ghost predicate Ready(rec: Record, id: Id, live: Files, g: Flow) {
    && RecordOk(rec, id, live)
    && (forall f | f in live && f.id == id :: Flag(rec, f.side))
    && Load(rec, id, live) == g
  }

  lemma ReadyKept(rec: Record, id: Id, before: Files, after: Files, g: Flow)
    requires Ready(rec, id, Live(before), g) && PendingKept(before, after, {id})
    ensures Ready(rec, id, Live(after), g)
  {
    assert forall side :: File(id, side, false).id in {id};
    forall f | f in Live(after) && f.id == id ensures Flag(rec, f.side) {
      assert f in Live(before);
    }
  }

  /** The renamed files are in place, the row is not: nothing visible has changed. */
  lemma CommitPending(s: Store, id: Id, capped: Flow, size: nat, epoch: nat, fs: Files)
    requires Linked(s, {}) && id !in s.byID && Sized(capped)
    requires Live(fs) == Added(Live(s.files), id, capped, JobOf(capped, s.spillOn, s.threshold))
    ensures Linked(s.(files := fs), {id}) && Abs(s.(files := fs)) == Abs(s)
    ensures
      var rec := Stored(capped, JobOf(capped, s.spillOn, s.threshold), size, epoch);
      var g := Load(rec, id, Live(fs));
      && Ready(rec, id, Live(fs), g)
      && EvictTime(g) == EvictTime(capped)
      && (HonestFrames(capped.ws) ==> g == capped)
  {
    NoFilesYet(s, id);
    StoredLoads(capped, id, size, epoch, Live(s.files), s.spillOn, s.threshold);
    PendingFiles(s.byID, id, Live(s.files), Live(fs));
  }

  lemma {:induction false} PlaceByTime(order: seq<Id>, rows: map<Id, Row>, id: Id, f: Flow, g: Flow)
    requires EvictTime(f) == EvictTime(g)
    ensures Place(order, rows, id, f) == Place(order, rows, id, g)
    decreases |order|
  {
    if order != [] {
      PlaceByTime(order[1..], rows, id, f, g);
    }
  }

  /** The end of Insert: evict, then index the record whose files are in place. */
  method Settle(s: Store, id: Id, capped: Flow, rec: Record, ghost g: Flow) returns (t: Store)
    requires Linked(s, {id}) && Inv(Abs(s)) && id !in s.byID && CanAccept(Abs(s), rec.resident)
    requires rec.epoch == s.core.epoch && EvictTime(g) == EvictTime(capped) && Ready(rec, id, Live(s.files), g)
    ensures Valid(t)
    ensures Abs(t) == InboxSpec.Insert(Abs(s), id, g, rec.resident)
    ensures id in t.byID && t.byID[id] == rec && SubIndex(t.byID - {id}, s.byID) && SameOptions(s, t)
  {
    DryRunAgrees(Abs(s), rec.resident);
    var u, ok := EvictUntilFits(s, rec.resident, {id});
    // the error branch that would unlink the record again is unreachable
    assert ok;
    assert id !in Abs(u).rows;
    ReadyKept(rec, id, s.files, u.files, g);
    var k := FindPlace(u, id, capped);
    PlaceByTime(u.core.order, Abs(u).rows, id, capped, g);
    AddRecordLinked(u, id, k, rec);
    InsertInv(Abs(s), id, g, rec.resident);
    t := AddRecord(u, id, k, rec);
  }

  /** How an insert of a capped flow ends: temporary files are written before the index lock is taken and
      renamed under it. */
  function InsertOutcome(a: Inbox, spillOn: bool, threshold: nat, epoch: nat, capped: Flow, seen: Caps,
                         writeFails: set<Side>, renameFails: set<Side>): Refusal
  {
    var job, verdict := JobOf(capped, spillOn, threshold), InsertVerdict(a, seen, epoch, Resident(capped));
    if verdict == Refused(TooLarge) then verdict
    else if Struck(job, writeFails) then Refused(SpillFailed)
    else if verdict.Accepted? && Struck(job, renameFails) then Refused(SpillFailed)
    else verdict
  }

  /** A file of the sides that are spilled is among those that fail: sides at least as long as the threshold. */
  predicate Strikes(f: Flow, spillOn: bool, threshold: nat, fails: set<Side>) {
    && spillOn
    && (|| (Req in fails && |f.request.body| >= threshold)
        || (Resp in fails && |f.response.body| >= threshold)
        || (Ws in fails && FrameBytes(f.ws) >= threshold))
  }

  lemma {:induction false} ConcatLength(ws: seq<WsFrame>)
    ensures |WsConcat(ws)| == FrameBytes(ws)
    decreases |ws|
  {
    if ws != [] {
      ConcatLength(ws[1..]);
    }
  }

  /** How an insert ends: files of spilled sides are written once the flow fits the caps read first, and renamed
      once the store accepts it. */
  ghost predicate InsertEnds(a: Inbox, spillOn: bool, threshold: nat, epoch: nat, f: Flow, seen: Caps,
                             writeFails: set<Side>, renameFails: set<Side>, r: Refusal)
  {
    && (r == Refused(SpillFailed) || InsertAnswers(a, seen, epoch, Resident(f), r))
    && (r == Refused(SpillFailed) <==>
          && Resident(f) <= seen.maxBytes
          && (|| Strikes(f, spillOn, threshold, writeFails)
              || (Strikes(f, spillOn, threshold, renameFails) && InsertAnswers(a, seen, epoch, Resident(f), Accepted))))
  }

  /** The sides of a new row that are on disk are those at least as long as the threshold. */
  predicate SpillsBig(rec: Record, f: Flow, spillOn: bool, threshold: nat) {
    && (rec.reqSpill <==> spillOn && |f.request.body| >= threshold)
    && (rec.respSpill <==> spillOn && |f.response.body| >= threshold)
    && (rec.wsSpill <==> spillOn && FrameBytes(f.ws) >= threshold)
  }

  lemma StruckIsStrikes(f: Flow, spillOn: bool, threshold: nat, fails: set<Side>)
    requires spillOn ==> threshold > 0
    ensures Struck(JobOf(f, spillOn, threshold), fails) <==> Strikes(f, spillOn, threshold, fails)
    ensures forall size, epoch :: SpillsBig(Stored(f, JobOf(f, spillOn, threshold), size, epoch), f, spillOn, threshold)
  {
    ConcatLength(f.ws);
    hide FrameBytes, WsConcat;
  }

  lemma OutcomeEnds(a: Inbox, spillOn: bool, threshold: nat, epoch: nat, f: Flow, seen: Caps,
                    writeFails: set<Side>, renameFails: set<Side>)
    requires Inv(a) && (spillOn ==> threshold > 0)
    ensures InsertEnds(a, spillOn, threshold, epoch, f, seen, writeFails, renameFails,
                       InsertOutcome(a, spillOn, threshold, epoch, f, seen, writeFails, renameFails))
  {
    InsertAnswered(a, seen, epoch, Resident(f));
    StruckIsStrikes(f, spillOn, threshold, writeFails);
    StruckIsStrikes(f, spillOn, threshold, renameFails);
    hide Inv, Resident, JobOf, Strikes, Struck;
  }

  /** Insert. Refusals evict nothing and leave no live file. The caps `seen` were read in an earlier
      lock section. */
  method InsertFlow(s: Store, epoch: nat, id: Id, f: Flow, seen: Caps, writeFails: set<Side>, renameFails: set<Side>)
    returns (t: Store, r: Refusal)
    requires Valid(s) && id !in s.byID && GoodCaps(seen)
    ensures Valid(t) && SameOptions(s, t)
    ensures r == InsertOutcome(Abs(s), s.spillOn, s.threshold, epoch, CapFlow(f, seen.maxBody), seen,
                               writeFails, renameFails)
    ensures r.Refused? ==> Abs(t) == Abs(s) && Live(t.files) == Live(s.files)
    ensures r.Accepted? ==>
      var capped := CapFlow(f, seen.maxBody);
      && id in Abs(t).rows
      && Abs(t) == InboxSpec.Insert(Abs(s), id, Abs(t).rows[id].flow, Resident(capped))
      && (HonestFrames(capped.ws) ==> Abs(t).rows[id].flow == capped)
    ensures r.Refused? ==> t.byID == s.byID
    ensures r.Accepted? ==>
      && id in t.byID && SubIndex(t.byID - {id}, s.byID)
      && t.byID[id] == Stored(CapFlow(f, seen.maxBody), JobOf(CapFlow(f, seen.maxBody), s.spillOn, s.threshold),
                              Resident(CapFlow(f, seen.maxBody)), epoch)
    ensures InsertEnds(Abs(s), s.spillOn, s.threshold, epoch, CapFlow(f, seen.maxBody), seen, writeFails, renameFails,
                       r)
    ensures r.Accepted? ==>
      && SpillsBig(t.byID[id], CapFlow(f, seen.maxBody), s.spillOn, s.threshold)
      && Inserted(Abs(s), Abs(t), id, Abs(t).rows[id].flow, Resident(CapFlow(f, seen.maxBody)))
  {
    hide InsertEnds, Inserted, SpillsBig;
    var capped := CapFlow(f, seen.maxBody);
    OutcomeEnds(Abs(s), s.spillOn, s.threshold, epoch, capped, seen, writeFails, renameFails);
    var size := Resident(capped);
    CappedSized(f, seen.maxBody);
    if size > seen.maxBytes {
      return s, Refused(TooLarge);
    }
    var job := JobOf(capped, s.spillOn, s.threshold);
    var fs, ok := WriteTemps(s.files, id, capped, s.spillOn, s.threshold, writeFails);
    SameLive(s, fs, {});
    if !ok {
      return s.(files := fs), Refused(SpillFailed);
    }
    RemoveTempsLive(fs, id, job);
    SameLive(s, RemoveTemps(fs, id, job), {});
    if epoch != s.core.epoch {
      return s.(files := RemoveTemps(fs, id, job)), Refused(StaleEpoch);
    }
    ok := DryRun(s, size);
    if !ok {
      return s.(files := RemoveTemps(fs, id, job)), Refused(Full);
    }
    t, r := CommitInsert(s, id, capped, fs, epoch, renameFails);
  }

  /** The temporary files of a flow are written, and no live file changed. */
  ghost predicate TempsReady(s: Store, id: Id, f: Flow, fs: Files) {
    var job := JobOf(f, s.spillOn, s.threshold);
    && Live(fs) == Live(s.files)
    && (job.req ==> File(id, Req, true) in fs && fs[File(id, Req, true)] == f.request.body)
    && (job.resp ==> File(id, Resp, true) in fs && fs[File(id, Resp, true)] == f.response.body)
    && (job.ws ==> File(id, Ws, true) in fs && fs[File(id, Ws, true)] == WsConcat(f.ws))
  }

  /** The second half of Insert, under the index lock: the renames can still fail. */
  method CommitInsert(s: Store, id: Id, capped: Flow, temps: Files, epoch: nat, renameFails: set<Side>)
    returns (t: Store, r: Refusal)
    requires Valid(s) && id !in s.byID && epoch == s.core.epoch && CanAccept(Abs(s), Resident(capped))
    requires TempsReady(s, id, capped, temps) && Sized(capped)
    ensures Valid(t) && SameOptions(s, t)
    ensures r == if Struck(JobOf(capped, s.spillOn, s.threshold), renameFails) then Refused(SpillFailed) else Accepted
    ensures r.Refused? ==> Abs(t) == Abs(s) && Live(t.files) == Live(s.files) && t.byID == s.byID
    ensures r.Accepted? ==>
      && id in Abs(t).rows
      && Abs(t) == InboxSpec.Insert(Abs(s), id, Abs(t).rows[id].flow, Resident(capped))
      && (HonestFrames(capped.ws) ==> Abs(t).rows[id].flow == capped)
      && id in t.byID && SubIndex(t.byID - {id}, s.byID)
      && t.byID[id] == Stored(capped, JobOf(capped, s.spillOn, s.threshold), Resident(capped), epoch)
      && SpillsBig(t.byID[id], capped, s.spillOn, s.threshold)
      && Inserted(Abs(s), Abs(t), id, Abs(t).rows[id].flow, Resident(capped))
  {
    hide SpillsBig, Inserted;
    var job := JobOf(capped, s.spillOn, s.threshold);
    StruckIsStrikes(capped, s.spillOn, s.threshold, renameFails);
    NoFilesYet(s, id);
    var fs, ok := Commit(temps, id, capped, job, renameFails);
    if !ok {
      SameLive(s, fs, {});
      return s.(files := fs), Refused(SpillFailed);
    }
    CommitPending(s, id, capped, Resident(capped), epoch, fs);
    var rec := Stored(capped, job, Resident(capped), epoch);
    ghost var g := Load(rec, id, Live(fs));
    t := Settle(s.(files := fs), id, capped, rec, g);
    InsertEffect(Abs(s), id, g, Resident(capped));
    return t, Accepted;
  }
}
