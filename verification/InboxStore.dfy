/**
 Memory, the mutable inbox (internal/store/memory.go, internal/store/breakpoint.go), with its
 spill files.

 `Abs()` is the inbox as its callers see it: every row with the bodies Get would load. Each
 method is proved to act on `Abs()` as the spill-free functions of InboxSpec do, so spilling is
 invisible; an operation that fails changes neither `Abs()` nor any live spill file. Ids are
 fresh ULIDs; the sets `writeFails` and `renameFails` say which file operations fail.
 */
module InboxStore {
  import opened Flows
  import opened Lists
  import opened InboxSpec
  import opened InboxLaws
  import opened Spill

  function RowOf(rec: Record, id: Id, live: Files): Row {
    Row(Load(rec, id, live), rec.resident, rec.epoch)
  }

  function Loaded(byID: map<Id, Record>, live: Files): map<Id, Row> {
    map id | id in byID :: RowOf(byID[id], id, live)
  }

  /** A flagged side has its file, and the row keeps only its size. */
  ghost predicate RecordOk(rec: Record, id: Id, live: Files) {
    && (rec.reqSpill ==> File(id, Req, false) in live && |rec.flow.request.body| == 0 && rec.flow.request.size > 0)
    && (rec.respSpill ==> File(id, Resp, false) in live && |rec.flow.response.body| == 0 && rec.flow.response.size > 0)
    && (rec.wsSpill ==> File(id, Ws, false) in live)
  }

  /** Live files are exactly the flagged sides of the indexed rows: none is missing, none leaks.
      `pending` are ids whose files are in place before their row is. */
  ghost predicate FilesOk(byID: map<Id, Record>, live: Files, pending: set<Id>) {
    && (forall id | id in byID :: RecordOk(byID[id], id, live))
    && (forall f | f in live :: !f.tmp && (f.id in pending || (f.id in byID && Flag(byID[f.id], f.side))))
  }

  ghost predicate AgreeExcept(a: Files, b: Files, id: Id) {
    forall f: File | f.id != id :: (f in a <==> f in b) && (f in a ==> a[f] == b[f])
  }

  lemma RowFrame(rec: Record, id: Id, other: Id, a: Files, b: Files)
    requires AgreeExcept(a, b, other) && id != other
    ensures RowOf(rec, id, a) == RowOf(rec, id, b)
    ensures RecordOk(rec, id, a) <==> RecordOk(rec, id, b)
  {
    assert File(id, Req, false).id != other && File(id, Resp, false).id != other && File(id, Ws, false).id != other;
  }

  ghost predicate SameRow(rec: Record, id: Id, a: Files, b: Files) {
    RowOf(rec, id, a) == RowOf(rec, id, b) && (RecordOk(rec, id, a) <==> RecordOk(rec, id, b))
  }

  lemma RowsFrame(byID: map<Id, Record>, id: Id, a: Files, b: Files)
    requires AgreeExcept(a, b, id)
    ensures forall x | x in byID && x != id :: SameRow(byID[x], x, a, b)
  {
    forall x | x in byID && x != id
      ensures SameRow(byID[x], x, a, b)
    {
      RowFrame(byID[x], x, id, a, b);
    }
  }

  lemma LoadedDrop(byID: map<Id, Record>, id: Id, a: Files, b: Files)
    requires id in byID && AgreeExcept(a, b, id)
    ensures Loaded(byID - {id}, b) == Loaded(byID, a) - {id}
  {
    RowsFrame(byID, id, a, b);
    var x, y := Loaded(byID - {id}, b), Loaded(byID, a) - {id};
    assert x.Keys == y.Keys;
    forall k | k in x ensures x[k] == y[k] {
      assert SameRow(byID[k], k, a, b);
    }
  }

  lemma FilesDrop(byID: map<Id, Record>, id: Id, a: Files, b: Files, pending: set<Id>)
    requires id in byID && FilesOk(byID, a, pending) && AgreeExcept(a, b, id)
    requires forall f | f in b :: f in a && f.id != id
    ensures FilesOk(byID - {id}, b, pending)
  {
    RowsFrame(byID, id, a, b);
    forall x | x in byID - {id} ensures RecordOk(byID[x], x, b) {
      assert SameRow(byID[x], x, a, b);
    }
  }

  lemma LoadedPut(byID: map<Id, Record>, id: Id, rec: Record, a: Files, b: Files)
    requires AgreeExcept(a, b, id)
    ensures Loaded(byID[id := rec], b) == Loaded(byID, a)[id := RowOf(rec, id, b)]
  {
    RowsFrame(byID, id, a, b);
    var x, y := Loaded(byID[id := rec], b), Loaded(byID, a)[id := RowOf(rec, id, b)];
    assert x.Keys == y.Keys;
    forall k | k in x ensures x[k] == y[k] {
      if k != id {
        assert SameRow(byID[k], k, a, b);
      }
    }
  }

  lemma FilesPut(byID: map<Id, Record>, id: Id, rec: Record, a: Files, b: Files)
    requires FilesOk(byID, a, {id}) && AgreeExcept(a, b, id)
    requires RecordOk(rec, id, b) && forall f | f in b && f.id == id :: Flag(rec, f.side) && !f.tmp
    ensures FilesOk(byID[id := rec], b, {})
  {
    RowsFrame(byID, id, a, b);
    var m := byID[id := rec];
    forall x | x in m ensures RecordOk(m[x], x, b) {
      if x != id {
        assert SameRow(byID[x], x, a, b);
      }
    }
    forall f | f in b ensures !f.tmp && f.id in m && Flag(m[f.id], f.side) {
      if f.id != id {
        assert f in a;
      }
    }
  }

  lemma UnlinkLive(byID: map<Id, Record>, id: Id, files: Files, pending: set<Id>)
    requires id in byID && id !in pending && FilesOk(byID, Live(files), pending)
    ensures
      var b := Live(Unlink(files, id, byID[id]));
      AgreeExcept(Live(files), b, id) && forall f | f in b :: f in Live(files) && f.id != id
  {
    var b := Live(Unlink(files, id, byID[id]));
    forall f | f in b ensures f in Live(files) && f.id != id {
      assert f in Live(files) && f == File(f.id, f.side, false);
    }
  }

  lemma EvictCountUnique(s: Inbox, i: nat, candidate: nat)
    requires i <= |s.order|
    requires forall j | 0 <= j < i :: !RoomAfter(s, j, candidate)
    requires i == |s.order| || RoomAfter(s, i, candidate)
    ensures i == EvictCount(s.order, s.rows, s.bytes, s.caps, candidate)
  {
    EvictCountShortest(s.order, s.rows, s.bytes, s.caps, candidate);
    var k := EvictCount(s.order, s.rows, s.bytes, s.caps, candidate);
    assert i < k ==> !RoomAfter(s, i, candidate);
    assert k < i ==> RoomAfter(s, k, candidate);
  }

  /** The rows and files of an index without one row. */
  lemma DropRecord(byID: map<Id, Record>, id: Id, files: Files, pending: set<Id>)
    requires id in byID && id !in pending && FilesOk(byID, Live(files), pending)
    ensures
      var b := Live(Unlink(files, id, byID[id]));
      Loaded(byID - {id}, b) == Loaded(byID, Live(files)) - {id} && FilesOk(byID - {id}, b, pending)
  {
    UnlinkLive(byID, id, files, pending);
    LoadedDrop(byID, id, Live(files), Live(Unlink(files, id, byID[id])));
    FilesDrop(byID, id, Live(files), Live(Unlink(files, id, byID[id])), pending);
  }

  /** The scan of removeLocked: the first occurrence of id leaves the list. */
  method DropFromOrder(order: seq<Id>, id: Id) returns (r: seq<Id>)
    ensures r == Without(order, id)
  {
    var i := 0;
    while i < |order|
      invariant 0 <= i <= |order| && id !in order[..i]
    {
      if order[i] == id {
        WithoutAt(order, i, id);
        return order[..i] + order[i + 1..];
      }
      assert order[..i + 1] == order[..i] + [order[i]];
      i := i + 1;
    }
    assert order[..i] == order;
    WithoutMissing(order, id);
    return order;
  }

  // ---------------------------------------------------------------- the fields of Memory

  /** Counters and eviction order. */
  datatype Core = Core(caps: Caps, order: seq<Id>, bytes: int, generation: nat, evictions: nat, epoch: nat)

  datatype Store = Store(core: Core, byID: map<Id, Record>, files: Files, spillOn: bool, threshold: nat)

  predicate SameOptions(s: Store, t: Store) {
    s.spillOn == t.spillOn && s.threshold == t.threshold
  }

  ghost function View(c: Core, rows: map<Id, Row>): Inbox {
    Inbox(c.caps, c.order, rows, c.bytes, c.generation, c.evictions, c.epoch)
  }

  /** The inbox as callers see it: every row with the bodies Get would load. */
  ghost function Abs(s: Store): Inbox {
    View(s.core, Loaded(s.byID, Live(s.files)))
  }

  ghost predicate Linked(s: Store, pending: set<Id>) {
    Indexed(Abs(s)) && FilesOk(s.byID, Live(s.files), pending) && (s.spillOn ==> s.threshold > 0)
  }

  ghost predicate Valid(s: Store) {
    Linked(s, {}) && Inv(Abs(s))
  }

  // ---------------------------------------------------------------- removing rows

  function Shrunk(c: Core, id: Id, size: nat, eviction: bool): Core {
    c.(order := Without(c.order, id),
       bytes := if c.bytes < size then 0 else c.bytes - size,
       generation := c.generation + 1,
       evictions := if eviction then c.evictions + 1 else c.evictions)
  }

  function RemoveRecord(s: Store, id: Id, eviction: bool): Store {
    if id !in s.byID then s
    else
      s.(core := Shrunk(s.core, id, s.byID[id].resident, eviction),
         byID := s.byID - {id},
         files := Unlink(s.files, id, s.byID[id]))
  }

  lemma ShrunkView(c: Core, rows: map<Id, Row>, id: Id, eviction: bool)
    requires Indexed(View(c, rows)) && id in rows
    ensures
      var t := View(Shrunk(c, id, rows[id].size, eviction), rows - {id});
      t == Remove(View(c, rows), id, eviction) && Indexed(t)
  {
    RemoveIndexed(View(c, rows), id, eviction);
  }

  lemma RemoveRecordLinked(s: Store, id: Id, eviction: bool, pending: set<Id>)
    requires Linked(s, pending) && id !in pending
    ensures Linked(RemoveRecord(s, id, eviction), pending)
    ensures Abs(RemoveRecord(s, id, eviction)) == Remove(Abs(s), id, eviction)
  {
    if id in s.byID {
      DropRecord(s.byID, id, s.files, pending);
      ShrunkView(s.core, Loaded(s.byID, Live(s.files)), id, eviction);
    }
  }

  /** Several rows evicted one after the other. */
  function EvictRecords(s: Store, gone: seq<Id>): (t: Store)
    ensures SameOptions(s, t)
    decreases |gone|
  {
    if gone == [] then s
    else RemoveRecord(EvictRecords(s, gone[..|gone| - 1]), gone[|gone| - 1], true)
  }

  lemma EvictNone(s: Store)
    ensures Evict(Abs(s), []) == Abs(s)
  {
    ExcludingNone(s.core.order, []);
    assert Abs(s).rows - Members([]) == Abs(s).rows;
  }

  lemma EvictOneMore(s: Inbox, t: Store, gone: seq<Id>, id: Id, pending: set<Id>)
    requires Indexed(s) && id in s.rows && id !in gone && id !in pending
    requires Linked(t, pending) && Abs(t) == Evict(s, gone)
    ensures Linked(RemoveRecord(t, id, true), pending)
    ensures Abs(RemoveRecord(t, id, true)) == Evict(s, gone + [id])
  {
    EvictSnoc(s, gone, id);
    RemoveRecordLinked(t, id, true, pending);
  }

  lemma {:induction false} EvictRecordsLinked(s: Store, gone: seq<Id>, pending: set<Id>)
    requires Linked(s, pending) && Distinct(gone)
    requires forall id | id in gone :: id in s.byID && id !in pending
    ensures Linked(EvictRecords(s, gone), pending)
    ensures Abs(EvictRecords(s, gone)) == Evict(Abs(s), gone)
    decreases |gone|
  {
    if gone == [] {
      EvictNone(s);
    } else {
      var k := |gone| - 1;
      var before, id := gone[..k], gone[k];
      assert id in gone && before + [id] == gone;
      EvictRecordsLinked(s, before, pending);
      EvictOneMore(Abs(s), EvictRecords(s, before), before, id, pending);
    }
  }
}
