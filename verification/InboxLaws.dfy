/**
 The laws of the inbox over every run, proved about the functions of InboxSpec.
 */
module InboxLaws {
  import opened Flows
  import opened Lists
  import opened InboxSpec

  // ---------------------------------------------------------------- lists of rows

  lemma {:induction false} ChargeFrame(order: seq<Id>, a: map<Id, Row>, b: map<Id, Row>)
    requires forall id | id in order :: (id in a <==> id in b) && (id in a ==> a[id].size == b[id].size)
    ensures Charge(order, a) == Charge(order, b)
    decreases |order|
  {
    if order != [] {
      ChargeFrame(order[1..], a, b);
    }
  }

  lemma {:induction false} ChargeConcat(x: seq<Id>, y: seq<Id>, rows: map<Id, Row>)
    ensures Charge(x + y, rows) == Charge(x, rows) + Charge(y, rows)
    decreases |x|
  {
    if x == [] {
      assert x + y == y;
    } else {
      assert (x + y)[1..] == x[1..] + y;
      ChargeConcat(x[1..], y, rows);
    }
  }

  lemma {:induction false} ChargeWithout(order: seq<Id>, id: Id, rows: map<Id, Row>)
    requires Distinct(order) && id in order && id in rows
    ensures Charge(Without(order, id), rows) == Charge(order, rows) - rows[id].size
    decreases |order|
  {
    if order[0] != id {
      ChargeWithout(order[1..], id, rows);
      assert Without(order, id)[1..] == Without(order[1..], id);
    }
  }

  lemma {:induction false} ExcludingMembers(order: seq<Id>, gone: seq<Id>)
    requires Distinct(order)
    ensures Distinct(Excluding(order, gone))
    ensures forall x :: x in Excluding(order, gone) <==> x in order && x !in gone
    decreases |order|
  {
    if order != [] {
      ExcludingMembers(order[1..], gone);
      assert forall x :: x in order <==> x == order[0] || x in order[1..];
    }
  }

  lemma {:induction false} ExcludingSnoc(order: seq<Id>, gone: seq<Id>, id: Id)
    requires Distinct(order) && id !in gone
    ensures Excluding(order, gone + [id]) == Without(Excluding(order, gone), id)
    decreases |order|
  {
    if order != [] {
      ExcludingSnoc(order[1..], gone, id);
      if order[0] == id {
        ExcludingMissing(order[1..], gone, id);
        assert Excluding(order, gone)[1..] == Excluding(order[1..], gone);
      } else if order[0] !in gone {
        assert Excluding(order, gone)[1..] == Excluding(order[1..], gone);
      }
    }
  }

  lemma {:induction false} ExcludingMissing(order: seq<Id>, gone: seq<Id>, id: Id)
    requires id !in order
    ensures Excluding(order, gone + [id]) == Excluding(order, gone)
    decreases |order|
  {
    if order != [] {
      ExcludingMissing(order[1..], gone, id);
    }
  }

  lemma {:induction false} ExcludingNone(order: seq<Id>, gone: seq<Id>)
    requires forall id | id in order :: id !in gone
    ensures Excluding(order, gone) == order
    decreases |order|
  {
    if order != [] {
      ExcludingNone(order[1..], gone);
    }
  }

  /** Excluding a prefix leaves the suffix. */
  lemma {:induction false} ExcludingPrefix(order: seq<Id>, k: nat)
    requires Distinct(order) && k <= |order|
    ensures Excluding(order, order[..k]) == order[k..]
  {
    ExcludingPrefixFrom(order, order[..k], 0, k);
    assert order[0..] == order;
  }

  lemma {:induction false} ExcludingPrefixFrom(order: seq<Id>, gone: seq<Id>, i: nat, k: nat)
    requires Distinct(order) && i <= k <= |order| && gone == order[..k]
    ensures Excluding(order[i..], gone) == order[k..]
    decreases k - i
  {
    if i == k {
      ExcludingNone(order[k..], gone);
    } else {
      assert order[i..][0] == gone[i] && order[i..][1..] == order[i + 1..];
      ExcludingPrefixFrom(order, gone, i + 1, k);
    }
  }

  // ---------------------------------------------------------------- the invariant

  /** The order lists the rows without repetition and the counter is the sum of their charges. */
  ghost predicate Indexed(s: Inbox) {
    && Distinct(s.order)
    && (forall id :: id in s.order <==> id in s.rows)
    && s.bytes == Charge(s.order, s.rows)
  }

  ghost predicate Inv(s: Inbox) {
    && Indexed(s)
    && GoodCaps(s.caps) && UnderCaps(s)
    && (forall id | id in s.rows :: s.rows[id].epoch == s.epoch)
  }

  ghost predicate SortedList(order: seq<Id>, rows: map<Id, Row>) {
    forall i, j | 0 <= i < j < |order| && order[i] in rows && order[j] in rows ::
      Earlier(rows[order[i]].flow, order[i], rows[order[j]].flow, order[j])
  }

  /** The eviction order is by eviction time, then id. */
  ghost predicate Sorted(s: Inbox) {
    SortedList(s.order, s.rows)
  }

  lemma {:induction false} ChargeMember(order: seq<Id>, rows: map<Id, Row>, id: Id)
    requires id in order && id in rows
    ensures rows[id].size <= Charge(order, rows)
    decreases |order|
  {
    if order[0] != id {
      ChargeMember(order[1..], rows, id);
    }
  }

  /** Removing a row keeps the index, and the below-zero clamp never acts. */
  lemma RemoveIndexed(s: Inbox, id: Id, eviction: bool)
    requires Indexed(s)
    ensures Indexed(Remove(s, id, eviction))
    ensures id in s.rows ==>
      && Remove(s, id, eviction).bytes == s.bytes - s.rows[id].size
      && |Remove(s, id, eviction).order| == |s.order| - 1
  {
    if id in s.rows {
      WithoutMembers(s.order, id);
      ChargeWithout(s.order, id, s.rows);
      ChargeFrame(Without(s.order, id), s.rows, s.rows - {id});
      ChargeMember(s.order, s.rows, id);
    }
  }

  /** Evicting one more row is one removal. */
  lemma EvictSnoc(s: Inbox, gone: seq<Id>, id: Id)
    requires Indexed(s) && id in s.rows && id !in gone
    requires Indexed(Evict(s, gone))
    ensures Evict(s, gone + [id]) == Remove(Evict(s, gone), id, true)
  {
    var t := Evict(s, gone);
    ExcludingSnoc(s.order, gone, id);
    SnocCharge(s.rows, gone, id);
    SnocRows(s.rows, gone, id);
    RemoveIndexed(t, id, true);
  }

  lemma SnocCharge(rows: map<Id, Row>, gone: seq<Id>, id: Id)
    requires id in rows
    ensures Charge(gone + [id], rows) == Charge(gone, rows) + rows[id].size
  {
    ChargeConcat(gone, [id], rows);
    assert [id][1..] == [];
  }

  lemma SnocRows(rows: map<Id, Row>, gone: seq<Id>, id: Id)
    ensures rows - Members(gone + [id]) == rows - Members(gone) - {id}
  {
    assert Members(gone + [id]) == Members(gone) + {id};
  }

  lemma {:induction false} EvictIndexed(s: Inbox, gone: seq<Id>)
    requires Indexed(s) && Distinct(gone) && forall x | x in gone :: x in s.rows
    ensures Indexed(Evict(s, gone))
    ensures |Evict(s, gone).order| == |s.order| - |gone|
    decreases |gone|
  {
    if gone == [] {
      ExcludingNone(s.order, []);
      assert s.rows - Members([]) == s.rows;
    } else {
      var k := |gone| - 1;
      assert gone[..k] + [gone[k]] == gone;
      EvictIndexed(s, gone[..k]);
      EvictSnoc(s, gone[..k], gone[k]);
      assert gone[k] in Evict(s, gone[..k]).rows;
      RemoveIndexed(Evict(s, gone[..k]), gone[k], true);
    }
  }

  // ---------------------------------------------------------------- making room

  /** The state after evicting the j oldest rows, as a caller would count it. */
  ghost predicate RoomAfter(s: Inbox, j: nat, candidate: nat)
    requires j <= |s.order|
  {
    && |s.order| - j < s.caps.maxFlows
    && s.bytes - Charge(s.order[..j], s.rows) + candidate <= s.caps.maxBytes
  }

  lemma {:induction false} EvictCountShortest(order: seq<Id>, rows: map<Id, Row>, bytes: int, caps: Caps,
                                              candidate: nat)
    ensures
      var k := EvictCount(order, rows, bytes, caps, candidate);
      && (forall j | 0 <= j < k ::
            !(|order| - j < caps.maxFlows && bytes - Charge(order[..j], rows) + candidate <= caps.maxBytes))
      && (k < |order| ==> |order| - k < caps.maxFlows && bytes - Charge(order[..k], rows) + candidate <= caps.maxBytes)
    decreases |order|
  {
    var k := EvictCount(order, rows, bytes, caps, candidate);
    if k > 0 {
      var size := if order[0] in rows then rows[order[0]].size else 0;
      EvictCountShortest(order[1..], rows, bytes - size, caps, candidate);
      forall j | 0 < j <= |order|
        ensures Charge(order[..j], rows) == size + Charge(order[1..][..j - 1], rows)
      {
        assert order[..j][1..] == order[1..][..j - 1];
      }
    }
  }

  /** The eviction loop removes exactly the shortest prefix of the order that makes room. */
  lemma MakeRoomIsShortest(s: Inbox, candidate: nat)
    requires Indexed(s)
    ensures
      var k := EvictCount(s.order, s.rows, s.bytes, s.caps, candidate);
      && MakeRoom(s, candidate).order == s.order[k..]
      && (forall j | 0 <= j < k :: !RoomAfter(s, j, candidate))
      && (k < |s.order| ==> RoomAfter(s, k, candidate))
      && MakeRoom(s, candidate).bytes == s.bytes - Charge(s.order[..k], s.rows)
  {
    var k := EvictCount(s.order, s.rows, s.bytes, s.caps, candidate);
    EvictCountShortest(s.order, s.rows, s.bytes, s.caps, candidate);
    ExcludingPrefix(s.order, k);
  }

  /** The dry run is exact: it accepts iff evicting can make room, and then evicting does. */
  lemma DryRunAgrees(s: Inbox, candidate: nat)
    requires Inv(s)
    ensures CanAccept(s, candidate) ==> Fits(MakeRoom(s, candidate), candidate)
    ensures s.caps.evictOldest ==> (CanAccept(s, candidate) <==> candidate <= s.caps.maxBytes)
    ensures s.caps.evictOldest ==> (CanAccept(s, candidate) <==> Fits(MakeRoom(s, candidate), candidate))
    ensures !s.caps.evictOldest && CanAccept(s, candidate) ==> MakeRoom(s, candidate).order == s.order
  {
    MakeRoomIsShortest(s, candidate);
    MakeRoomInv(s, candidate);
    var k := EvictCount(s.order, s.rows, s.bytes, s.caps, candidate);
    if k == |s.order| {
      assert s.order[..k] == s.order;
    }
  }

  lemma {:induction false} PrefixDistinct(s: Inbox, k: nat)
    requires Indexed(s) && k <= |s.order|
    ensures Distinct(s.order[..k]) && forall x | x in s.order[..k] :: x in s.rows
  {
    forall x | x in s.order[..k] ensures x in s.rows {
      assert x in s.order;
    }
  }

  lemma MakeRoomInv(s: Inbox, candidate: nat)
    requires Inv(s)
    ensures Inv(MakeRoom(s, candidate))
  {
    var k := EvictCount(s.order, s.rows, s.bytes, s.caps, candidate);
    PrefixDistinct(s, k);
    EvictIndexed(s, s.order[..k]);
  }

  // ---------------------------------------------------------------- adding

  lemma {:induction false} PlaceSplits(order: seq<Id>, rows: map<Id, Row>, id: Id, f: Flow)
    ensures
      var k := Place(order, rows, id, f);
      && (forall i | 0 <= i < k && order[i] in rows :: !Earlier(f, id, rows[order[i]].flow, order[i]))
      && (k < |order| ==> order[k] in rows && Earlier(f, id, rows[order[k]].flow, order[k]))
    decreases |order|
  {
    if Place(order, rows, id, f) > 0 {
      PlaceSplits(order[1..], rows, id, f);
    }
  }

  lemma AddIndexed(s: Inbox, id: Id, f: Flow, size: nat)
    requires Indexed(s) && id !in s.rows
    ensures Indexed(Add(s, id, f, size))
    ensures |Add(s, id, f, size).order| == |s.order| + 1
  {
    var k := Place(s.order, s.rows, id, f);
    var t := Add(s, id, f, size);
    InsertedMembers(s.order, k, id);
    assert s.order[..k] + s.order[k..] == s.order;
    ChargeConcat(s.order[..k], s.order[k..], s.rows);
    ChargeConcat(s.order[..k] + [id], s.order[k..], t.rows);
    ChargeConcat(s.order[..k], [id], t.rows);
    assert [id][1..] == [];
    ChargeFrame(s.order[..k], s.rows, t.rows);
    ChargeFrame(s.order[k..], s.rows, t.rows);
  }

  lemma InsertedMembers(order: seq<Id>, k: nat, id: Id)
    requires k <= |order| && Distinct(order) && id !in order
    ensures
      var t := order[..k] + [id] + order[k..];
      Distinct(t) && forall x :: x in t <==> x == id || x in order
  {
    var t := order[..k] + [id] + order[k..];
    forall x ensures x in t <==> x == id || x in order {
      if x in order {
        var i :| 0 <= i < |order| && order[i] == x;
        assert t[if i < k then i else i + 1] == x;
      }
    }
  }

  lemma AddSorted(s: Inbox, id: Id, f: Flow, size: nat)
    requires Indexed(s) && Sorted(s) && id !in s.rows
    ensures Sorted(Add(s, id, f, size))
  {
    var k := Place(s.order, s.rows, id, f);
    var rows := s.rows[id := Row(f, size, s.epoch)];
    PlaceSplits(s.order, s.rows, id, f);
    forall i | 0 <= i < |s.order|
      ensures s.order[i] in s.rows && s.order[i] != id
      ensures i < k ==> Earlier(rows[s.order[i]].flow, s.order[i], f, id)
      ensures i >= k ==> Earlier(f, id, rows[s.order[i]].flow, s.order[i])
    {
      assert s.order[i] in s.order;
    }
    InsertSorted(s.order, rows, k, id);
  }

  lemma InsertSorted(order: seq<Id>, rows: map<Id, Row>, k: nat, id: Id)
    requires k <= |order| && id in rows && SortedList(order, rows)
    requires forall i | 0 <= i < k :: order[i] in rows && Earlier(rows[order[i]].flow, order[i], rows[id].flow, id)
    requires forall i | k <= i < |order| ::
      order[i] in rows && Earlier(rows[id].flow, id, rows[order[i]].flow, order[i])
    ensures SortedList(order[..k] + [id] + order[k..], rows)
  {
  }

  lemma {:induction false} ExcludingSorted(order: seq<Id>, gone: seq<Id>, rows: map<Id, Row>)
    requires Distinct(order) && SortedList(order, rows)
    ensures SortedList(Excluding(order, gone), rows)
    decreases |order|
  {
    if order != [] {
      ExcludingSorted(order[1..], gone, rows);
      ExcludingMembers(order[1..], gone);
      var rest := Excluding(order[1..], gone);
      forall j | 0 <= j < |rest| && order[0] in rows && rest[j] in rows
        ensures Earlier(rows[order[0]].flow, order[0], rows[rest[j]].flow, rest[j])
      {
        assert rest[j] in order[1..];
      }
    }
  }

  lemma {:induction false} WithoutIsExcluding(order: seq<Id>, id: Id)
    requires Distinct(order)
    ensures Without(order, id) == Excluding(order, [id])
    decreases |order|
  {
    if order != [] {
      WithoutIsExcluding(order[1..], id);
      if order[0] == id {
        ExcludingNone(order[1..], [id]);
      }
    }
  }

  lemma EvictSorted(s: Inbox, gone: seq<Id>)
    requires Distinct(s.order) && Sorted(s)
    ensures Sorted(Evict(s, gone))
  {
    ExcludingSorted(s.order, gone, s.rows);
  }

  lemma RemoveSorted(s: Inbox, id: Id, eviction: bool)
    requires Distinct(s.order) && Sorted(s)
    ensures Sorted(Remove(s, id, eviction))
  {
    WithoutIsExcluding(s.order, id);
    ExcludingSorted(s.order, [id], s.rows);
  }

  /** An accepted insert keeps the invariant: the new row is listed, charged and within both caps. */
  lemma InsertInv(s: Inbox, id: Id, f: Flow, size: nat)
    requires Inv(s) && id !in s.rows && CanAccept(s, size)
    ensures Inv(Insert(s, id, f, size))
    ensures id in Insert(s, id, f, size).rows
    ensures Sorted(s) ==> Sorted(Insert(s, id, f, size))
  {
    var t := MakeRoom(s, size);
    MakeRoomInv(s, size);
    DryRunAgrees(s, size);
    AddIndexed(t, id, f, size);
    if Sorted(s) {
      EvictSorted(s, s.order[..EvictCount(s.order, s.rows, s.bytes, s.caps, size)]);
      AddSorted(t, id, f, size);
    }
  }

  // ---------------------------------------------------------------- new caps

  lemma {:induction false} OverCountShortest(order: seq<Id>, rows: map<Id, Row>, bytes: int, caps: Caps)
    ensures
      var k := OverCount(order, rows, bytes, caps);
      && (forall j | 0 <= j < k ::
            !(|order| - j <= caps.maxFlows && bytes - Charge(order[..j], rows) <= caps.maxBytes))
      && (k < |order| ==> |order| - k <= caps.maxFlows && bytes - Charge(order[..k], rows) <= caps.maxBytes)
    decreases |order|
  {
    var k := OverCount(order, rows, bytes, caps);
    if k > 0 {
      var size := if order[0] in rows then rows[order[0]].size else 0;
      OverCountShortest(order[1..], rows, bytes - size, caps);
      forall j | 0 < j <= |order|
        ensures Charge(order[..j], rows) == size + Charge(order[1..][..j - 1], rows)
      {
        assert order[..j][1..] == order[1..][..j - 1];
      }
    }
  }

  /** New caps never fail once they evict: the result is within them, by the shortest prefix. */
  lemma ReplaceCapsInv(s: Inbox, caps: Caps)
    requires Inv(s) && GoodCaps(caps)
    ensures Inv(ReplaceCaps(s, caps))
    ensures Sorted(s) ==> Sorted(ReplaceCaps(s, caps))
    ensures
      var k := OverCount(s.order, s.rows, s.bytes, caps);
      && ReplaceCaps(s, caps).order == s.order[k..]
      && (forall j | 0 <= j < k ::
            !(|s.order| - j <= caps.maxFlows && s.bytes - Charge(s.order[..j], s.rows) <= caps.maxBytes))
  {
    var k := OverCount(s.order, s.rows, s.bytes, caps);
    var c := s.(caps := caps);
    OverCountShortest(s.order, s.rows, s.bytes, caps);
    PrefixDistinct(s, k);
    EvictIndexed(c, s.order[..k]);
    ExcludingPrefix(s.order, k);
    if k == |s.order| {
      assert s.order[..k] == s.order;
    }
    if Sorted(s) {
      EvictSorted(c, s.order[..k]);
    }
  }

  lemma DeleteAllInv(s: Inbox)
    requires Inv(s)
    ensures Inv(DeleteAll(s)) && Sorted(DeleteAll(s))
  {
  }

  // ---------------------------------------------------------------- rows in place

  lemma RestateInv(s: Inbox, id: Id, f: Flow)
    requires Inv(s) && id in s.rows
    ensures Inv(Restate(s, id, f))
    ensures Sorted(s) && EvictTime(f) == EvictTime(s.rows[id].flow) ==> Sorted(Restate(s, id, f))
  {
    ChargeFrame(s.order, s.rows, Restate(s, id, f).rows);
  }

  // ---------------------------------------------------------------- resume

  lemma {:induction false} VictimsAreOthers(order: seq<Id>, rows: map<Id, Row>, id: Id, excess: int)
    requires Distinct(order)
    ensures
      var v := Victims(order, rows, id, excess);
      Distinct(v) && forall x | x in v :: x in order && x != id
    decreases |order|
  {
    if order != [] && excess > 0 {
      assert order[0] !in order[1..];
      VictimsAreOthers(order[1..], rows, id, excess);
      VictimsAreOthers(order[1..], rows, id, excess - (if order[0] in rows then rows[order[0]].size else 0));
    }
  }

  /** The victims free the excess whenever all the other rows together could. */
  lemma {:induction false} VictimsFreeEnough(order: seq<Id>, rows: map<Id, Row>, id: Id, excess: int)
    requires Distinct(order)
    ensures
      var v := Victims(order, rows, id, excess);
      Charge(v, rows) >= excess || Charge(v, rows) == Charge(Without(order, id), rows)
    decreases |order|
  {
    if order != [] && excess > 0 {
      var rest := order[1..];
      if order[0] == id {
        VictimsFreeEnough(rest, rows, id, excess);
        WithoutMembers(rest, id);
      } else {
        var size := if order[0] in rows then rows[order[0]].size else 0;
        VictimsFreeEnough(rest, rows, id, excess - size);
        assert Victims(order, rows, id, excess)[1..] == Victims(rest, rows, id, excess - size);
        assert Without(order, id)[1..] == Without(rest, id);
      }
    }
  }

  /** And no fewer would do: without the last victim some excess is left. */
  lemma {:induction false} VictimsAreFewest(order: seq<Id>, rows: map<Id, Row>, id: Id, excess: int)
    ensures
      var v := Victims(order, rows, id, excess);
      v != [] ==> Charge(v[..|v| - 1], rows) < excess
    decreases |order|
  {
    if order != [] && excess > 0 {
      var rest := order[1..];
      if order[0] == id {
        VictimsAreFewest(rest, rows, id, excess);
      } else {
        var size := if order[0] in rows then rows[order[0]].size else 0;
        VictimsAreFewest(rest, rows, id, excess - size);
        var v := Victims(order, rows, id, excess);
        var w := Victims(rest, rows, id, excess - size);
        assert v == [order[0]] + w;
        if w != [] {
          assert v[..|v| - 1][1..] == w[..|w| - 1];
        }
      }
    }
  }

  function Excess(s: Inbox, id: Id, next: nat): int
    requires id in s.rows
  {
    s.bytes + next - s.rows[id].size - s.caps.maxBytes
  }

  /** `t` is `s` with room for row id to cost `next`. */
  ghost predicate HasRoomFor(s: Inbox, t: Inbox, id: Id, next: nat) {
    && Indexed(t) && id in s.rows && id in t.rows && t.rows[id] == s.rows[id]
    && t.caps == s.caps && GoodCaps(t.caps)
    && |t.order| <= t.caps.maxFlows
    && t.bytes + next - t.rows[id].size <= t.caps.maxBytes
    && (forall x | x in t.rows :: t.rows[x].epoch == t.epoch)
    && (Sorted(s) ==> Sorted(t))
  }

  /** The patched row's victims: other rows only, and enough of them for the byte cap. */
  lemma PatchEviction(s: Inbox, id: Id, next: nat)
    requires Inv(s) && id in s.rows && next <= s.caps.maxBytes
    ensures HasRoomFor(s, Evict(s, Victims(s.order, s.rows, id, Excess(s, id, next))), id, next)
  {
    var excess := Excess(s, id, next);
    var v := Victims(s.order, s.rows, id, excess);
    VictimsAreOthers(s.order, s.rows, id, excess);
    VictimsFreeEnough(s.order, s.rows, id, excess);
    ChargeWithout(s.order, id, s.rows);
    EvictIndexed(s, v);
    if Sorted(s) {
      EvictSorted(s, v);
    }
  }

  lemma ResizeInv(s: Inbox, t: Inbox, id: Id, f: Flow, next: nat)
    requires HasRoomFor(s, t, id, next)
    ensures Inv(Resize(t, id, f, next, s.rows[id]))
    ensures Sorted(s) && EvictTime(f) == EvictTime(s.rows[id].flow) ==> Sorted(Resize(t, id, f, next, s.rows[id]))
  {
    ChargeResize(t.order, t.rows, id, t.rows[id].(flow := f, size := next));
  }

  lemma PatchedTime(f: Flow, p: Patch)
    ensures EvictTime(Patched(f, p)) == EvictTime(f)
  {
  }

  lemma ReplacedInv(s: Inbox, id: Id, f: Flow, next: nat)
    requires Inv(s) && id in s.rows && next <= s.caps.maxBytes
    ensures
      var t := Resize(Evict(s, Victims(s.order, s.rows, id, Excess(s, id, next))), id, f, next, s.rows[id]);
      && Inv(t) && id in t.rows && t.rows[id].flow == f
      && (Sorted(s) && EvictTime(f) == EvictTime(s.rows[id].flow) ==> Sorted(t))
  {
    PatchEviction(s, id, next);
    ResizeInv(s, Evict(s, Victims(s.order, s.rows, id, Excess(s, id, next))), id, f, next);
  }

  /** An accepted patch keeps both caps and never evicts the patched row. */
  lemma ApplyPatchInv(s: Inbox, id: Id, p: Patch, next: nat)
    requires Inv(s) && id in s.rows && PatchVerdict(s, id, p, next).Accepted?
    ensures Inv(ApplyPatch(s, id, p, next))
    ensures id in ApplyPatch(s, id, p, next).rows
    ensures ApplyPatch(s, id, p, next).rows[id].flow == Patched(s.rows[id].flow, p)
    ensures Sorted(s) ==> Sorted(ApplyPatch(s, id, p, next))
  {
    PatchedTime(s.rows[id].flow, p);
    ReplacedInv(s, id, Patched(s.rows[id].flow, p), next);
  }

  /** Under evict_oldest a patched row that fits alone is never refused as full. */
  lemma ResumeNeverFull(s: Inbox, id: Id, p: Patch, next: nat)
    requires Inv(s) && id in s.rows && s.caps.evictOldest
    ensures PatchVerdict(s, id, p, next) != Refused(Full)
    ensures PatchVerdict(s, id, p, next).Accepted? ==>
      s.bytes + next - s.rows[id].size
        - Charge(Victims(s.order, s.rows, id, s.bytes + next - s.rows[id].size - s.caps.maxBytes), s.rows)
        <= s.caps.maxBytes
  {
    hide Victims, Charge;
    if next <= s.caps.maxBytes {
      PatchEviction(s, id, next);
    }
  }

  lemma {:induction false} ChargeResize(order: seq<Id>, rows: map<Id, Row>, id: Id, row: Row)
    requires Distinct(order) && id in order && id in rows
    ensures Charge(order, rows[id := row]) == Charge(order, rows) - rows[id].size + row.size
    decreases |order|
  {
    if order[0] == id {
      ChargeFrame(order[1..], rows, rows[id := row]);
    } else {
      ChargeResize(order[1..], rows, id, row);
    }
  }
}
