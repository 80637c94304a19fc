/**
 idempCache (internal/app/idempotency.go): a doubly linked list on the heap and a map into it,
 proved to be the bounded recency list of module Recency.

 `nodes` is the list the links spell out, head first.
 */
module Idempotency {
  import opened Options
  import opened Recency

  const DEFAULT_IDEMPOTENCY_MAX := 256

  class Entry {
    const key: Key
    const fp: Fingerprint
    var plan: Option<Plan>
    var apply: Option<Applied>
    var prev: Entry?
    var next: Entry?

    constructor (key: Key, fp: Fingerprint, plan: Option<Plan>, apply: Option<Applied>)
      ensures this.key == key && this.fp == fp && this.plan == plan && this.apply == apply
    {
      this.key, this.fp, this.plan, this.apply, prev, next := key, fp, plan, apply, null, null;
    }
  }

  ghost predicate NoRepeats(nodes: seq<Entry>) {
    nodes == [] || (nodes[0] !in nodes[1..] && NoRepeats(nodes[1..]))
  }

  lemma {:induction false} DistinctPairs(nodes: seq<Entry>)
    ensures NoRepeats(nodes) <==> forall i, j | 0 <= i < j < |nodes| :: nodes[i] != nodes[j]
    decreases |nodes|
  {
    if nodes != [] {
      DistinctPairs(nodes[1..]);
      var rest := nodes[1..];
      assert forall j | 0 <= j < |rest| :: rest[j] == nodes[j + 1];
      if forall i, j | 0 <= i < j < |nodes| :: nodes[i] != nodes[j] {
        assert forall i, j | 0 <= i < j < |rest| :: rest[i] != rest[j];
      }
    }
  }

  ghost function Before(nodes: seq<Entry>, i: nat): Entry?
    requires i < |nodes|
  {
    if i == 0 then null else nodes[i - 1]
  }

  ghost function After(nodes: seq<Entry>, i: nat): Entry?
    requires i < |nodes|
  {
    if i + 1 == |nodes| then null else nodes[i + 1]
  }

  /** The next links lead to the neighbours behind. */
  ghost predicate NextOk(nodes: seq<Entry>)
    reads nodes`next
  {
    forall i | 0 <= i < |nodes| :: nodes[i].next == After(nodes, i)
  }

  /** The prev links lead to the neighbours in front. */
  ghost predicate PrevOk(nodes: seq<Entry>)
    reads nodes`prev
  {
    forall i | 0 <= i < |nodes| :: nodes[i].prev == Before(nodes, i)
  }

  ghost function First(nodes: seq<Entry>): Entry? {
    if nodes == [] then null else nodes[0]
  }

  ghost function Last(nodes: seq<Entry>): Entry? {
    if nodes == [] then null else nodes[|nodes| - 1]
  }

  /** The links of every node lead to its neighbours; `prev` stands before the first. */
  ghost predicate Chained(nodes: seq<Entry>, prev: Entry?)
    reads nodes`prev, nodes`next
  {
    nodes == [] || (nodes[0].prev == prev && nodes[0].next == First(nodes[1..]) && Chained(nodes[1..], nodes[0]))
  }

  ghost predicate PrevFrom(nodes: seq<Entry>, prev: Entry?)
    reads nodes`prev
  {
    forall i | 0 <= i < |nodes| :: nodes[i].prev == BeforeFrom(nodes, i, prev)
  }

  ghost function BeforeFrom(nodes: seq<Entry>, i: nat, prev: Entry?): Entry?
    requires i < |nodes|
  {
    if i == 0 then prev else nodes[i - 1]
  }

  lemma {:induction false} ChainedFrom(nodes: seq<Entry>, prev: Entry?)
    ensures Chained(nodes, prev) <==> NextOk(nodes) && PrevFrom(nodes, prev)
    decreases |nodes|
  {
    if nodes != [] {
      var rest := nodes[1..];
      ChainedFrom(rest, nodes[0]);
      if NextOk(nodes) && PrevFrom(nodes, prev) {
        forall i | 0 <= i < |rest|
          ensures rest[i].next == After(rest, i) && rest[i].prev == BeforeFrom(rest, i, nodes[0])
        {
          assert rest[i] == nodes[i + 1] && After(rest, i) == After(nodes, i + 1);
          assert BeforeFrom(rest, i, nodes[0]) == BeforeFrom(nodes, i + 1, prev);
        }
        assert NextOk(rest) && PrevFrom(rest, nodes[0]);
        assert nodes[0].next == After(nodes, 0) == First(rest) && nodes[0].prev == prev;
      } else if Chained(rest, nodes[0]) && nodes[0].prev == prev && nodes[0].next == First(rest) {
        forall i | 0 <= i < |nodes|
          ensures nodes[i].next == After(nodes, i) && nodes[i].prev == BeforeFrom(nodes, i, prev)
        {
          if i > 0 {
            assert nodes[i] == rest[i - 1] && After(nodes, i) == After(rest, i - 1);
            assert BeforeFrom(rest, i - 1, nodes[0]) == BeforeFrom(nodes, i, prev);
          }
        }
      }
    }
  }

  lemma ChainedIff(nodes: seq<Entry>)
    ensures Chained(nodes, null) <==> NextOk(nodes) && PrevOk(nodes)
  {
    ChainedFrom(nodes, null);
    assert forall i | 0 <= i < |nodes| :: Before(nodes, i) == BeforeFrom(nodes, i, null);
  }

  ghost function Removed(nodes: seq<Entry>, i: nat): seq<Entry>
    requires i < |nodes|
  {
    nodes[..i] + nodes[i + 1..]
  }

  lemma RemovedAt(was: seq<Entry>, i: nat, j: nat)
    requires i < |was| && j < |Removed(was, i)| && NoRepeats(was)
    ensures |Removed(was, i)| == |was| - 1
    ensures Removed(was, i)[j] == if j < i then was[j] else was[j + 1]
    ensures After(Removed(was, i), j) == if j < i - 1 then After(was, j) else if j == i - 1 then After(was, i)
      else After(was, j + 1)
    ensures Before(Removed(was, i), j) == if j < i then Before(was, j) else if j == i then Before(was, i)
      else Before(was, j + 1)
    ensures Removed(was, i)[j] != was[i]
    ensures j != i - 1 ==> Removed(was, i)[j] != Before(was, i)
    ensures j == i - 1 ==> Removed(was, i)[j] == Before(was, i)
    ensures j != i ==> Removed(was, i)[j] != After(was, i)
    ensures j == i ==> Removed(was, i)[j] == After(was, i)
  {
    DistinctPairs(was);
  }

  lemma BeforeOther(nodes: seq<Entry>, i: nat)
    requires NoRepeats(nodes) && i < |nodes|
    ensures Before(nodes, i) != nodes[i] && After(nodes, i) != nodes[i]
  {
    DistinctPairs(nodes);
  }

  lemma RemovedEnds(was: seq<Entry>, i: nat)
    requires i < |was|
    ensures First(Removed(was, i)) == if i == 0 then After(was, i) else First(was)
    ensures Last(Removed(was, i)) == if i + 1 == |was| then Before(was, i) else Last(was)
  {
  }

  lemma {:induction false} RemovedDistinct(was: seq<Entry>, i: nat)
    requires i < |was| && NoRepeats(was)
    ensures NoRepeats(Removed(was, i)) && was[i] !in Removed(was, i)
    ensures forall n | n in Removed(was, i) :: n in was
    decreases i
  {
    if i == 0 {
      assert Removed(was, 0) == was[1..];
    } else {
      RemovedDistinct(was[1..], i - 1);
      var rest := Removed(was[1..], i - 1);
      assert was[i] == was[1..][i - 1];
      assert Removed(was, i) == [was[0]] + rest;
      PushedDistinct(rest, was[0]);
    }
  }

  /** The map holds exactly the listed nodes, each under its key. */
  ghost predicate Mapped(nodes: seq<Entry>, entries: map<Key, Entry>) {
    && (forall n | n in nodes :: n.key in entries && entries[n.key] == n)
    && (forall k | k in entries :: entries[k] in nodes && entries[k].key == k)
    && |entries| == |nodes|
  }

  lemma MappedRemoved(nodes: seq<Entry>, entries: map<Key, Entry>, i: nat)
    requires NoRepeats(nodes) && Mapped(nodes, entries) && i < |nodes|
    ensures Mapped(Removed(nodes, i), entries - {nodes[i].key})
  {
    var rest, left, e := Removed(nodes, i), entries - {nodes[i].key}, nodes[i];
    RemovedDistinct(nodes, i);
    assert e in nodes;
    forall k | k in left ensures left[k] in rest && left[k].key == k {
      var j :| 0 <= j < |nodes| && nodes[j] == entries[k];
      RemovedKeeps(nodes, i, j);
    }
    assert left.Keys == entries.Keys - {e.key};
  }

  lemma RemovedKeeps(nodes: seq<Entry>, i: nat, j: nat)
    requires i < |nodes| && j < |nodes| && i != j
    ensures nodes[j] in Removed(nodes, i)
  {
    assert Removed(nodes, i)[if j < i then j else j - 1] == nodes[j];
  }

  lemma MappedPushed(nodes: seq<Entry>, entries: map<Key, Entry>, e: Entry)
    requires Mapped(nodes, entries) && e.key !in entries
    ensures Mapped([e] + nodes, entries[e.key := e])
  {
    assert entries[e.key := e].Keys == entries.Keys + {e.key};
    assert ([e] + nodes)[0] == e;
  }

  lemma MappedMoved(nodes: seq<Entry>, entries: map<Key, Entry>, i: nat)
    requires Mapped(nodes, entries) && i < |nodes|
    ensures Mapped([nodes[i]] + Removed(nodes, i), entries)
  {
    var moved := [nodes[i]] + Removed(nodes, i);
    forall k | k in entries ensures entries[k] in moved {
      var j :| 0 <= j < |nodes| && nodes[j] == entries[k];
      if j != i {
        RemovedKeeps(nodes, i, j);
      }
    }
  }

  method Detach(e: Entry, ghost rest: seq<Entry>)
    requires e !in rest && NextOk(rest) && PrevOk(rest)
    modifies e`prev, e`next
    ensures NextOk(rest) && PrevOk(rest) && e.prev == null && e.next == null
  {
    e.prev := null;
    e.next := null;
  }

  class IdempCache {
    const max: nat
    var entries: map<Key, Entry>
    var head: Entry?
    var tail: Entry?
    ghost var nodes: seq<Entry>

    ghost predicate Links()
      reads this, nodes
    {
      NoRepeats(nodes) && Chained(nodes, null) && head == First(nodes) && tail == Last(nodes)
    }

    /** Both views agree. */
    ghost predicate Linked()
      reads this, nodes
    {
      Links() && Mapped(nodes, entries)
    }

    ghost predicate Valid()
      reads this, nodes
    {
      Links() && Sound(nodes, entries, max)
    }

    constructor (max: int)
      ensures Valid() && nodes == []
      ensures this.max == if max <= 0 then DEFAULT_IDEMPOTENCY_MAX else max
    {
      this.max := if max <= 0 then DEFAULT_IDEMPOTENCY_MAX else max;
      entries, head, tail, nodes := map[], null, null, [];
    }

    method SpliceNext(e: Entry, ghost i: nat)
      requires NoRepeats(nodes) && NextOk(nodes) && PrevOk(nodes) && head == First(nodes)
      requires i < |nodes| && nodes[i] == e
      modifies `head, nodes`next
      ensures NextOk(Removed(nodes, i)) && head == First(Removed(nodes, i))
      ensures PrevOk(nodes) && e.next == After(nodes, i)
    {
      RemovedEnds(nodes, i);
      assert e.prev == Before(nodes, i) && e.next == After(nodes, i);
      if e.prev != null {
        BeforeOther(nodes, i);
        e.prev.next := e.next;
      } else {
        head := e.next;
      }
      ghost var rest := Removed(nodes, i);
      forall j | 0 <= j < |rest| ensures rest[j].next == After(rest, j) {
        RemovedAt(nodes, i, j);
      }
    }

    method SplicePrev(e: Entry, ghost i: nat)
      requires NoRepeats(nodes) && PrevOk(nodes) && tail == Last(nodes)
      requires i < |nodes| && nodes[i] == e && e.next == After(nodes, i) && NextOk(Removed(nodes, i))
      modifies `tail, nodes`prev
      ensures PrevOk(Removed(nodes, i)) && tail == Last(Removed(nodes, i)) && NextOk(Removed(nodes, i))
    {
      RemovedEnds(nodes, i);
      assert e.prev == Before(nodes, i);
      if e.next != null {
        BeforeOther(nodes, i);
        e.next.prev := e.prev;
      } else {
        tail := e.prev;
      }
      ghost var rest := Removed(nodes, i);
      forall j | 0 <= j < |rest| ensures rest[j].prev == Before(rest, j) {
        RemovedAt(nodes, i, j);
      }
    }
  
    /** unlinkLocked: take the i-th node out of the list. */
    method Unlink(e: Entry, ghost i: nat)
      requires Links() && i < |nodes| && nodes[i] == e
      modifies `head, `tail, `nodes, nodes`prev, nodes`next
      ensures Links() && nodes == Removed(old(nodes), i)
      ensures e.prev == null && e.next == null
    {
      ghost var rest := Removed(nodes, i);
      RemovedDistinct(nodes, i);
      ChainedIff(nodes);
      SpliceNext(e, i);
      SplicePrev(e, i);
      Detach(e, rest);
      ChainedIff(rest);
      nodes := rest;
    }

    /** Put a node that is not in the list in front. */
    method PushFront(e: Entry)
      requires Links() && e !in nodes
      modifies `head, `tail, `nodes, nodes`prev, e`prev, e`next
      ensures Links() && nodes == [e] + old(nodes)
    {
      ghost var was := nodes;
      PushedDistinct(was, e);
      e.prev := null;
      e.next := head;
      if head != null {
        head.prev := e;
      }
      head := e;
      if tail == null {
        tail := e;
      }
      assert ([e] + was)[1..] == was;
      nodes := [e] + was;
    }

    /** removeLocked. */
    method RemoveEntry(e: Entry, ghost i: nat)
      requires Links() && i < |nodes| && nodes[i] == e
      modifies `entries, `head, `tail, `nodes, nodes`prev, nodes`next
      ensures Links() && nodes == Removed(old(nodes), i) && entries == old(entries) - {e.key}
    {
      entries := entries - {e.key};
      Unlink(e, i);
    }

    /** moveFrontLocked. */
    method MoveFront(e: Entry, ghost i: nat)
      requires Links() && i < |nodes| && nodes[i] == e
      modifies `head, `tail, `nodes, nodes`prev, nodes`next
      ensures Links() && nodes == [e] + Removed(old(nodes), i)
    {
      if e == head {
        assert nodes == [e] + Removed(nodes, i);
        return;
      }
      RemovedDistinct(nodes, i);
      Unlink(e, i);
      PushFront(e);
    }
  
    method DropTail()
      requires Linked() && nodes != []
      modifies `entries, `head, `tail, `nodes, nodes`prev, nodes`next
      ensures Linked() && nodes == Removed(old(nodes), |old(nodes)| - 1) && entries.Keys <= old(entries.Keys)
    {
      MappedRemoved(nodes, entries, |nodes| - 1);
      RemoveEntry(tail, |nodes| - 1);
    }

    /** The loop at the end of insertFrontLocked. */
    method TrimTail()
      requires Linked()
      modifies `entries, `head, `tail, `nodes, nodes`prev, nodes`next
      ensures Linked() && nodes == Cut(old(nodes), max) && entries.Keys <= old(entries.Keys)
    {
      ghost var was := nodes;
      while |entries| > max && tail != null
        invariant entries.Keys <= old(entries.Keys)
        invariant Linked() && Trimmed(was, nodes, max) && forall n | n in nodes :: n in was
        decreases |nodes|
      {
        TrimStep(was, nodes, max);
        DropTail();
      }
      TrimDone(was, nodes, max);
    }
  
    method DropKey(key: Key)
      requires Linked()
      modifies `entries, `head, `tail, `nodes, nodes`prev, nodes`next
      ensures Linked() && nodes == Keyless(old(nodes), key) && key !in entries && entries.Keys <= old(entries.Keys)
    {
      if key in entries {
        var stale := entries[key];
        ghost var i := IndexOf(nodes, stale);
        MappedRemoved(nodes, entries, i);
        KeylessAt(nodes, entries, i);
        RemoveEntry(stale, i);
      } else {
        KeylessNone(nodes, key);
      }
    }

    method AddFront(e: Entry)
      requires Linked() && e.key !in entries && e !in nodes
      modifies `entries, `head, `tail, `nodes, nodes`prev, e`prev, e`next
      ensures Linked() && nodes == [e] + old(nodes) && entries.Keys == old(entries.Keys) + {e.key}
    {
      MappedPushed(nodes, entries, e);
      entries := entries[e.key := e];
      PushFront(e);
    }
  
    /** insertFrontLocked. */
    method InsertFront(e: Entry)
      requires Valid() && e !in nodes && e.key != ""
      modifies `entries, `head, `tail, `nodes, nodes`prev, nodes`next, e`prev, e`next
      ensures Valid() && nodes == Cut([e] + Keyless(old(nodes), e.key), max)
    {
      ghost var was := nodes;
      ReplaceKey(e);
      assert forall j | 0 <= j < |nodes| :: nodes[j] == e || nodes[j] in was;
      TrimTail();
    }

    method ReplaceKey(e: Entry)
      requires Linked() && e !in nodes
      modifies `entries, `head, `tail, `nodes, nodes`prev, nodes`next, e`prev, e`next
      ensures Linked() && nodes == [e] + Keyless(old(nodes), e.key) && entries.Keys <= old(entries.Keys) + {e.key}
    {
      ghost var was := nodes;
      DropKey(e.key);
      assert forall j | 0 <= j < |nodes| :: nodes[j] in was;
      AddFront(e);
    }

    ghost function Contents(): seq<Item>
      reads this, nodes
    {
      Items(nodes)
    }

    /** lookup: the entry of the key if it was recorded for this request, now the most recent. */
    method Lookup(key: Key, fp: Fingerprint) returns (e: Entry?, reused: bool)
      requires Valid()
      modifies `head, `tail, `nodes, nodes`prev, nodes`next
      ensures Valid() && Contents() == Touched(old(Contents()), key, fp)
      ensures e != null <==> key != "" && Hit(old(Contents()), key, fp).Some?
      ensures e != null ==> e in nodes && ItemOf(e) == Hit(old(Contents()), key, fp).value
      ensures reused <==> key != "" && KeyReused(old(Contents()), key, fp)
      ensures forall j | 0 <= j < |nodes| :: nodes[j] in old(nodes)
    {
      if key == "" {
        return null, false;
      }
      LookupNode(nodes, entries, key);
      if key !in entries {
        return null, false;
      }
      e := entries[key];
      if e.fp != fp {
        return null, true;
      }
      reused := false;
      Promote(e);
    }

    /** A listed node becomes the most recent one. */
    method Promote(e: Entry)
      requires Valid() && e in nodes
      modifies `head, `tail, `nodes, nodes`prev, nodes`next
      ensures Valid() && e in nodes && Contents() == [ItemOf(e)] + WithoutKey(old(Contents()), e.key)
      ensures forall j | 0 <= j < |nodes| :: nodes[j] in old(nodes)
    {
      ghost var was := nodes;
      PromoteNode(e);
      ItemsFrame(was);
      ItemsPut(was, e);
    }

    method PromoteNode(e: Entry)
      requires Valid() && e in nodes
      modifies `head, `tail, `nodes, nodes`prev, nodes`next
      ensures Valid() && nodes == [e] + Keyless(old(nodes), e.key)
    {
      ghost var i := IndexOf(nodes, e);
      SoundMoved(nodes, entries, max, i);
      MoveFront(e, i);
    }
  
    method RewriteNode(e: Entry, plan: Option<Plan>, apply: Option<Applied>)
      requires Valid() && e in nodes
      modifies `head, `tail, `nodes, nodes`prev, nodes`next, e`plan, e`apply
      ensures Valid() && nodes == [e] + Keyless(old(nodes), e.key) && e.plan == plan && e.apply == apply
    {
      e.plan, e.apply := plan, apply;
      PromoteNode(e);
    }

    /** A listed entry is rewritten and becomes the most recent one. */
    method Rewrite(e: Entry, plan: Option<Plan>, apply: Option<Applied>)
      requires Valid() && e in nodes
      modifies `head, `tail, `nodes, nodes`prev, nodes`next, e`plan, e`apply
      ensures Valid() && Contents() == [Item(e.key, e.fp, plan, apply)] + WithoutKey(old(Contents()), e.key)
      ensures forall j | 0 <= j < |nodes| :: nodes[j] in old(nodes)
    {
      ghost var others := Keyless(nodes, e.key);
      ItemsKeyless(nodes, e.key);
      RewriteNode(e, plan, apply);
      ItemsFrame(others);
      ItemsFront(e, others);
    }

    /** A new entry, replacing one of the same key. */
    method Record(e: Entry)
      requires Valid() && e !in nodes && e.key != ""
      modifies `entries, `head, `tail, `nodes, nodes`prev, nodes`next, e`prev, e`next
      ensures Valid() && Contents() == Put(old(Contents()), ItemOf(e), max)
      ensures forall j | 0 <= j < |nodes| :: nodes[j] == e || nodes[j] in old(nodes)
    {
      ghost var was := nodes;
      InsertFront(e);
      ItemsFrame(was);
      ItemsPut(was, e);
      ItemsCut([e] + Keyless(was, e.key), max);
      CutMembers(was, e, max);
    }

    method RecordNew(key: Key, fp: Fingerprint, plan: Option<Plan>, apply: Option<Applied>)
      requires Valid() && key != ""
      modifies this, nodes
      ensures Valid() && Contents() == Put(old(Contents()), Item(key, fp, plan, apply), max)
      ensures forall j | 0 <= j < |nodes| :: nodes[j] in old(nodes) || fresh(nodes[j])
    {
      var e := new Entry(key, fp, plan, apply);
      ItemsFrame(nodes);
      Record(e);
    }

    method StorePlan(key: Key, fp: Fingerprint, p: Plan)
      requires Valid()
      modifies this, nodes
      ensures Valid() && Contents() == StoredPlan(old(Contents()), key, fp, p, max)
      ensures forall j | 0 <= j < |nodes| :: nodes[j] in old(nodes) || fresh(nodes[j])
    {
      if key == "" {
        return;
      }
      LookupNode(nodes, entries, key);
      ContentsOk(nodes, entries, max);
      StoredPlanCases(Contents(), key, fp, p, max);
      if key in entries && entries[key].fp == fp {
        var e := entries[key];
        Rewrite(e, Some(p), e.apply);
      } else {
        RecordNew(key, fp, Some(p), None);
      }
    }

    method StoreApply(key: Key, fp: Fingerprint, r: Applied)
      requires Valid()
      modifies this, nodes
      ensures Valid() && Contents() == StoredApply(old(Contents()), key, fp, r, max)
      ensures forall j | 0 <= j < |nodes| :: nodes[j] in old(nodes) || fresh(nodes[j])
    {
      if key == "" {
        return;
      }
      LookupNode(nodes, entries, key);
      ContentsOk(nodes, entries, max);
      StoredApplyCases(Contents(), key, fp, r, max);
      if key in entries && entries[key].fp == fp {
        var e := entries[key];
        Rewrite(e, e.plan, Some(r));
      } else {
        RecordNew(key, fp, None, Some(r));
      }
    }

    method Evict(key: Key)
      requires Valid()
      modifies this, nodes
      ensures Valid() && Contents() == Evicted(old(Contents()), key)
      ensures forall j | 0 <= j < |nodes| :: nodes[j] in old(nodes) || fresh(nodes[j])
    {
      if key == "" {
        return;
      }
      ghost var others := Keyless(nodes, key);
      ItemsKeyless(nodes, key);
      EvictNode(key);
      ItemsFrame(others);
    }

    method EvictNode(key: Key)
      requires Valid()
      modifies `entries, `head, `tail, `nodes, nodes`prev, nodes`next
      ensures Valid() && nodes == Keyless(old(nodes), key)
    {
      KeylessShorter(nodes, key);
      DropKey(key);
    }

    method Clear()
      requires Valid()
      modifies this
      ensures Valid() && Contents() == []
    {
      entries, head, tail, nodes := map[], null, null, [];
    }
  }

  /** What nodes record depends on their own plan and apply fields only. */
  twostate lemma {:induction false} ItemsFrame(nodes: seq<Entry>)
    requires forall n | n in nodes :: n.plan == old(n.plan) && n.apply == old(n.apply)
    ensures Items(nodes) == old(Items(nodes))
    decreases |nodes|
  {
    if nodes != [] {
      ItemsFrame(nodes[1..]);
    }
  }

  lemma ItemsFront(e: Entry, others: seq<Entry>)
    ensures Items([e] + others) == [ItemOf(e)] + Items(others)
  {
    assert ([e] + others)[1..] == others;
  }

  lemma {:induction false} KeylessShorter(nodes: seq<Entry>, key: Key)
    ensures |Keyless(nodes, key)| <= |nodes|
    decreases |nodes|
  {
    if nodes != [] {
      KeylessShorter(nodes[1..], key);
    }
  }

  lemma CutMembers(was: seq<Entry>, e: Entry, max: nat)
    ensures forall n | n in Cut([e] + Keyless(was, e.key), max) :: n == e || n in was
  {
  }

  lemma {:induction false} ItemsCut(nodes: seq<Entry>, max: nat)
    ensures Items(Cut(nodes, max)) == Bounded(Items(nodes), max)
    decreases |nodes|
  {
    if max == 0 {
      assert Cut(nodes, max) == [];
    } else if nodes != [] {
      ItemsCut(nodes[1..], max - 1);
      assert Cut(nodes, max)[1..] == Cut(nodes[1..], max - 1);
    }
  }

  /** The chain always spells out a recency list within its bound, one entry per key. */
  lemma ContentsOk(nodes: seq<Entry>, entries: map<Key, Entry>, max: nat)
    requires NoRepeats(nodes) && Sound(nodes, entries, max)
    ensures Ok(Items(nodes), max)
  {
    var items := Items(nodes);
    DistinctPairs(nodes);
    forall i | 0 <= i < |nodes| ensures items[i] == ItemOf(nodes[i]) && nodes[i] in nodes && items[i].key != "" {
      ItemsAt(nodes, i);
    }
    forall i, j | 0 <= i < j < |items| ensures items[i].key != items[j].key {
      assert items[i] == ItemOf(nodes[i]) && items[j] == ItemOf(nodes[j]);
    }
  }

  lemma {:induction false} ItemsAt(nodes: seq<Entry>, i: nat)
    requires i < |nodes|
    ensures Items(nodes)[i] == ItemOf(nodes[i])
    decreases i
  {
    if i > 0 {
      ItemsAt(nodes[1..], i - 1);
    }
  }

  /** What the list and the map have to do with each other, and the bound. */
  ghost predicate Sound(nodes: seq<Entry>, entries: map<Key, Entry>, max: nat) {
    Mapped(nodes, entries) && max > 0 && |nodes| <= max && "" !in entries
  }

  lemma SoundMoved(nodes: seq<Entry>, entries: map<Key, Entry>, max: nat, i: nat)
    requires NoRepeats(nodes) && Sound(nodes, entries, max) && i < |nodes|
    ensures Sound([nodes[i]] + Removed(nodes, i), entries, max)
    ensures Removed(nodes, i) == Keyless(nodes, nodes[i].key)
  {
    MappedMoved(nodes, entries, i);
    KeylessAt(nodes, entries, i);
  }

  ghost function ItemOf(e: Entry): Item
    reads e`plan, e`apply
  {
    Item(e.key, e.fp, e.plan, e.apply)
  }

  /** What the nodes record, in list order. */
  ghost function Items(nodes: seq<Entry>): (r: seq<Item>)
    reads nodes`plan, nodes`apply
    ensures |r| == |nodes|
  {
    if nodes == [] then [] else [ItemOf(nodes[0])] + Items(nodes[1..])
  }

  lemma {:induction false} ItemsKeyless(nodes: seq<Entry>, key: Key)
    ensures Items(Keyless(nodes, key)) == WithoutKey(Items(nodes), key)
    decreases |nodes|
  {
    if nodes != [] {
      ItemsKeyless(nodes[1..], key);
      assert Items(nodes)[1..] == Items(nodes[1..]);
      var rest := Keyless(nodes[1..], key);
      assert ([nodes[0]] + rest)[1..] == rest;
    }
  }

  lemma ItemsPut(nodes: seq<Entry>, e: Entry)
    ensures Items([e] + Keyless(nodes, e.key)) == [ItemOf(e)] + WithoutKey(Items(nodes), e.key)
  {
    ItemsKeyless(nodes, e.key);
    assert ([e] + Keyless(nodes, e.key))[1..] == Keyless(nodes, e.key);
  }

  lemma {:induction false} ItemsLookup(nodes: seq<Entry>, key: Key)
    ensures Recency.Lookup(Items(nodes), key) == LookupIn(nodes, key)
    decreases |nodes|
  {
    if nodes != [] {
      ItemsLookup(nodes[1..], key);
      assert Items(nodes)[1..] == Items(nodes[1..]);
    }
  }

  ghost function LookupIn(nodes: seq<Entry>, key: Key): Option<Item>
    reads nodes`plan, nodes`apply
  {
    if nodes == [] then None
    else if nodes[0].key == key then Some(ItemOf(nodes[0]))
    else LookupIn(nodes[1..], key)
  }

  lemma {:induction false} LookupInAt(nodes: seq<Entry>, i: nat)
    requires i < |nodes| && forall j | 0 <= j < i :: nodes[j].key != nodes[i].key
    ensures LookupIn(nodes, nodes[i].key) == Some(ItemOf(nodes[i]))
    decreases i
  {
    if i > 0 {
      LookupInAt(nodes[1..], i - 1);
    }
  }

  lemma {:induction false} LookupInNone(nodes: seq<Entry>, key: Key)
    requires forall n | n in nodes :: n.key != key
    ensures LookupIn(nodes, key) == None
    decreases |nodes|
  {
    if nodes != [] {
      LookupInNone(nodes[1..], key);
    }
  }

  /** The map finds what a scan of the list would find. */
  lemma LookupNode(nodes: seq<Entry>, entries: map<Key, Entry>, key: Key)
    requires NoRepeats(nodes) && Mapped(nodes, entries)
    ensures Recency.Lookup(Items(nodes), key) == if key in entries then Some(ItemOf(entries[key])) else None
  {
    ItemsLookup(nodes, key);
    if key in entries {
      var i := IndexOf(nodes, entries[key]);
      DistinctPairs(nodes);
      forall j | 0 <= j < i ensures nodes[j].key != nodes[i].key {
        assert nodes[j] in nodes && nodes[i] in nodes;
      }
      LookupInAt(nodes, i);
    } else {
      LookupInNone(nodes, key);
    }
  }

  ghost function IndexOf(nodes: seq<Entry>, e: Entry): (i: nat)
    requires e in nodes
    ensures i < |nodes| && nodes[i] == e
  {
    if nodes[0] == e then 0 else 1 + IndexOf(nodes[1..], e)
  }

  /** The nodes of other keys. */
  ghost function Keyless(nodes: seq<Entry>, key: Key): (r: seq<Entry>)
    ensures forall n | n in r :: n in nodes && n.key != key
  {
    if nodes == [] then []
    else if nodes[0].key == key then Keyless(nodes[1..], key)
    else [nodes[0]] + Keyless(nodes[1..], key)
  }

  lemma {:induction false} KeylessNone(nodes: seq<Entry>, key: Key)
    requires forall n | n in nodes :: n.key != key
    ensures Keyless(nodes, key) == nodes
    decreases |nodes|
  {
    if nodes != [] {
      KeylessNone(nodes[1..], key);
    }
  }

  lemma KeylessAt(nodes: seq<Entry>, entries: map<Key, Entry>, i: nat)
    requires NoRepeats(nodes) && Mapped(nodes, entries) && i < |nodes|
    ensures Keyless(nodes, nodes[i].key) == Removed(nodes, i)
  {
    DistinctPairs(nodes);
    forall j | 0 <= j < |nodes| && j != i ensures nodes[j].key != nodes[i].key {
      assert nodes[j] in nodes && nodes[i] in nodes;
    }
    KeylessOne(nodes, i);
  }

  lemma {:induction false} KeylessOne(nodes: seq<Entry>, i: nat)
    requires i < |nodes| && forall j | 0 <= j < |nodes| && j != i :: nodes[j].key != nodes[i].key
    ensures Keyless(nodes, nodes[i].key) == Removed(nodes, i)
    decreases i
  {
    if i == 0 {
      KeylessNone(nodes[1..], nodes[0].key);
      assert Removed(nodes, 0) == nodes[1..];
    } else {
      KeylessOne(nodes[1..], i - 1);
      assert Removed(nodes, i) == [nodes[0]] + Removed(nodes[1..], i - 1);
    }
  }

  ghost predicate Trimmed(was: seq<Entry>, nodes: seq<Entry>, max: nat) {
    |nodes| <= |was| && nodes == was[..|nodes|] && (|nodes| >= max || nodes == was)
  }

  lemma TrimStep(was: seq<Entry>, nodes: seq<Entry>, max: nat)
    requires Trimmed(was, nodes, max) && |nodes| > max
    ensures Trimmed(was, Removed(nodes, |nodes| - 1), max)
    ensures forall n | n in Removed(nodes, |nodes| - 1) :: n in was
  {
    assert Removed(nodes, |nodes| - 1) == nodes[..|nodes| - 1] == was[..|nodes| - 1];
  }

  lemma TrimDone(was: seq<Entry>, nodes: seq<Entry>, max: nat)
    requires Trimmed(was, nodes, max) && |nodes| <= max
    ensures nodes == Cut(was, max)
  {
  }

  ghost function Cut(nodes: seq<Entry>, max: nat): seq<Entry> {
    if |nodes| <= max then nodes else nodes[..max]
  }

  lemma PushedDistinct(was: seq<Entry>, e: Entry)
    requires NoRepeats(was) && e !in was
    ensures NoRepeats([e] + was)
  {
    assert ([e] + was)[1..] == was;
  }
}
