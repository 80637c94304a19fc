/**
 What the idempotency cache of internal/app/idempotency.go promises: a list of recorded
 requests, most recently used first, at most `max` long, one entry per key.
 */
module Recency {
  import opened Options

  type Key = string
  type Revision = string
  type Operation = string

  /** The request as the fingerprint sees it: its reason and operations, and nothing else. The
      digest of the source is taken to be injective. */
  datatype Fingerprint = Fingerprint(reason: string, operations: seq<Operation>)

  datatype Plan = Plan(previous: Revision, candidate: Revision, operations: seq<Operation>)

  datatype Applied = Applied(plan: Plan, generation: nat, revision: Revision)

  datatype Item = Item(key: Key, fp: Fingerprint, plan: Option<Plan>, apply: Option<Applied>)

  predicate DistinctKeys(list: seq<Item>) {
    forall i, j | 0 <= i < j < |list| :: list[i].key != list[j].key
  }

  function Lookup(list: seq<Item>, key: Key): (r: Option<Item>)
    ensures r.Some? ==> r.value in list && r.value.key == key
    ensures r.None? ==> forall x | x in list :: x.key != key
  {
    if list == [] then None
    else if list[0].key == key then Some(list[0])
    else Lookup(list[1..], key)
  }

  function WithoutKey(list: seq<Item>, key: Key): (r: seq<Item>)
    ensures forall x :: x in r <==> x in list && x.key != key
    ensures |r| <= |list|
  {
    if list == [] then []
    else if list[0].key == key then WithoutKey(list[1..], key)
    else [list[0]] + WithoutKey(list[1..], key)
  }

  function Bounded(list: seq<Item>, max: nat): seq<Item> {
    if |list| <= max then list else list[..max]
  }

  /** An entry becomes the most recent one; the oldest falls off. */
  function Put(list: seq<Item>, x: Item, max: nat): seq<Item> {
    Bounded([x] + WithoutKey(list, x.key), max)
  }

  /** The entry of a key if it was recorded for this request. */
  function Hit(list: seq<Item>, key: Key, fp: Fingerprint): Option<Item> {
    var e := Lookup(list, key);
    if e.Some? && e.value.fp == fp then e else None
  }

  predicate KeyReused(list: seq<Item>, key: Key, fp: Fingerprint) {
    var e := Lookup(list, key);
    e.Some? && e.value.fp != fp
  }

  /** A lookup that hits makes its entry the most recent one. */
  function Touched(list: seq<Item>, key: Key, fp: Fingerprint): seq<Item> {
    var e := Hit(list, key, fp);
    if key == "" || e.None? then list else [e.value] + WithoutKey(list, key)
  }

  function StoredPlan(list: seq<Item>, key: Key, fp: Fingerprint, p: Plan, max: nat): seq<Item> {
    var e := Hit(list, key, fp);
    if key == "" then list
    else Put(list, if e.Some? then e.value.(plan := Some(p)) else Item(key, fp, Some(p), None), max)
  }

  function StoredApply(list: seq<Item>, key: Key, fp: Fingerprint, r: Applied, max: nat): seq<Item> {
    var e := Hit(list, key, fp);
    if key == "" then list
    else Put(list, if e.Some? then e.value.(apply := Some(r)) else Item(key, fp, None, Some(r)), max)
  }

  function Evicted(list: seq<Item>, key: Key): seq<Item> {
    if key == "" then list else WithoutKey(list, key)
  }

  /** The invariant of every list reached by these operations. */
  predicate Ok(list: seq<Item>, max: nat) {
    DistinctKeys(list) && |list| <= max && forall x | x in list :: x.key != ""
  }

  // ---------------------------------------------------------------- laws

  lemma {:induction false} WithoutDistinct(list: seq<Item>, key: Key)
    requires DistinctKeys(list)
    ensures DistinctKeys(WithoutKey(list, key))
    decreases |list|
  {
    if list != [] {
      WithoutDistinct(list[1..], key);
      assert forall x | x in list[1..] :: x.key != list[0].key;
    }
  }

  /** Under distinct keys one entry leaves, and the rest keeps its order. */
  lemma {:induction false} WithoutAt(list: seq<Item>, i: nat)
    requires DistinctKeys(list) && i < |list|
    ensures WithoutKey(list, list[i].key) == list[..i] + list[i + 1..]
    decreases i
  {
    if i == 0 {
      WithoutMissing(list[1..], list[0].key);
    } else {
      WithoutAt(list[1..], i - 1);
      hide DistinctKeys;
      CutBehindFirst(list, i);
    }
  }

  lemma CutBehindFirst(list: seq<Item>, i: nat)
    requires 0 < i < |list|
    ensures list[1..][i - 1] == list[i]
    ensures list[..i] + list[i + 1..] == [list[0]] + (list[1..][..i - 1] + list[1..][i..])
  {
  }

  lemma {:induction false} WithoutMissing(list: seq<Item>, key: Key)
    requires forall x | x in list :: x.key != key
    ensures WithoutKey(list, key) == list
    decreases |list|
  {
    if list != [] {
      assert list == [list[0]] + list[1..];
      WithoutMissing(list[1..], key);
    }
  }

  lemma {:induction false} LookupAt(list: seq<Item>, i: nat)
    requires DistinctKeys(list) && i < |list|
    ensures Lookup(list, list[i].key) == Some(list[i])
    decreases i
  {
    if i > 0 {
      LookupAt(list[1..], i - 1);
    }
  }

  /** A lookup that hits moves its entry to the front and keeps the order of the rest; any other changes nothing. */
  lemma TouchedMovesFront(list: seq<Item>, key: Key, fp: Fingerprint)
    requires DistinctKeys(list)
    ensures forall i | 0 <= i < |list| && list[i].key == key && list[i].fp == fp && key != "" ::
      Touched(list, key, fp) == [list[i]] + list[..i] + list[i + 1..]
    ensures key == "" || (forall x | x in list :: x.key != key || x.fp != fp) ==> Touched(list, key, fp) == list
  {
    hide Touched, DistinctKeys;
    forall i | 0 <= i < |list| && list[i].key == key && list[i].fp == fp && key != ""
      ensures Touched(list, key, fp) == [list[i]] + list[..i] + list[i + 1..]
    {
      TouchedAt(list, i);
    }
    TouchedMissing(list, key, fp);
  }

  lemma TouchedAt(list: seq<Item>, i: nat)
    requires DistinctKeys(list) && i < |list| && list[i].key != ""
    ensures Touched(list, list[i].key, list[i].fp) == [list[i]] + list[..i] + list[i + 1..]
  {
    LookupAt(list, i);
    WithoutAt(list, i);
    hide Lookup, WithoutKey, DistinctKeys;
    assert [list[i]] + (list[..i] + list[i + 1..]) == [list[i]] + list[..i] + list[i + 1..];
  }

  lemma TouchedMissing(list: seq<Item>, key: Key, fp: Fingerprint)
    ensures key == "" || (forall x | x in list :: x.key != key || x.fp != fp) ==> Touched(list, key, fp) == list
  {
    hide Lookup, WithoutKey;
  }

  lemma PutOk(list: seq<Item>, x: Item, max: nat)
    requires Ok(list, max) && x.key != "" && max > 0
    ensures Ok(Put(list, x, max), max)
    ensures Put(list, x, max)[0] == x
    ensures forall y | y in Put(list, x, max) :: y == x || (y in list && y.key != x.key)
  {
    WithoutDistinct(list, x.key);
  }

  /** Nothing falls off while there is room, or when the key is already present. */
  lemma PutKeeps(list: seq<Item>, x: Item, max: nat)
    requires Ok(list, max) && max > 0 && (|list| < max || Lookup(list, x.key).Some?)
    ensures Put(list, x, max) == [x] + WithoutKey(list, x.key)
  {
    var e := Lookup(list, x.key);
    if e.Some? {
      var i :| 0 <= i < |list| && list[i] == e.value;
      WithoutAt(list, i);
    }
  }

  /** A list never loses more than its last entry, and that only to a new key on a full list. */
  lemma PutEvictsOldest(list: seq<Item>, x: Item, max: nat)
    requires Ok(list, max) && max > 0 && |list| == max && Lookup(list, x.key).None?
    ensures Put(list, x, max) == [x] + list[..max - 1]
  {
    WithoutMissing(list, x.key);
  }

  lemma StoredPlanCases(list: seq<Item>, key: Key, fp: Fingerprint, p: Plan, max: nat)
    requires Ok(list, max) && max > 0 && key != ""
    ensures Hit(list, key, fp).None? ==>
      StoredPlan(list, key, fp, p, max) == Put(list, Item(key, fp, Some(p), None), max)
    ensures Hit(list, key, fp).Some? ==>
      StoredPlan(list, key, fp, p, max)
        == [Item(key, fp, Some(p), Hit(list, key, fp).value.apply)] + WithoutKey(list, key)
  {
    var e := Hit(list, key, fp);
    if e.Some? {
      PutKeeps(list, e.value.(plan := Some(p)), max);
    }
  }

  lemma StoredApplyCases(list: seq<Item>, key: Key, fp: Fingerprint, r: Applied, max: nat)
    requires Ok(list, max) && max > 0 && key != ""
    ensures Hit(list, key, fp).None? ==>
      StoredApply(list, key, fp, r, max) == Put(list, Item(key, fp, None, Some(r)), max)
    ensures Hit(list, key, fp).Some? ==>
      StoredApply(list, key, fp, r, max)
        == [Item(key, fp, Hit(list, key, fp).value.plan, Some(r))] + WithoutKey(list, key)
  {
    var e := Hit(list, key, fp);
    if e.Some? {
      PutKeeps(list, e.value.(apply := Some(r)), max);
    }
  }
}
