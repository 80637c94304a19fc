/**
 List, newest first, one page at a time (internal/store/memory.go).

 `order` is the eviction order, oldest first; `filter` stands for matchFilter. A cursor whose row
 is still stored is found by its id; one whose row is gone falls back to a time read from the id.
 */
module Paging {
  import opened Options
  import opened Flows
  import opened Lists

  type Id = nat

  const DEFAULT_LIST_LIMIT := 50
  const MAX_LIST_LIMIT := 200

  /** The query's cursor as resolveCursorLocked reads it: absent, stored, or gone since `at`. */
  datatype Cursor = Start | Found(id: Id) | Gone(id: Id, at: nat)

  function PageSize(limit: int): (n: nat)
    ensures 1 <= n <= 200 && (1 <= limit <= 200 ==> n == limit)
    ensures (limit <= 0 ==> n == 50) && (limit > 200 ==> n == 200)
  {
    if limit <= 0 then DEFAULT_LIST_LIMIT else if limit > MAX_LIST_LIMIT then MAX_LIST_LIMIT else limit
  }

  predicate NewerThanCursor(f: Flow, id: Id, c: Cursor)
    requires c.Gone?
  {
    EvictTime(f) > c.at || (EvictTime(f) == c.at && id > c.id)
  }

  predicate Selected(byID: map<Id, Flow>, filter: Flow -> bool, id: Id) {
    id in byID && filter(byID[id])
  }

  /** The matching rows of a list, last first. */
  function Newest(order: seq<Id>, byID: map<Id, Flow>, filter: Flow -> bool): seq<Id> {
    if order == [] then []
    else
      var last := order[|order| - 1];
      (if Selected(byID, filter, last) then [last] else []) + Newest(order[..|order| - 1], byID, filter)
  }

  /** Everything from the cursor on has been passed; the cursor's own row, if stored, is not listed again. */
  predicate Passes(byID: map<Id, Flow>, c: Cursor, id: Id) {
    match c
    case Start => true
    case Found(at) => id in byID && id == at
    case Gone(_, _) => id in byID && !NewerThanCursor(byID[id], id, c)
  }

  /** How much of the order a page draws on. */
  function Reach(order: seq<Id>, byID: map<Id, Flow>, c: Cursor): (k: nat)
    ensures k <= |order|
  {
    if order == [] then 0
    else if Passes(byID, c, order[|order| - 1]) then if c.Found? then |order| - 1 else |order|
    else Reach(order[..|order| - 1], byID, c)
  }

  /** Whether a flow is past a moment and an id: it ended, or started if it has not ended, later; or then, under a
      greater id. */
  predicate After(f: Flow, id: Id, at: nat, than: Id) {
    var time := if f.completedAt != 0 then f.completedAt else f.startedAt;
    time > at || (time == at && id > than)
  }

  lemma {:induction false} GoneReach(order: seq<Id>, byID: map<Id, Flow>, c: Cursor)
    requires c.Gone? && forall i | 0 <= i < |order| :: order[i] in byID
    requires forall i, j | 0 <= i < j < |order| ::
      After(byID[order[i]], order[i], c.at, c.id) ==> After(byID[order[j]], order[j], c.at, c.id)
    ensures forall i | 0 <= i < |order| ::
      i < Reach(order, byID, c) <==> !After(byID[order[i]], order[i], c.at, c.id)
    decreases |order|
  {
    if order != [] {
      var k := |order| - 1;
      assert NewerThanCursor(byID[order[k]], order[k], c) <==> After(byID[order[k]], order[k], c.at, c.id);
      if !Passes(byID, c, order[k]) {
        GoneReach(order[..k], byID, c);
      }
    }
  }

  /** Sorted by time and id, no row is past a moment and an id before a row that is not. */
  lemma SortedAfter(order: seq<Id>, byID: map<Id, Flow>, i: nat, j: nat, at: nat, than: Id)
    requires i < j < |order| && order[i] in byID && order[j] in byID
    requires After(byID[order[j]], order[j], EvictTime(byID[order[i]]), order[i])
    ensures After(byID[order[i]], order[i], at, than) ==> After(byID[order[j]], order[j], at, than)
  {
  }

  /** While the order is sorted, a cursor whose row is gone resumes exactly behind the rows past its time and id. */
  lemma GoneCursorResumes(order: seq<Id>, byID: map<Id, Flow>, c: Cursor)
    requires c.Gone? && forall i | 0 <= i < |order| :: order[i] in byID
    requires forall i, j | 0 <= i < j < |order| ::
      After(byID[order[j]], order[j], EvictTime(byID[order[i]]), order[i])
    ensures forall i | 0 <= i < |order| ::
      i < Reach(order, byID, c) <==> !After(byID[order[i]], order[i], c.at, c.id)
  {
    forall i, j | 0 <= i < j < |order|
      ensures After(byID[order[i]], order[i], c.at, c.id) ==> After(byID[order[j]], order[j], c.at, c.id)
    {
      SortedAfter(order, byID, i, j, c.at, c.id);
    }
    GoneReach(order, byID, c);
  }

  /** The page a query is promised: the next rows of the whole listing, and the last of them as
      cursor exactly when more follow. */
  predicate IsPage(all: seq<Id>, n: nat, items: seq<Id>, next: Option<Id>) {
    if |all| <= n then items == all && next == None
    else items == all[..n] && (n > 0 ==> next == Some(all[n - 1]))
  }

  lemma PrefixStep(order: seq<Id>, i: nat, byID: map<Id, Flow>, filter: Flow -> bool, c: Cursor)
    requires i < |order|
    ensures Newest(order[..i + 1], byID, filter)
            == (if Selected(byID, filter, order[i]) then [order[i]] else []) + Newest(order[..i], byID, filter)
    ensures Reach(order[..i + 1], byID, c)
            == if !Passes(byID, c, order[i]) then Reach(order[..i], byID, c) else if c.Found? then i else i + 1
  {
    assert order[..i + 1][i] == order[i] && order[..i + 1][..i] == order[..i];
  }

  /** What a scan that has come down to position i still lists. */
  ghost function Left(order: seq<Id>, i: nat, byID: map<Id, Flow>, filter: Flow -> bool, c: Cursor,
                      passed: bool): seq<Id>
    requires i <= |order|
  {
    Newest(order[..if passed then i else Reach(order[..i], byID, c)], byID, filter)
  }

  /** Whether the scan lists row id, given whether it was past the cursor before. */
  predicate Takes(byID: map<Id, Flow>, filter: Flow -> bool, c: Cursor, id: Id, passed: bool) {
    Selected(byID, filter, id) && (passed || (Passes(byID, c, id) && !c.Found?))
  }

  lemma LeftStep(order: seq<Id>, i: nat, byID: map<Id, Flow>, filter: Flow -> bool, c: Cursor, passed: bool)
    requires i < |order|
    ensures Left(order, i + 1, byID, filter, c, passed)
            == (if Takes(byID, filter, c, order[i], passed) then [order[i]] else [])
               + Left(order, i, byID, filter, c, passed || Passes(byID, c, order[i]))
  {
    PrefixStep(order, i, byID, filter, c);
  }

  lemma LeftNext(all: seq<Id>, items: seq<Id>, order: seq<Id>, i: nat, byID: map<Id, Flow>, filter: Flow -> bool,
                 c: Cursor, passed: bool)
    requires i < |order| && all == items + Left(order, i + 1, byID, filter, c, passed)
    ensures
      var now := passed || Passes(byID, c, order[i]);
      var listed := if Takes(byID, filter, c, order[i], passed) then items + [order[i]] else items;
      all == listed + Left(order, i, byID, filter, c, now)
  {
    LeftStep(order, i, byID, filter, c, passed);
    var rest := Left(order, i, byID, filter, c, passed || Passes(byID, c, order[i]));
    if Takes(byID, filter, c, order[i], passed) {
      assert items + ([order[i]] + rest) == (items + [order[i]]) + rest;
    }
  }

  /** The cursor and filter tests of one row. */
  method Examine(byID: map<Id, Flow>, filter: Flow -> bool, c: Cursor, id: Id, passed: bool)
    returns (now: bool, take: bool)
    requires c == Start ==> passed
    ensures now == (passed || Passes(byID, c, id)) && take == Takes(byID, filter, c, id, passed)
  {
    if id !in byID {
      return passed, false;
    }
    if !passed {
      if c.Found? && id == c.id {
        return true, false;
      }
      if !(c.Gone? && !NewerThanCursor(byID[id], id, c)) {
        return false, false;
      }
    }
    return true, filter(byID[id]);
  }

  /** The scan of List under the lock. */
  method Scan(order: seq<Id>, byID: map<Id, Flow>, filter: Flow -> bool, c: Cursor, limit: int)
    returns (items: seq<Id>, next: Option<Id>)
    ensures IsPage(Newest(order[..Reach(order, byID, c)], byID, filter), PageSize(limit), items, next)
  {
    var n := PageSize(limit);
    var passed := c == Start;
    items, next := [], None;
    var i := |order|;
    ghost var all := Newest(order[..Reach(order, byID, c)], byID, filter);
    assert order[..|order|] == order;
    while i > 0
      invariant 0 <= i <= |order| && |items| <= n && (c == Start ==> passed)
      invariant all == items + Left(order, i, byID, filter, c, passed)
    {
      LeftNext(all, items, order, i - 1, byID, filter, c, passed);
      i := i - 1;
      var take;
      passed, take := Examine(byID, filter, c, order[i], passed);
      if take {
        if |items| == n {
          next := Some(items[n - 1]);
          return;
        }
        items := items + [order[i]];
      }
    }
  }

  // ---------------------------------------------------------------- reading the spill files

  /** Why a snapshot cannot be loaded once the lock is gone: its file vanished, or is unreadable. */
  datatype Fault = Missing | Unreadable

  datatype Listing = Listed(items: seq<Id>, next: Option<Id>) | ListFailed

  predicate Lost(faults: map<Id, Fault>, id: Id) {
    id in faults && faults[id] == Missing
  }

  predicate Broken(faults: map<Id, Fault>, id: Id) {
    id in faults && faults[id] == Unreadable
  }

  /** A page without the rows whose file is gone. */
  function Loadable(page: seq<Id>, faults: map<Id, Fault>): seq<Id> {
    if page == [] then []
    else (if Lost(faults, page[0]) then [] else [page[0]]) + Loadable(page[1..], faults)
  }

  lemma {:induction false} LoadableConcat(a: seq<Id>, b: seq<Id>, faults: map<Id, Fault>)
    ensures Loadable(a + b, faults) == Loadable(a, faults) + Loadable(b, faults)
    decreases |a|
  {
    if a == [] {
      assert a + b == b;
    } else {
      assert (a + b)[1..] == a[1..] + b;
      LoadableConcat(a[1..], b, faults);
    }
  }

  /** Exactly the rows that were not lost, in the order of the page. */
  lemma {:induction false} LoadableExactly(page: seq<Id>, faults: map<Id, Fault>)
    ensures forall id :: id in Loadable(page, faults) <==> id in page && !Lost(faults, id)
    ensures Distinct(page) ==> Distinct(Loadable(page, faults))
    decreases |page|
  {
    if page != [] {
      LoadableExactly(page[1..], faults);
      assert page == [page[0]] + page[1..];
    }
  }

  lemma LoadableUpTo(page: seq<Id>, i: nat, faults: map<Id, Fault>)
    requires i < |page|
    ensures Loadable(page[..i + 1], faults)
            == Loadable(page[..i], faults) + if Lost(faults, page[i]) then [] else [page[i]]
  {
    assert page[..i + 1] == page[..i] + [page[i]];
    LoadableConcat(page[..i], [page[i]], faults);
  }

  /** The loads of List: a vanished file drops its row, an unreadable one fails the call. */
  method LoadPage(page: seq<Id>, next: Option<Id>, faults: map<Id, Fault>) returns (r: Listing)
    ensures r == if exists id | id in page :: Broken(faults, id) then ListFailed
                 else Listed(Loadable(page, faults), next)
  {
    var items := [];
    for i := 0 to |page|
      invariant items == Loadable(page[..i], faults)
      invariant forall j | 0 <= j < i :: !Broken(faults, page[j])
    {
      if page[i] in faults && faults[page[i]] == Unreadable {
        assert page[i] in page && Broken(faults, page[i]);
        return ListFailed;
      }
      LoadableUpTo(page, i, faults);
      if !(page[i] in faults && faults[page[i]] == Missing) {
        items := items + [page[i]];
      }
    }
    assert page[..|page|] == page;
    return Listed(items, next);
  }

  /** List: the page is fixed under the lock, and so is its cursor, whatever its files do afterwards. */
  method List(order: seq<Id>, byID: map<Id, Flow>, filter: Flow -> bool, c: Cursor, limit: int, faults: map<Id, Fault>)
    returns (r: Listing, ghost page: seq<Id>, ghost next: Option<Id>)
    ensures IsPage(Newest(order[..Reach(order, byID, c)], byID, filter), PageSize(limit), page, next)
    ensures r == if exists id | id in page :: Broken(faults, id) then ListFailed
                 else Listed(Loadable(page, faults), next)
  {
    var items, cursor := Scan(order, byID, filter, c, limit);
    r := LoadPage(items, cursor, faults);
    page, next := items, cursor;
  }

  // ---------------------------------------------------------------- following the cursor

  /** The listing holds exactly the matching rows, each once. */
  lemma {:induction false} NewestExactly(order: seq<Id>, byID: map<Id, Flow>, filter: Flow -> bool)
    requires Distinct(order)
    ensures forall id :: id in Newest(order, byID, filter) <==> id in order && Selected(byID, filter, id)
    ensures Distinct(Newest(order, byID, filter))
    decreases |order|
  {
    if order != [] {
      var k := |order| - 1;
      NewestExactly(order[..k], byID, filter);
      assert order == order[..k] + [order[k]] && order[k] !in order[..k];
    }
  }

  /** The row at position j of the listing sits at some position k of the order, and the listing of
      what is older than it is what follows it in the listing. */
  lemma {:induction false} NewestAfter(order: seq<Id>, byID: map<Id, Flow>, filter: Flow -> bool, j: nat)
    returns (k: nat)
    requires j < |Newest(order, byID, filter)|
    ensures k < |order| && order[k] == Newest(order, byID, filter)[j] && order[k] in byID
    ensures Newest(order[..k], byID, filter) == Newest(order, byID, filter)[j + 1..]
    decreases |order|
  {
    var last := |order| - 1;
    if Selected(byID, filter, order[last]) {
      if j == 0 {
        return last;
      }
      k := NewestAfter(order[..last], byID, filter, j - 1);
    } else {
      k := NewestAfter(order[..last], byID, filter, j);
    }
    assert order[..last][..k] == order[..k];
  }

  /** A stored cursor resumes right behind its own row. */
  lemma {:induction false} ReachFound(order: seq<Id>, byID: map<Id, Flow>, k: nat)
    requires Distinct(order) && k < |order| && order[k] in byID
    ensures Reach(order, byID, Found(order[k])) == k
    decreases |order|
  {
    var last := |order| - 1;
    if k < last {
      assert order[..last][k] == order[k] && order[k] != order[last];
      ReachFound(order[..last], byID, k);
    }
  }

  /** One page of the whole listing is followed by the page its cursor names. */
  lemma CursorContinues(order: seq<Id>, byID: map<Id, Flow>, filter: Flow -> bool, reach: nat, n: nat, items: seq<Id>,
                        next: Option<Id>)
    requires Distinct(order) && reach <= |order| && n > 0
    requires IsPage(Newest(order[..reach], byID, filter), n, items, next) && next.Some?
    ensures
      var all := Newest(order[..reach], byID, filter);
      var after := Reach(order, byID, Found(next.value));
      after < reach && all == items + Newest(order[..after], byID, filter)
  {
    var all := Newest(order[..reach], byID, filter);
    var k := NewestAfter(order[..reach], byID, filter, n - 1);
    ReachFound(order, byID, k);
    assert order[..reach][..k] == order[..k];
    assert all == all[..n] + all[n..];
  }

  /** What has been listed so far, and how much of the order is left. */
  ghost predicate Covered(order: seq<Id>, byID: map<Id, Flow>, filter: Flow -> bool, seen: seq<Id>, reach: nat) {
    reach <= |order| && Newest(order, byID, filter) == seen + Newest(order[..reach], byID, filter)
  }

  lemma CoveredStart(order: seq<Id>, byID: map<Id, Flow>, filter: Flow -> bool)
    ensures Reach(order, byID, Start) == |order| && Covered(order, byID, filter, [], |order|)
  {
    assert order[..|order|] == order;
  }

  lemma CoveredStep(order: seq<Id>, byID: map<Id, Flow>, filter: Flow -> bool, seen: seq<Id>, reach: nat,
                    n: nat, page: seq<Id>, next: Option<Id>)
    requires Distinct(order) && n > 0 && Covered(order, byID, filter, seen, reach)
    requires IsPage(Newest(order[..reach], byID, filter), n, page, next)
    ensures next.None? ==> seen + page == Newest(order, byID, filter)
    ensures next.Some? ==>
      var after := Reach(order, byID, Found(next.value));
      after < reach && Covered(order, byID, filter, seen + page, after)
  {
    hide Newest, Reach, Distinct;
    if next.Some? {
      CursorContinues(order, byID, filter, reach, n, page, next);
      var rest := Newest(order[..Reach(order, byID, Found(next.value))], byID, filter);
      assert seen + (page + rest) == (seen + page) + rest;
    }
  }

  /** Following NextCursor from the empty cursor ends, and lists every matching row whose file did not
      vanish exactly once, newest first: a row dropped from a page does not move the cursor. */
  method Enumerate(order: seq<Id>, byID: map<Id, Flow>, filter: Flow -> bool, limit: int, gone: map<Id, Fault>)
    returns (seen: seq<Id>)
    requires Distinct(order) && forall id | id in gone :: gone[id] == Missing
    ensures seen == Loadable(Newest(order, byID, filter), gone)
    ensures Distinct(seen)
    ensures forall id :: id in seen <==> id in order && Selected(byID, filter, id) && !Lost(gone, id)
  {
    seen := Follow(order, byID, filter, limit, gone);
    NewestExactly(order, byID, filter);
    LoadableExactly(Newest(order, byID, filter), gone);
  }

  method Follow(order: seq<Id>, byID: map<Id, Flow>, filter: Flow -> bool, limit: int, gone: map<Id, Fault>)
    returns (seen: seq<Id>)
    requires Distinct(order) && forall id | id in gone :: gone[id] == Missing
    ensures seen == Loadable(Newest(order, byID, filter), gone)
  {
    CoveredStart(order, byID, filter);
    seen := [];
    ghost var paged := [];
    var c := Start;
    while true
      invariant Covered(order, byID, filter, paged, Reach(order, byID, c)) && seen == Loadable(paged, gone)
      decreases Reach(order, byID, c)
    {
      var r, page, next := List(order, byID, filter, c, limit, gone);
      CoveredStep(order, byID, filter, paged, Reach(order, byID, c), PageSize(limit), page, next);
      LoadableConcat(paged, page, gone);
      assert r.Listed?;
      seen := seen + r.items;
      paged := paged + page;
      if r.next.None? {
        return;
      }
      c := Found(r.next.value);
    }
  }
}
