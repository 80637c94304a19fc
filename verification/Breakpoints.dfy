/**
 The waiter protocol of internal/store/breakpoint.go: who is told what when a pause ends.

 One step is one critical section of the store's mutex, or one receive from a waiter's
 channel; runs are any interleaving of them. A row carries the number of its current pause,
 and `outcome` records how each pause ended: both are history that no step's decision reads.
 A channel of capacity one is an optional value, and a send that finds it full is dropped,
 which `dropped` records.
 */
module Breakpoints {
  import opened Lists

  type Id = nat
  type Waiter = nat

  /** What WaitPaused reports: the resume patch, or the error that ended the pause. */
  datatype Result = Resumed(patch: int) | Dropped | TimedOut | NotFound | StaleEpoch

  /** What one WaitPaused call returned: a result of the store, ErrBreakpointInactive, or its own
      context's error. */
  datatype Return = Got(result: Result) | Inactive | ContextErr

  datatype Row = Row(paused: bool, done: bool, result: Result, pause: nat)

  /** The n-th pause of a row. */
  datatype Pause = Pause(id: Id, n: nat)

  datatype Rows = Rows(at: map<Id, Row>, used: set<Id>, outcome: map<Pause, Result>)

  datatype Waiters = Waiters(
    lists: map<Id, seq<Waiter>>,
    mail: map<Waiter, Result>,
    ticket: map<Waiter, Pause>,
    returned: map<Waiter, Return>,
    dropped: bool)

  datatype Desk = Desk(rows: Rows, waiters: Waiters)

  datatype Event =
    | Insert(id: Id, paused: bool)
    | PauseRow(id: Id)
    | EndPause(id: Id, result: Result)
    | Remove(id: Id)
    | Wipe
    | Register(w: Waiter, id: Id)
    | Receive(w: Waiter)
    | Cancel(w: Waiter)

  // ---------------------------------------------------------------- channels

  function Members(list: seq<Waiter>): set<Waiter> {
    set w | w in list
  }

  /** A non-blocking send to each waiter of a list: a full channel keeps what it holds. */
  function Sent(mail: map<Waiter, Result>, to: set<Waiter>, r: Result): map<Waiter, Result> {
    map w | w in mail.Keys + to :: if w in mail then mail[w] else r
  }

  /** Some send to this list takes its default case. */
  predicate Clashes(mail: map<Waiter, Result>, list: seq<Waiter>) {
    !Distinct(list) || exists w | w in list :: w in mail
  }

  lemma SentOne(mail: map<Waiter, Result>, before: seq<Waiter>, w: Waiter, r: Result)
    ensures
      Sent(mail, Members(before + [w]), r)
      == if w in Sent(mail, Members(before), r) then Sent(mail, Members(before), r)
         else Sent(mail, Members(before), r)[w := r]
  {
    assert Members(before + [w]) == Members(before) + {w};
  }

  lemma ClashesOne(mail: map<Waiter, Result>, before: seq<Waiter>, w: Waiter, r: Result)
    ensures Clashes(mail, before + [w]) <==> Clashes(mail, before) || w in Sent(mail, Members(before), r)
  {
    var list := before + [w];
    if w in before {
      var i :| 0 <= i < |before| && before[i] == w;
      assert list[i] == list[|before|];
    } else if Distinct(before) {
      assert Distinct(list);
    } else {
      var i, j :| 0 <= i < j < |before| && before[i] == before[j];
      assert list[i] == list[j];
    }
  }

  /** The send loop of finishPausedLocked. `clashed` says whether some send was dropped. */
  method Deliver(list: seq<Waiter>, mail: map<Waiter, Result>, r: Result)
    returns (sent: map<Waiter, Result>, clashed: bool)
    ensures sent == Sent(mail, Members(list), r) && (clashed <==> Clashes(mail, list))
  {
    sent, clashed := mail, false;
    assert mail == Sent(mail, Members([]), r);
    for i := 0 to |list|
      invariant sent == Sent(mail, Members(list[..i]), r) && (clashed <==> Clashes(mail, list[..i]))
    {
      assert list[..i + 1] == list[..i] + [list[i]];
      SentOne(mail, list[..i], list[i], r);
      ClashesOne(mail, list[..i], list[i], r);
      if list[i] in sent {
        clashed := true;
      } else {
        sent := sent[list[i] := r];
      }
    }
    assert list[..|list|] == list;
  }

  /** The scan of removeWaiterLocked. */
  method RemoveWaiter(list: seq<Waiter>, w: Waiter) returns (r: seq<Waiter>)
    ensures r == Without(list, w)
  {
    for i := 0 to |list|
      invariant w !in list[..i]
    {
      if list[i] == w {
        WithoutAt(list, i, w);
        return list[..i] + list[i + 1..];
      }
      assert list[..i + 1] == list[..i] + [list[i]];
    }
    assert list[..|list|] == list;
    WithoutMissing(list, w);
    return list;
  }

  // ---------------------------------------------------------------- steps

  function Waiting(lists: map<Id, seq<Waiter>>): set<Waiter> {
    set id, w | id in lists && w in lists[id] :: w
  }

  /** finishPausedLocked, for one row's list. */
  function Finished(p: Waiters, id: Id, r: Result): Waiters {
    if id !in p.lists then p
    else
      p.(lists := p.lists - {id},
         mail := Sent(p.mail, Members(p.lists[id]), r),
         dropped := p.dropped || Clashes(p.mail, p.lists[id]))
  }

  lemma WaitingSplit(lists: map<Id, seq<Waiter>>, todo: set<Id>, id: Id, mail: map<Waiter, Result>, r: Result)
    requires todo <= lists.Keys && id in todo
    ensures
      var done := Waiting(lists - todo);
      Sent(Sent(mail, done, r), Members(lists[id]), r) == Sent(mail, Waiting(lists - (todo - {id})), r)
  {
    var next := lists - (todo - {id});
    assert id in next && next[id] == lists[id];
    assert Waiting(next) == Waiting(lists - todo) + Members(lists[id]) by {
      forall w | w in Waiting(next) ensures w in Waiting(lists - todo) + Members(lists[id]) {
        var x :| x in next && w in next[x];
        assert w in lists[x] && (x == id || (x in lists - todo && w in (lists - todo)[x]));
      }
      forall w | w in Waiting(lists - todo) ensures w in Waiting(next) {
        var x :| x in lists - todo && w in (lists - todo)[x];
        assert x in next && w in next[x];
      }
    }
  }

  /** Some send of a pass over every list takes its default case. */
  ghost predicate AnyClash(lists: map<Id, seq<Waiter>>, mail: map<Waiter, Result>) {
    || (exists id | id in lists :: Clashes(mail, lists[id]))
    || (exists id, other, w | id in lists && other in lists && id != other :: w in lists[id] && w in lists[other])
  }

  /** A list clashes with what earlier lists were sent, or with a channel that was full before. */
  lemma ClashesAfter(lists: map<Id, seq<Waiter>>, mail: map<Waiter, Result>, list: seq<Waiter>, r: Result)
    ensures Clashes(Sent(mail, Waiting(lists), r), list)
            <==> Clashes(mail, list) || exists x, w | x in lists :: w in lists[x] && w in list
  {
    var sent := Sent(mail, Waiting(lists), r);
    if Distinct(list) {
      if w :| w in list && w in sent {
        if w !in mail {
          assert w in Waiting(lists);
        }
      }
      if x, w :| x in lists && w in lists[x] && w in list {
        assert w in Waiting(lists) && w in sent;
      }
      if w :| w in list && w in mail {
        assert w in sent;
      }
    }
  }

  lemma ClashSplit(lists: map<Id, seq<Waiter>>, todo: set<Id>, id: Id, mail: map<Waiter, Result>, r: Result)
    requires todo <= lists.Keys && id in todo
    ensures
      var done := lists - todo;
      AnyClash(lists - (todo - {id}), mail)
      <==> AnyClash(done, mail) || Clashes(Sent(mail, Waiting(done), r), lists[id])
  {
    var done, next := lists - todo, lists - (todo - {id});
    ClashesAfter(done, mail, lists[id], r);
    assert next == done[id := lists[id]];
    ClashAdded(done, id, lists[id], mail);
  }

  lemma ClashAdded(done: map<Id, seq<Waiter>>, id: Id, list: seq<Waiter>, mail: map<Waiter, Result>)
    requires id !in done
    ensures AnyClash(done[id := list], mail)
            <==> AnyClash(done, mail) || Clashes(mail, list) || exists x, w | x in done :: w in done[x] && w in list
  {
    var next := done[id := list];
    hide Clashes;
    if x :| x in next && Clashes(mail, next[x]) {
      assert x == id || (x in done && Clashes(mail, done[x]));
    }
    if x :| x in done && Clashes(mail, done[x]) {
      assert x in next && Clashes(mail, next[x]);
    }
    assert id in next && next[id] == list;
    if x, y, w :| x in next && y in next && x != y && w in next[x] && w in next[y] {
      if x == id {
        assert w in done[y] && w in list;
      } else if y == id {
        assert w in done[x] && w in list;
      } else {
        assert w in done[x] && w in done[y];
      }
    }
    if x, y, w :| x in done && y in done && x != y && w in done[x] && w in done[y] {
      assert w in next[x] && w in next[y];
    }
    if x, w :| x in done && w in done[x] && w in list {
      assert w in next[x] && w in next[id] && x != id;
    }
  }

  lemma NothingSent(none: map<Id, seq<Waiter>>, mail: map<Waiter, Result>, r: Result)
    requires none.Keys == {}
    ensures Sent(mail, Waiting(none), r) == mail && !AnyClash(none, mail)
  {
    assert none == map[] && Waiting(none) == {};
  }

  /** The loop of failPausedLocked over every list, in whatever order the map yields them. `clashed` says
      whether some send was dropped. */
  method FailPaused(lists: map<Id, seq<Waiter>>, mail: map<Waiter, Result>, r: Result)
    returns (sent: map<Waiter, Result>, clashed: bool)
    ensures sent == Sent(mail, Waiting(lists), r) && (clashed <==> AnyClash(lists, mail))
  {
    hide *;
    sent, clashed := mail, false;
    var todo := lists.Keys;
    NothingSent(lists - todo, mail, r);
    while todo != {}
      invariant todo <= lists.Keys && sent == Sent(mail, Waiting(lists - todo), r)
      invariant clashed <==> AnyClash(lists - todo, mail)
      decreases |todo|
    {
      var id :| id in todo;
      WaitingSplit(lists, todo, id, mail, r);
      ClashSplit(lists, todo, id, mail, r);
      var full;
      sent, full := Deliver(lists[id], sent, r);
      clashed := clashed || full;
      todo := todo - {id};
    }
    assert lists - todo == lists;
  }

  /** failPausedLocked, for every list. */
  ghost function Failed(p: Waiters, r: Result): Waiters {
    p.(lists := map[], mail := Sent(p.mail, Waiting(p.lists), r), dropped := p.dropped || AnyClash(p.lists, p.mail))
  }

  function Ended(rows: Rows, id: Id, r: Result): map<Pause, Result>
    requires id in rows.at
  {
    if rows.at[id].paused then rows.outcome[Pause(id, rows.at[id].pause) := r] else rows.outcome
  }

  function AllEnded(rows: Rows, r: Result): map<Pause, Result> {
    var now := set id | id in rows.at && rows.at[id].paused :: Pause(id, rows.at[id].pause);
    map p | p in rows.outcome.Keys + now :: if p in now then r else rows.outcome[p]
  }

  /** removeWaiterLocked: an emptied list leaves the table. */
  function LeftList(lists: map<Id, seq<Waiter>>, id: Id, w: Waiter): map<Id, seq<Waiter>> {
    var rest := if id in lists then Without(lists[id], w) else [];
    if rest == [] then lists - {id} else lists[id := rest]
  }

  /** What WaitPaused returns without waiting. */
  function Immediate(rows: Rows, id: Id): Return
    requires id in rows.at && rows.at[id].paused ==> rows.at[id].done
  {
    if id !in rows.at then Got(NotFound)
    else if rows.at[id].done then Got(rows.at[id].result)
    else Inactive
  }

  /** What WaitPaused returns when its context fires first. */
  function CancelReturn(d: Desk, w: Waiter): Return
    requires w in d.waiters.ticket
  {
    var id := d.waiters.ticket[w].id;
    if id in d.rows.at && d.rows.at[id].done then Got(d.rows.at[id].result)
    else if w in d.waiters.mail then Got(d.waiters.mail[w])
    else ContextErr
  }

  /** The steps. A disabled step, or one the store refuses, changes nothing. Ids and waiters are
      fresh when they are introduced. */
  ghost function Step(d: Desk, e: Event): Desk {
    var rows, p := d.rows, d.waiters;
    match e
    case Insert(id, paused) =>
      if id in rows.used then d
      else d.(rows := rows.(at := rows.at[id := Row(paused, false, NotFound, if paused then 1 else 0)],
                            used := rows.used + {id}))
    case PauseRow(id) =>
      if id !in rows.at || rows.at[id].paused then d
      else d.(rows := rows.(at := rows.at[id := Row(true, false, NotFound, rows.at[id].pause + 1)]))
    case EndPause(id, r) =>
      if id !in rows.at || !rows.at[id].paused then d
      else Desk(rows.(at := rows.at[id := Row(false, true, r, rows.at[id].pause)], outcome := Ended(rows, id, r)),
                Finished(p, id, r))
    case Remove(id) =>
      if id !in rows.at then d
      else Desk(rows.(at := rows.at - {id}, outcome := Ended(rows, id, NotFound)), Finished(p, id, NotFound))
    case Wipe =>
      Desk(rows.(at := map[], outcome := AllEnded(rows, StaleEpoch)), Failed(p, StaleEpoch))
    case Register(w, id) =>
      if w in p.ticket || w in p.returned then d
      else if id !in rows.at || rows.at[id].done || !rows.at[id].paused then
        d.(waiters := p.(returned := p.returned[w := Immediate(rows, id)]))
      else
        var list := if id in p.lists then p.lists[id] else [];
        d.(waiters := p.(lists := p.lists[id := list + [w]], ticket := p.ticket[w := Pause(id, rows.at[id].pause)]))
    case Receive(w) =>
      if w !in p.ticket || w in p.returned || w !in p.mail then d
      else d.(waiters := p.(returned := p.returned[w := Got(p.mail[w])]))
    case Cancel(w) =>
      if w !in p.ticket || w in p.returned then d
      else
        d.(waiters := p.(lists := LeftList(p.lists, p.ticket[w].id, w),
                         returned := p.returned[w := CancelReturn(d, w)]))
  }

  ghost function Run(d: Desk, events: seq<Event>): Desk
    decreases |events|
  {
    if events == [] then d else Step(Run(d, events[..|events| - 1]), events[|events| - 1])
  }

  ghost predicate Empty(d: Desk) {
    && d.rows.at == map[] && d.rows.used == {} && d.rows.outcome == map[]
    && d.waiters.lists == map[] && d.waiters.mail == map[] && d.waiters.ticket == map[]
    && d.waiters.returned == map[] && !d.waiters.dropped
  }

  // ---------------------------------------------------------------- what every step keeps

  ghost predicate RowOk(rows: Rows, id: Id, row: Row) {
    var now := Pause(id, row.pause);
    && id in rows.used
    && (row.paused ==> !row.done) && (row.done <==> now in rows.outcome)
    && (row.done ==> rows.outcome[now] == row.result)
    && (forall p | p in rows.outcome && p.id == id :: p.n <= row.pause)
  }

  ghost predicate RowsOk(rows: Rows) {
    && (forall id | id in rows.at :: RowOk(rows, id, rows.at[id]))
    && (forall p | p in rows.outcome :: p.id in rows.used)
  }

  /** A list holds the waiters of its row's current, unresolved pause: none told, none returned. */
  ghost predicate ListOk(rows: Rows, p: Waiters, id: Id, list: seq<Waiter>) {
    && list != [] && Distinct(list)
    && id in rows.at && rows.at[id].paused
    && (forall w | w in list :: w in p.ticket && p.ticket[w] == Pause(id, rows.at[id].pause))
    && (forall w | w in list :: w !in p.mail && w !in p.returned)
  }

  ghost predicate ListsOk(rows: Rows, p: Waiters) {
    forall id | id in p.lists :: ListOk(rows, p, id, p.lists[id])
  }

  ghost predicate Listed(p: Waiters, w: Waiter) {
    w in p.ticket && p.ticket[w].id in p.lists && w in p.lists[p.ticket[w].id]
  }

  /** The result is how this pause or a later pause of the same row ended. */
  ghost predicate Heard(rows: Rows, own: Pause, r: Result) {
    exists p :: p in rows.outcome && p.id == own.id && own.n <= p.n && rows.outcome[p] == r
  }

  /** A registered waiter is listed, or was told how its own pause ended, or gave up before that. */
  ghost predicate WaiterOk(rows: Rows, p: Waiters, w: Waiter)
    requires w in p.ticket
  {
    && p.ticket[w].id in rows.used
    && (w in p.mail ==> p.ticket[w] in rows.outcome && p.mail[w] == rows.outcome[p.ticket[w]])
    && (w in p.mail || w in p.returned || Listed(p, w))
    && (p.ticket[w].id in rows.at ==> p.ticket[w].n <= rows.at[p.ticket[w].id].pause)
  }

  ghost predicate WaitersOk(rows: Rows, p: Waiters) {
    && (forall w | w in p.ticket :: WaiterOk(rows, p, w))
    && (forall w | w in p.mail :: w in p.ticket)
    && !p.dropped
  }

  ghost predicate ReturnsOk(rows: Rows, ticket: map<Waiter, Pause>, returned: map<Waiter, Return>) {
    forall w | w in ticket && w in returned && returned[w].Got? :: Heard(rows, ticket[w], returned[w].result)
  }

  ghost predicate Inv(d: Desk) {
    && RowsOk(d.rows) && ListsOk(d.rows, d.waiters) && WaitersOk(d.rows, d.waiters)
    && ReturnsOk(d.rows, d.waiters.ticket, d.waiters.returned)
  }

  lemma EmptyInv(d: Desk)
    requires Empty(d)
    ensures Inv(d)
  {
  }

  // rows

  lemma PutRowOk(rows: Rows, id: Id, row: Row)
    requires RowsOk(rows) && (id in rows.at || id !in rows.used)
    requires !row.done && (id in rows.at ==> row.pause > rows.at[id].pause)
    ensures RowsOk(rows.(at := rows.at[id := row], used := rows.used + {id}))
  {
    var next := rows.(at := rows.at[id := row], used := rows.used + {id});
    forall x | x in next.at ensures RowOk(next, x, next.at[x]) {
      if x != id {
        assert RowOk(rows, x, rows.at[x]);
      } else if id in rows.at {
        assert RowOk(rows, id, rows.at[id]);
      }
    }
  }

  lemma EndRowOk(rows: Rows, id: Id, r: Result)
    requires RowsOk(rows) && id in rows.at
    ensures rows.at[id].paused ==>
      RowsOk(rows.(at := rows.at[id := Row(false, true, r, rows.at[id].pause)], outcome := Ended(rows, id, r)))
    ensures RowsOk(rows.(at := rows.at - {id}, outcome := Ended(rows, id, r)))
  {
    var row := rows.at[id];
    assert RowOk(rows, id, row);
    var outcome := Ended(rows, id, r);
    forall x | x in rows.at && x != id ensures RowOk(rows.(outcome := outcome), x, rows.at[x]) {
      assert RowOk(rows, x, rows.at[x]);
    }
    if row.paused {
      var next := rows.(at := rows.at[id := Row(false, true, r, row.pause)], outcome := outcome);
      assert RowOk(next, id, next.at[id]);
      forall x | x in next.at ensures RowOk(next, x, next.at[x]) {
        assert x != id ==> RowOk(rows.(outcome := outcome), x, rows.at[x]);
      }
    }
    var gone := rows.(at := rows.at - {id}, outcome := outcome);
    forall x | x in gone.at ensures RowOk(gone, x, gone.at[x]) {
      assert RowOk(rows.(outcome := outcome), x, rows.at[x]);
    }
  }

  lemma WipeRowsOk(rows: Rows, r: Result)
    requires RowsOk(rows)
    ensures RowsOk(rows.(at := map[], outcome := AllEnded(rows, r)))
  {
    forall p | p in AllEnded(rows, r) ensures p.id in rows.used {
      if p !in rows.outcome {
        assert p.id in rows.at && RowOk(rows, p.id, rows.at[p.id]);
      }
    }
  }

  /** Outcomes are only ever added. */
  ghost predicate Grows(a: Rows, b: Rows) {
    && (forall p | p in a.outcome :: p in b.outcome && b.outcome[p] == a.outcome[p])
    && a.used <= b.used
  }

  ghost predicate SameElsewhere(a: map<Id, Row>, b: map<Id, Row>, id: Id) {
    forall x | x != id :: (x in a <==> x in b) && (x in a ==> b[x] == a[x])
  }

  lemma HeardGrows(a: Rows, b: Rows, own: Pause, r: Result)
    requires Grows(a, b) && Heard(a, own, r)
    ensures Heard(b, own, r)
  {
    var p :| p in a.outcome && p.id == own.id && own.n <= p.n && a.outcome[p] == r;
    assert p in b.outcome && b.outcome[p] == r;
  }

  lemma ReturnsGrow(a: Rows, b: Rows, ticket: map<Waiter, Pause>, returned: map<Waiter, Return>)
    requires Grows(a, b) && ReturnsOk(a, ticket, returned)
    ensures ReturnsOk(b, ticket, returned)
  {
    forall w | w in ticket && w in returned && returned[w].Got? ensures Heard(b, ticket[w], returned[w].result) {
      HeardGrows(a, b, ticket[w], returned[w].result);
    }
  }

  /** Rows change, waiters do not: a new row, or a new pause of a row. */
  lemma RowStepOk(rows: Rows, next: Rows, p: Waiters, id: Id)
    requires RowsOk(rows) && ListsOk(rows, p) && WaitersOk(rows, p) && id !in p.lists
    requires Grows(rows, next) && next.outcome == rows.outcome
    requires SameElsewhere(rows.at, next.at, id) && id in next.at
    requires if id in rows.at then next.at[id].pause >= rows.at[id].pause else id !in rows.used
    ensures ListsOk(next, p) && WaitersOk(next, p)
  {
    forall x | x in p.lists ensures ListOk(next, p, x, p.lists[x]) {
      assert ListOk(rows, p, x, p.lists[x]);
    }
    forall w | w in p.ticket ensures WaiterOk(next, p, w) {
      assert WaiterOk(rows, p, w);
    }
  }

  /** A pause of row id ends with result r, and the row is rewritten or gone. */
  lemma EndStepOk(rows: Rows, next: Rows, p: Waiters, id: Id, r: Result)
    requires RowsOk(rows) && ListsOk(rows, p) && WaitersOk(rows, p) && id in rows.at
    requires Grows(rows, next) && next.outcome == Ended(rows, id, r)
    requires SameElsewhere(rows.at, next.at, id)
    requires id in next.at ==> next.at[id].pause == rows.at[id].pause
    ensures ListsOk(next, Finished(p, id, r)) && WaitersOk(next, Finished(p, id, r))
  {
    var q := Finished(p, id, r);
    forall x | x in q.lists ensures ListOk(next, q, x, q.lists[x]) {
      EndKeepsList(rows, next, p, id, r, x);
    }
    assert id in p.lists ==> ListOk(rows, p, id, p.lists[id]);
    forall w | w in q.ticket ensures WaiterOk(next, q, w) {
      EndKeepsWaiter(rows, next, p, id, r, w);
    }
  }

  lemma EndKeepsList(rows: Rows, next: Rows, p: Waiters, id: Id, r: Result, x: Id)
    requires ListsOk(rows, p) && SameElsewhere(rows.at, next.at, id) && x in Finished(p, id, r).lists
    ensures ListOk(next, Finished(p, id, r), x, p.lists[x])
  {
    assert x != id && ListOk(rows, p, x, p.lists[x]);
    if id in p.lists {
      assert ListOk(rows, p, id, p.lists[id]);
      assert forall w | w in p.lists[x] :: p.ticket[w].id == x;
    }
  }

  lemma EndKeepsWaiter(rows: Rows, next: Rows, p: Waiters, id: Id, r: Result, w: Waiter)
    requires ListsOk(rows, p) && w in p.ticket && WaiterOk(rows, p, w)
    requires SameElsewhere(rows.at, next.at, id)
      && (id in next.at ==> id in rows.at && next.at[id].pause == rows.at[id].pause)
    requires Grows(rows, next) && id in rows.at && next.outcome == Ended(rows, id, r)
    ensures WaiterOk(next, Finished(p, id, r), w)
  {
    if id in p.lists {
      assert ListOk(rows, p, id, p.lists[id]);
    }
  }

  lemma AllEndedAt(rows: Rows, r: Result, id: Id)
    requires id in rows.at && rows.at[id].paused
    ensures Pause(id, rows.at[id].pause) in AllEnded(rows, r)
    ensures AllEnded(rows, r)[Pause(id, rows.at[id].pause)] == r
  {
  }

  lemma AllEndedKeeps(rows: Rows, r: Result, p: Pause)
    requires RowsOk(rows) && p in rows.outcome
    ensures p in AllEnded(rows, r) && AllEnded(rows, r)[p] == rows.outcome[p]
  {
    assert p.id in rows.at ==> RowOk(rows, p.id, rows.at[p.id]);
  }

  lemma WaitingIn(p: Waiters, w: Waiter)
    requires w in Waiting(p.lists)
    ensures exists id :: id in p.lists && w in p.lists[id]
  {
  }

  /** Nobody is waited for twice, and nobody who waits has mail: no send is ever dropped. */
  lemma NoClash(rows: Rows, p: Waiters)
    requires ListsOk(rows, p)
    ensures !AnyClash(p.lists, p.mail)
    ensures forall id | id in p.lists :: !Clashes(p.mail, p.lists[id])
  {
    forall id | id in p.lists ensures !Clashes(p.mail, p.lists[id]) {
      assert ListOk(rows, p, id, p.lists[id]);
    }
    forall id, other, w | id in p.lists && other in p.lists && id != other && w in p.lists[id]
      ensures w !in p.lists[other]
    {
      assert ListOk(rows, p, id, p.lists[id]) && ListOk(rows, p, other, p.lists[other]);
    }
  }

  lemma WipeKeepsWaiter(rows: Rows, p: Waiters, r: Result, w: Waiter)
    requires RowsOk(rows) && ListsOk(rows, p) && w in p.ticket && WaiterOk(rows, p, w)
    ensures WaiterOk(rows.(at := map[], outcome := AllEnded(rows, r)), Failed(p, r), w)
  {
    assert Listed(p, w) ==> w in Waiting(p.lists);
    if w in p.mail {
      AllEndedKeeps(rows, r, p.ticket[w]);
    } else if w in Waiting(p.lists) {
      WaitingIn(p, w);
      var id :| id in p.lists && w in p.lists[id];
      assert ListOk(rows, p, id, p.lists[id]);
      AllEndedAt(rows, r, id);
    }
  }

  lemma WipeWaitersOk(rows: Rows, p: Waiters, r: Result)
    requires RowsOk(rows) && ListsOk(rows, p) && WaitersOk(rows, p)
    ensures WaitersOk(rows.(at := map[], outcome := AllEnded(rows, r)), Failed(p, r))
  {
    var q := Failed(p, r);
    NoClash(rows, p);
    forall w | w in q.ticket ensures WaiterOk(rows.(at := map[], outcome := AllEnded(rows, r)), q, w) {
      WipeKeepsWaiter(rows, p, r, w);
    }
    forall w | w in q.mail ensures w in q.ticket {
      if w !in p.mail {
        WaitingIn(p, w);
        var id :| id in p.lists && w in p.lists[id];
        assert ListOk(rows, p, id, p.lists[id]);
      }
    }
  }

  // waiters

  function Registered(rows: Rows, p: Waiters, w: Waiter, id: Id): Waiters
    requires id in rows.at
  {
    var list := if id in p.lists then p.lists[id] else [];
    p.(lists := p.lists[id := list + [w]], ticket := p.ticket[w := Pause(id, rows.at[id].pause)])
  }

  lemma RegisterLists(rows: Rows, p: Waiters, w: Waiter, id: Id)
    requires ListsOk(rows, p) && (forall v | v in p.mail :: v in p.ticket)
    requires w !in p.ticket && w !in p.returned && id in rows.at && rows.at[id].paused
    ensures ListsOk(rows, Registered(rows, p, w, id))
  {
    var q := Registered(rows, p, w, id);
    assert id in p.lists ==> ListOk(rows, p, id, p.lists[id]);
    forall x | x in q.lists ensures ListOk(rows, q, x, q.lists[x]) {
      if x != id {
        assert ListOk(rows, p, x, p.lists[x]);
      }
    }
  }

  lemma RegisterWaiters(rows: Rows, p: Waiters, w: Waiter, id: Id)
    requires RowsOk(rows) && WaitersOk(rows, p) && w !in p.ticket && id in rows.at
    ensures WaitersOk(rows, Registered(rows, p, w, id))
  {
    var q := Registered(rows, p, w, id);
    assert RowOk(rows, id, rows.at[id]);
    forall v | v in q.ticket ensures WaiterOk(rows, q, v) {
      if v != w {
        assert WaiterOk(rows, p, v);
      } else {
        assert w == q.lists[id][|q.lists[id]| - 1];
      }
    }
  }

  lemma RegisterOk(rows: Rows, p: Waiters, w: Waiter, id: Id)
    requires RowsOk(rows) && ListsOk(rows, p) && WaitersOk(rows, p)
    requires w !in p.ticket && w !in p.returned && id in rows.at && rows.at[id].paused
    ensures ListsOk(rows, Registered(rows, p, w, id)) && WaitersOk(rows, Registered(rows, p, w, id))
  {
    RegisterLists(rows, p, w, id);
    RegisterWaiters(rows, p, w, id);
  }

  /** One more call returned; if it was registered it has left its list. */
  lemma ReturnOk(rows: Rows, p: Waiters, q: Waiters, w: Waiter, r: Return)
    requires ListsOk(rows, p) && WaitersOk(rows, p)
    requires q == p.(lists := q.lists, returned := p.returned[w := r])
    requires forall x | x in q.lists ::
      x in p.lists && (q.lists[x] == p.lists[x] || q.lists[x] == Without(p.lists[x], w))
    requires forall x | x in q.lists :: q.lists[x] != [] && w !in q.lists[x]
    requires forall x, v | x in p.lists && v in p.lists[x] && v != w :: x in q.lists && v in q.lists[x]
    ensures ListsOk(rows, q) && WaitersOk(rows, q)
  {
    forall x | x in q.lists ensures ListOk(rows, q, x, q.lists[x]) {
      assert ListOk(rows, p, x, p.lists[x]);
      WithoutMembers(p.lists[x], w);
    }
    forall v | v in q.ticket ensures WaiterOk(rows, q, v) {
      assert WaiterOk(rows, p, v);
    }
  }

  lemma CancelOk(rows: Rows, p: Waiters, w: Waiter, r: Return)
    requires ListsOk(rows, p) && WaitersOk(rows, p) && w in p.ticket
    ensures
      var q := p.(lists := LeftList(p.lists, p.ticket[w].id, w), returned := p.returned[w := r]);
      ListsOk(rows, q) && WaitersOk(rows, q)
  {
    var id := p.ticket[w].id;
    var q := p.(lists := LeftList(p.lists, id, w), returned := p.returned[w := r]);
    if id in p.lists {
      assert ListOk(rows, p, id, p.lists[id]);
      WithoutMembers(p.lists[id], w);
    }
    forall x | x in p.lists && x != id ensures w !in p.lists[x] && p.lists[x] != [] {
      assert ListOk(rows, p, x, p.lists[x]);
    }
    ReturnOk(rows, p, q, w, r);
  }

  lemma ImmediateOk(rows: Rows, p: Waiters, w: Waiter, r: Return)
    requires ListsOk(rows, p) && WaitersOk(rows, p) && (w !in p.ticket || w in p.mail)
    ensures
      var q := p.(returned := p.returned[w := r]);
      ListsOk(rows, q) && WaitersOk(rows, q)
  {
    forall x | x in p.lists ensures w !in p.lists[x] && p.lists[x] != [] {
      assert ListOk(rows, p, x, p.lists[x]);
    }
    ReturnOk(rows, p, p.(returned := p.returned[w := r]), w, r);
  }

  // steps

  lemma RowEventInv(d: Desk, e: Event)
    requires Inv(d) && (e.Insert? || e.PauseRow?)
    ensures Inv(Step(d, e)) && Grows(d.rows, Step(d, e).rows)
  {
    var next := Step(d, e).rows;
    if next != d.rows {
      assert e.id in d.waiters.lists ==> ListOk(d.rows, d.waiters, e.id, d.waiters.lists[e.id]);
      assert e.id in d.rows.at ==> RowOk(d.rows, e.id, d.rows.at[e.id]);
      PutRowOk(d.rows, e.id, next.at[e.id]);
      assert next == d.rows.(at := d.rows.at[e.id := next.at[e.id]], used := d.rows.used + {e.id});
      RowStepOk(d.rows, next, d.waiters, e.id);
      ReturnsGrow(d.rows, next, d.waiters.ticket, d.waiters.returned);
    }
  }

  lemma EndEventInv(d: Desk, e: Event)
    requires Inv(d) && (e.EndPause? || e.Remove?)
    ensures Inv(Step(d, e)) && Grows(d.rows, Step(d, e).rows)
  {
    var rows, next := d.rows, Step(d, e).rows;
    if e.id in rows.at && (e.Remove? || rows.at[e.id].paused) {
      var r := if e.Remove? then NotFound else e.result;
      assert RowOk(rows, e.id, rows.at[e.id]);
      EndRowOk(rows, e.id, r);
      EndStepOk(rows, next, d.waiters, e.id, r);
      ReturnsGrow(rows, next, d.waiters.ticket, d.waiters.returned);
    }
  }

  lemma WipeInv(d: Desk)
    requires Inv(d)
    ensures Inv(Step(d, Wipe)) && Grows(d.rows, Step(d, Wipe).rows)
  {
    var next := Step(d, Wipe).rows;
    WipeRowsOk(d.rows, StaleEpoch);
    forall p | p in d.rows.outcome ensures p in next.outcome && next.outcome[p] == d.rows.outcome[p] {
      AllEndedKeeps(d.rows, StaleEpoch, p);
    }
    WipeWaitersOk(d.rows, d.waiters, StaleEpoch);
    ReturnsGrow(d.rows, next, d.waiters.ticket, d.waiters.returned);
  }

  lemma RegisterInv(d: Desk, w: Waiter, id: Id)
    requires Inv(d)
    ensures Inv(Step(d, Register(w, id))) && Step(d, Register(w, id)).rows == d.rows
  {
    var rows, p := d.rows, d.waiters;
    if w !in p.ticket && w !in p.returned {
      if id !in rows.at || !rows.at[id].paused {
        ImmediateOk(rows, p, w, Immediate(rows, id));
      } else {
        assert RowOk(rows, id, rows.at[id]);
        RegisterOk(rows, p, w, id);
      }
    }
  }

  lemma OwnHeard(rows: Rows, own: Pause)
    requires own in rows.outcome
    ensures Heard(rows, own, rows.outcome[own])
  {
  }

  /** A cancelled WaitPaused reports how its own pause or a later pause of its row ended, if its own
      has ended, and its context's error exactly if it has not. */
  lemma CancelHeard(d: Desk, w: Waiter)
    requires Inv(d) && w in d.waiters.ticket && w !in d.waiters.returned
    ensures CancelReturn(d, w).Got? ==> Heard(d.rows, d.waiters.ticket[w], CancelReturn(d, w).result)
    ensures CancelReturn(d, w) == ContextErr <==> d.waiters.ticket[w] !in d.rows.outcome
  {
    var own := d.waiters.ticket[w];
    assert WaiterOk(d.rows, d.waiters, w);
    if w in d.waiters.mail {
      OwnHeard(d.rows, own);
    } else {
      assert ListOk(d.rows, d.waiters, own.id, d.waiters.lists[own.id]);
    }
    if own.id in d.rows.at {
      var row := d.rows.at[own.id];
      assert RowOk(d.rows, own.id, row);
      assert row.done ==> Pause(own.id, row.pause) in d.rows.outcome;
    }
  }

  lemma ReturnInv(d: Desk, e: Event)
    requires Inv(d) && (e.Receive? || e.Cancel?)
    ensures Inv(Step(d, e)) && Step(d, e).rows == d.rows
  {
    hide Inv;
    if e.Cancel? {
      CancelInv(d, e.w);
    } else {
      ReceiveInv(d, e.w);
    }
  }

  lemma CancelInv(d: Desk, w: Waiter)
    requires Inv(d)
    ensures Inv(Step(d, Cancel(w))) && Step(d, Cancel(w)).rows == d.rows
  {
    if w in d.waiters.ticket && w !in d.waiters.returned {
      CancelHeard(d, w);
      CancelOk(d.rows, d.waiters, w, CancelReturn(d, w));
      hide ListsOk, WaitersOk, RowsOk, Heard, LeftList, CancelReturn;
    }
  }

  lemma ReceiveInv(d: Desk, w: Waiter)
    requires Inv(d)
    ensures Inv(Step(d, Receive(w))) && Step(d, Receive(w)).rows == d.rows
  {
    var p := d.waiters;
    if w in p.ticket && w !in p.returned && w in p.mail {
      assert WaiterOk(d.rows, p, w);
      OwnHeard(d.rows, p.ticket[w]);
      ImmediateOk(d.rows, p, w, Got(p.mail[w]));
      hide ListsOk, WaitersOk, RowsOk, Heard;
    }
  }

  lemma StepInv(d: Desk, e: Event)
    requires Inv(d)
    ensures Inv(Step(d, e)) && Grows(d.rows, Step(d, e).rows)
  {
    match e
    case Insert(_, _) => RowEventInv(d, e);
    case PauseRow(_) => RowEventInv(d, e);
    case EndPause(_, _) => EndEventInv(d, e);
    case Remove(_) => EndEventInv(d, e);
    case Wipe => WipeInv(d);
    case Register(w, id) => RegisterInv(d, w, id);
    case Receive(_) => ReturnInv(d, e);
    case Cancel(_) => ReturnInv(d, e);
  }

  /** Every run: waiters exist only for paused, unresolved rows, and no send is ever dropped. */
  lemma {:induction false} RunInv(d: Desk, events: seq<Event>)
    requires Empty(d)
    ensures Inv(Run(d, events))
    decreases |events|
  {
    if events == [] {
      EmptyInv(d);
    } else {
      RunInv(d, events[..|events| - 1]);
      StepInv(Run(d, events[..|events| - 1]), events[|events| - 1]);
    }
  }

  // ---------------------------------------------------------------- who is told what

  /** In every run, a registered call that has not returned is on its row's list while its pause
      lasts, and from the moment the pause ends, by whatever step, its channel holds exactly how. */
  lemma EveryWaiterIsTold(start: Desk, events: seq<Event>, w: Waiter)
    requires Empty(start) && w in Run(start, events).waiters.ticket && w !in Run(start, events).waiters.returned
    ensures
      var d := Run(start, events);
      var own := d.waiters.ticket[w];
      && (own !in d.rows.outcome <==> Listed(d.waiters, w))
      && (own in d.rows.outcome <==> w in d.waiters.mail)
      && (w in d.waiters.mail ==> d.waiters.mail[w] == d.rows.outcome[own])
  {
    RunInv(start, events);
    var d := Run(start, events);
    assert WaiterOk(d.rows, d.waiters, w);
    var id := d.waiters.ticket[w].id;
    if id in d.waiters.lists {
      assert ListOk(d.rows, d.waiters, id, d.waiters.lists[id]);
      assert RowOk(d.rows, id, d.rows.at[id]);
    }
  }

  /** What WaitPaused answers at once, and when it waits: no row, a row whose pause has ended, a row that was never
      paused, a paused one. */
  lemma RegisterAnswers(start: Desk, events: seq<Event>, w: Waiter, id: Id)
    requires
      var d := Run(start, events);
      Empty(start) && w !in d.waiters.ticket && w !in d.waiters.returned
    ensures
      var d := Run(start, events);
      var t := Step(d, Register(w, id)).waiters;
      if id in d.rows.at && d.rows.at[id].paused then
        w !in t.returned && Listed(t, w) && t.ticket[w] == Pause(id, d.rows.at[id].pause)
      else
        && w !in t.ticket && w in t.returned
        && t.returned[w]
             == if id !in d.rows.at then Got(NotFound)
                else if Pause(id, d.rows.at[id].pause) in d.rows.outcome
                  then Got(d.rows.outcome[Pause(id, d.rows.at[id].pause)])
                else Inactive
  {
    RunInv(start, events);
    var d := Run(start, events);
    RowTells(d, id);
    hide Run, Inv, Heard, WaitersOk;
  }

  lemma RowTells(d: Desk, id: Id)
    requires Inv(d)
    ensures id in d.rows.at ==>
      var row := d.rows.at[id];
      (row.paused ==> !row.done)
      && (Pause(id, row.pause) in d.rows.outcome <==> row.done)
      && (row.done ==> d.rows.outcome[Pause(id, row.pause)] == row.result)
  {
    hide ListsOk, WaitersOk, ReturnsOk;
    if id in d.rows.at {
      assert RowOk(d.rows, id, d.rows.at[id]);
    }
  }

  lemma KeepsReturns(d: Desk, e: Event, w: Waiter)
    ensures w in d.waiters.returned ==>
      w in Step(d, e).waiters.returned && Step(d, e).waiters.returned[w] == d.waiters.returned[w]
    ensures w in d.waiters.ticket ==>
      w in Step(d, e).waiters.ticket && Step(d, e).waiters.ticket[w] == d.waiters.ticket[w]
  {
    match e
    case Register(_, _) =>
    case Receive(_) =>
    case Cancel(_) =>
    case _ =>
  }

  lemma KeepsMail(d: Desk, e: Event, w: Waiter)
    requires w in d.waiters.mail
    ensures w in Step(d, e).waiters.mail && Step(d, e).waiters.mail[w] == d.waiters.mail[w]
  {
    match e
    case EndPause(_, _) =>
    case Remove(_) =>
    case Wipe =>
    case _ =>
  }

  /** What was told, returned or decided in d still stands in e. */
  ghost predicate Stands(d: Desk, e: Desk, w: Waiter) {
    && (w in d.waiters.mail ==> w in e.waiters.mail && e.waiters.mail[w] == d.waiters.mail[w])
    && (w in d.waiters.returned ==> w in e.waiters.returned && e.waiters.returned[w] == d.waiters.returned[w])
    && (w in d.waiters.ticket ==> w in e.waiters.ticket && e.waiters.ticket[w] == d.waiters.ticket[w])
    && Grows(d.rows, e.rows)
  }

  lemma StepStands(d: Desk, e: Event, w: Waiter)
    requires Inv(d)
    ensures Stands(d, Step(d, e), w)
  {
    StepInv(d, e);
    KeepsReturns(d, e, w);
    if w in d.waiters.mail {
      KeepsMail(d, e, w);
    }
  }

  lemma StandsChain(a: Desk, b: Desk, c: Desk, w: Waiter)
    requires Stands(a, b, w) && Stands(b, c, w)
    ensures Stands(a, c, w)
  {
  }

  lemma RunStands(start: Desk, events: seq<Event>, e: Event, w: Waiter)
    requires Empty(start)
    ensures Stands(Run(start, events), Step(Run(start, events), e), w)
  {
    RunInv(start, events);
    StepStands(Run(start, events), e, w);
  }

  lemma RunOneMore(start: Desk, before: seq<Event>, after: seq<Event>)
    requires after != []
    ensures Run(start, before + after) == Step(Run(start, before + after[..|after| - 1]), after[|after| - 1])
  {
    assert (before + after)[..|before + after| - 1] == before + after[..|after| - 1];
  }

  /** However a run goes on, what a channel held, what a call returned and the pause it waited for never
      change again, and no outcome is revised. */
  lemma {:induction false} ToldOnce(start: Desk, before: seq<Event>, after: seq<Event>, w: Waiter)
    requires Empty(start)
    ensures Stands(Run(start, before), Run(start, before + after), w)
    decreases |after|
  {
    if after == [] {
      assert before + after == before;
    } else {
      var k := |after| - 1;
      ToldOnce(start, before, after[..k], w);
      RunOneMore(start, before, after);
      RunStands(start, before + after[..k], after[k], w);
      StandsChain(Run(start, before), Run(start, before + after[..k]), Run(start, before + after), w);
    }
  }

  /** All calls registered in one pause are told the same. */
  lemma WaitersAgree(start: Desk, events: seq<Event>, w: Waiter, v: Waiter)
    requires
      var p := Run(start, events).waiters;
      Empty(start) && w in p.mail && v in p.mail && w in p.ticket && v in p.ticket && p.ticket[w] == p.ticket[v]
    ensures Run(start, events).waiters.mail[w] == Run(start, events).waiters.mail[v]
  {
    RunInv(start, events);
    var d := Run(start, events);
    assert WaiterOk(d.rows, d.waiters, w) && WaiterOk(d.rows, d.waiters, v);
  }

  /** A later pause of the waiter's row has ended and the row still stands. */
  ghost predicate EndedAgain(d: Desk, own: Pause) {
    own.id in d.rows.at && d.rows.at[own.id].done && d.rows.at[own.id].pause > own.n
  }

  /** What a cancelled call says about its own pause. */
  ghost predicate ReportsExactly(d: Desk, w: Waiter)
    requires w in d.waiters.ticket
  {
    var own := d.waiters.ticket[w];
    && (own !in d.rows.outcome <==> CancelReturn(d, w) == ContextErr)
    && (own in d.rows.outcome ==>
          (CancelReturn(d, w) == Got(d.rows.outcome[own])
           <==> !(EndedAgain(d, own) && d.rows.at[own.id].result != d.rows.outcome[own])))
  }

  lemma CancelReports(d: Desk, w: Waiter)
    requires Inv(d) && w in d.waiters.ticket && w !in d.waiters.returned
    ensures ReportsExactly(d, w)
  {
    CancelHeard(d, w);
    assert WaiterOk(d.rows, d.waiters, w);
    var id := d.waiters.ticket[w].id;
    if id in d.waiters.lists {
      assert ListOk(d.rows, d.waiters, id, d.waiters.lists[id]);
    }
    if id in d.rows.at {
      assert RowOk(d.rows, id, d.rows.at[id]);
    }
  }

  /** When the context fires after the pause ended, the call reports its own pause's end exactly if
      no later pause of that row ended differently in the meantime. */
  lemma CancelReportsOwnEndIff(start: Desk, events: seq<Event>, w: Waiter)
    requires Empty(start) && w in Run(start, events).waiters.ticket && w !in Run(start, events).waiters.returned
    ensures
      var d := Run(start, events);
      var own := d.waiters.ticket[w];
      && (own !in d.rows.outcome <==> CancelReturn(d, w) == ContextErr)
      && (own in d.rows.outcome ==>
            (CancelReturn(d, w) == Got(d.rows.outcome[own])
             <==> !(EndedAgain(d, own) && d.rows.at[own.id].result != d.rows.outcome[own])))
  {
    RunInv(start, events);
    CancelReports(Run(start, events), w);
  }

  /** A call whose row never ended a later pause returns its own pause's end or its context's error. */
  lemma ReturnsOwnEnd(start: Desk, events: seq<Event>, w: Waiter)
    requires
      var d := Run(start, events);
      && Empty(start) && w in d.waiters.ticket && w in d.waiters.returned && d.waiters.returned[w].Got?
      && forall p | p in d.rows.outcome && p.id == d.waiters.ticket[w].id :: p.n <= d.waiters.ticket[w].n
    ensures
      var d := Run(start, events);
      d.waiters.ticket[w] in d.rows.outcome && d.waiters.returned[w] == Got(d.rows.outcome[d.waiters.ticket[w]])
  {
    RunInv(start, events);
    var d := Run(start, events);
    var own := d.waiters.ticket[w];
    assert Heard(d.rows, own, d.waiters.returned[w].result);
    var p :| p in d.rows.outcome && p.id == own.id && own.n <= p.n && d.rows.outcome[p] == d.waiters.returned[w].result;
    assert p == own;
  }

  lemma ResumedWhileWaiting(start: Desk)
    requires Empty(start)
    ensures
      var c := Step(Step(Step(start, Insert(0, true)), Register(7, 0)), EndPause(0, Resumed(1)));
      && 0 in c.rows.at && !c.rows.at[0].paused && c.rows.at[0].pause == 1
      && 7 in c.waiters.ticket && c.waiters.ticket[7] == Pause(0, 1) && 7 !in c.waiters.returned
      && Pause(0, 1) in c.rows.outcome && c.rows.outcome[Pause(0, 1)] == Resumed(1) && 0 !in c.waiters.lists
  {
    var a := Step(start, Insert(0, true));
    assert a.rows.at[0] == Row(true, false, NotFound, 1);
    var b := Step(a, Register(7, 0));
    assert b.waiters.ticket[7] == Pause(0, 1) && b.waiters.lists[0] == [7] && b.rows == a.rows;
  }

  lemma PausedAndDropped(c: Desk)
    requires 0 in c.rows.at && !c.rows.at[0].paused && c.rows.at[0].pause == 1
    requires 7 in c.waiters.ticket && c.waiters.ticket[7] == Pause(0, 1) && 7 !in c.waiters.returned
    requires Pause(0, 1) in c.rows.outcome && 0 !in c.waiters.lists
    ensures
      var d := Step(Step(Step(c, PauseRow(0)), EndPause(0, Dropped)), Cancel(7));
      && 7 in d.waiters.ticket && d.waiters.ticket[7] == Pause(0, 1)
      && Pause(0, 1) in d.rows.outcome && d.rows.outcome[Pause(0, 1)] == c.rows.outcome[Pause(0, 1)]
      && 7 in d.waiters.returned && d.waiters.returned[7] == Got(Dropped)
  {
    var d := Step(c, PauseRow(0));
    assert d.rows.at[0].paused && d.rows.at[0].pause == 2 && d.waiters == c.waiters;
    var e := Step(d, EndPause(0, Dropped));
    assert e.rows.at[0] == Row(false, true, Dropped, 2) && e.waiters == d.waiters;
  }

  /** The mixed-up report: a row resumed, paused again and dropped before a cancelled call re-takes
      the lock tells that call it was dropped. */
  lemma CancelCanReportLaterPause(start: Desk)
    requires Empty(start)
    ensures
      var d := Run(start,
          [Insert(0, true), Register(7, 0), EndPause(0, Resumed(1)), PauseRow(0), EndPause(0, Dropped), Cancel(7)]);
      && 7 in d.waiters.ticket && d.waiters.ticket[7] == Pause(0, 1)
      && Pause(0, 1) in d.rows.outcome && d.rows.outcome[Pause(0, 1)] == Resumed(1)
      && 7 in d.waiters.returned && d.waiters.returned[7] == Got(Dropped)
  {
    var es := [Insert(0, true), Register(7, 0), EndPause(0, Resumed(1)), PauseRow(0), EndPause(0, Dropped), Cancel(7)];
    RunsOn(start, es);
    ResumedWhileWaiting(start);
    var c := Step(Step(Step(start, es[0]), es[1]), es[2]);
    PausedAndDropped(c);
  }

  lemma RunsOn(d: Desk, es: seq<Event>)
    requires |es| == 6
    ensures Run(d, es) == Step(Step(Step(Step(Step(Step(d, es[0]), es[1]), es[2]), es[3]), es[4]), es[5])
  {
    assert es[..5][..4] == es[..4] && es[..4][..3] == es[..3] && es[..3][..2] == es[..2] && es[..2][..1] == es[..1];
    assert Run(d, es[..1]) == Step(d, es[0]);
    assert Run(d, es[..2]) == Step(Run(d, es[..1]), es[1]);
    assert Run(d, es[..3]) == Step(Run(d, es[..2]), es[2]);
    assert Run(d, es[..4]) == Step(Run(d, es[..3]), es[3]);
    assert Run(d, es[..5]) == Step(Run(d, es[..4]), es[4]);
  }
}
