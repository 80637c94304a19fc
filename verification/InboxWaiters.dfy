/**
 The inbox and the waiter protocol together (internal/store/memory.go,
 internal/store/breakpoint.go): every call of the inbox is the steps of module Breakpoints that its
 lock section takes, so the two models never disagree on which rows are paused.

 Calls that a spill failure undoes are not moves: they change neither side. ULIDs are fresh, so an
 Insert of an id that was ever used is no move either.
 */
module InboxWaiters {
  import opened Flows
  import opened Lists
  import opened InboxSpec
  import opened InboxLaws
  import opened InboxRuns
  import opened InboxPatch
  import opened InboxApi
  import B = Breakpoints

  // ---------------------------------------------------------------- the steps a call takes

  function Removals(ids: seq<Id>): (es: seq<B.Event>)
    ensures |es| == |ids| && forall i | 0 <= i < |ids| :: es[i] == B.Remove(ids[i])
  {
    seq(|ids|, i requires 0 <= i < |ids| => B.Remove(ids[i]))
  }

  function CappedBy(c: Call): Flow
    requires c.CallInsert?
  {
    CapFlow(c.flow, if c.seen.maxBody > 0 then c.seen.maxBody else 0)
  }

  /** The rows a call evicts or deletes one by one, in the order it does. */
  function Evicts(a: Inbox, c: Call): seq<Id> {
    match c
    case CallInsert(epoch, id, _, seen, _, _) =>
      var size := Resident(CappedBy(c));
      if id !in a.rows && InsertVerdict(a, seen, epoch, size).Accepted?
      then a.order[..EvictCount(a.order, a.rows, a.bytes, a.caps, size)] else []
    case CallDelete(id) => [id]
    case CallDeleteAll => a.order
    case CallReplaceCaps(caps, force) =>
      if GoodCaps(caps) && !ReplaceRefused(a, caps, force)
      then a.order[..OverCount(a.order, a.rows, a.bytes, caps)] else []
    case CallResume(id, patched, p, _, _) =>
      if IsPaused(a, id) && patched && PatchVerdict(a, id, p, PlainCharge(a, id, p)).Accepted?
      then Victims(a.order, a.rows, id, Excess(a, id, PlainCharge(a, id, p))) else []
    case _ => []
  }

  /** The step that follows them. `reply` is the patch a Resume hands to its waiters. */
  function Ends(a: Inbox, c: Call, reply: int): seq<B.Event> {
    match c
    case CallInsert(epoch, id, _, seen, _, _) =>
      if id !in a.rows && InsertVerdict(a, seen, epoch, Resident(CappedBy(c))).Accepted?
      then [B.Insert(id, CappedBy(c).state == Paused)] else []
    case CallWipe => [B.Wipe]
    case CallResetTo(caps, _, _) => if GoodCaps(caps) then [B.Wipe] else []
    case CallPause(id) => [B.PauseRow(id)]
    case CallResume(id, patched, p, _, _) =>
      if IsPaused(a, id) && (patched ==> PatchVerdict(a, id, p, PlainCharge(a, id, p)).Accepted?)
      then [B.EndPause(id, B.Resumed(reply))] else []
    case CallDrop(id) => [B.EndPause(id, B.Dropped)]
    case CallExpire(id, _) => [B.EndPause(id, B.TimedOut)]
    case _ => []
  }

  // ---------------------------------------------------------------- agreement

  /** Both sides have the same rows, and the same ones are paused. */
  ghost predicate Agree(rows: map<Id, Row>, at: map<Id, B.Row>) {
    && rows.Keys == at.Keys
    && forall id | id in rows :: at[id].paused <==> rows[id].flow.state == Paused
  }

  lemma {:induction false} RemovalsRemove(d: B.Desk, ids: seq<Id>)
    ensures
      var e := B.Run(d, Removals(ids));
      e.rows.at == d.rows.at - Members(ids) && e.rows.used == d.rows.used
    decreases |ids|
  {
    var es := Removals(ids);
    if ids == [] {
      assert d.rows.at - Members([]) == d.rows.at;
    } else {
      var k := |ids| - 1;
      assert es[..k] == Removals(ids[..k]);
      RemovalsRemove(d, ids[..k]);
      assert ids == ids[..k] + [ids[k]];
      assert Members(ids) == Members(ids[..k]) + {ids[k]};
      var e := B.Run(d, es[..k]);
      assert B.Run(d, es) == B.Step(e, B.Remove(ids[k]));
      assert d.rows.at - Members(ids) == (d.rows.at - Members(ids[..k])) - {ids[k]};
    }
  }

  lemma AgreeWithout(rows: map<Id, Row>, at: map<Id, B.Row>, gone: set<Id>)
    requires Agree(rows, at)
    ensures Agree(rows - gone, at - gone)
  {
  }

  lemma AgreePut(rows: map<Id, Row>, at: map<Id, B.Row>, id: Id, row: Row, put: B.Row)
    requires Agree(rows, at) && (put.paused <==> row.flow.state == Paused)
    ensures Agree(rows[id := row], at[id := put])
  {
  }

  /** Two runs, one after the other. */
  lemma {:induction false} RunsOn(d: B.Desk, x: seq<B.Event>, y: seq<B.Event>)
    requires |y| <= 1
    ensures B.Run(d, x + y) == if y == [] then B.Run(d, x) else B.Step(B.Run(d, x), y[0])
  {
    if y == [] {
      assert x + y == x;
    } else {
      assert (x + y)[..|x + y| - 1] == x;
    }
  }

  // ---------------------------------------------------------------- moves

  datatype Joint = Joint(inbox: Inbox, desk: B.Desk)

  /** A call of the inbox, or a step of a WaitPaused. */
  datatype Move = Does(call: Call, reply: int) | Waits(event: B.Event)

  ghost function DeskAfter(a: Inbox, d: B.Desk, c: Call, reply: int): B.Desk {
    B.Run(d, Removals(Evicts(a, c)) + Ends(a, c, reply))
  }

  ghost function MoveStep(j: Joint, m: Move): Joint {
    match m
    case Does(c, reply) =>
      if c.CallInsert? && c.id in j.desk.rows.used then j
      else Joint(PlainStep(j.inbox, c), DeskAfter(j.inbox, j.desk, c, reply))
    case Waits(e) =>
      if e.Register? || e.Receive? || e.Cancel? then j.(desk := B.Step(j.desk, e)) else j
  }

  ghost function MoveRun(j: Joint, moves: seq<Move>): Joint
    decreases |moves|
  {
    if moves == [] then j else MoveStep(MoveRun(j, moves[..|moves| - 1]), moves[|moves| - 1])
  }

  /** The desk once the evictions of a call are done. */
  lemma EvictedDesk(a: Inbox, d: B.Desk, c: Call, reply: int) returns (e: B.Desk)
    requires Agree(a.rows, d.rows.at)
    ensures e.rows.used == d.rows.used && Agree(a.rows - Members(Evicts(a, c)), e.rows.at)
    ensures
      var y := Ends(a, c, reply);
      DeskAfter(a, d, c, reply) == if y == [] then e else B.Step(e, y[0])
  {
    var gone := Evicts(a, c);
    e := B.Run(d, Removals(gone));
    RemovalsRemove(d, gone);
    AgreeWithout(a.rows, d.rows.at, Members(gone));
    RunsOn(d, Removals(gone), Ends(a, c, reply));
  }

  lemma InsertAgrees(a: Inbox, d: B.Desk, c: Call, reply: int)
    requires Agree(a.rows, d.rows.at) && c.CallInsert? && c.id !in d.rows.used
    ensures Agree(PlainStep(a, c).rows, DeskAfter(a, d, c, reply).rows.at)
  {
    var e := EvictedDesk(a, d, c, reply);
    hide Resident, CapFlow, InsertVerdict, EvictCount, B.Run;
    if Ends(a, c, reply) != [] {
      var f := CappedBy(c);
      var row := B.Row(f.state == Paused, false, B.NotFound, if f.state == Paused then 1 else 0);
      AgreePut(a.rows - Members(Evicts(a, c)), e.rows.at, c.id, Row(f, Resident(f), a.epoch), row);
    } else {
      assert a.rows - Members([]) == a.rows;
    }
  }

  lemma StateAgrees(rows: map<Id, Row>, d: B.Desk, id: Id, row: Row, e: B.Event)
    requires Agree(rows, d.rows.at) && id in rows
    requires e == B.PauseRow(id) || (e.EndPause? && e.id == id)
    requires row.flow.state == Paused <==> e.PauseRow?
    ensures e.PauseRow? || rows[id].flow.state == Paused ==> Agree(rows[id := row], B.Step(d, e).rows.at)
    ensures e.EndPause? && rows[id].flow.state != Paused ==> Agree(rows, B.Step(d, e).rows.at)
    ensures e.PauseRow? && rows[id].flow.state == Paused ==> Agree(rows, B.Step(d, e).rows.at)
  {
    hide B.Finished, B.Ended;
  }

  lemma AbsentStays(d: B.Desk, id: Id, e: B.Event)
    requires id !in d.rows.at && (e == B.PauseRow(id) || (e.EndPause? && e.id == id))
    ensures B.Step(d, e) == d
  {
  }

  /** A patch rewrites its own row and evicts others. */
  lemma PatchedRows(a: Inbox, id: Id, p: Patch, next: nat)
    requires Inv(a) && id in a.rows && PatchVerdict(a, id, p, next).Accepted?
    ensures
      var v, t := Victims(a.order, a.rows, id, Excess(a, id, next)), ApplyPatch(a, id, p, next);
      && id !in v && id in t.rows
      && t.rows == (a.rows - Members(v))[id := Row(Patched(a.rows[id].flow, p), next, a.rows[id].epoch)]
  {
    var v := Victims(a.order, a.rows, id, Excess(a, id, next));
    VictimsAreOthers(a.order, a.rows, id, Excess(a, id, next));
    hide *;
    ApplyPatchParts(a, id, p, next, v);
    ResizedRows(a, v, id, Patched(a.rows[id].flow, p), next);
  }

  lemma ResizedRows(a: Inbox, v: seq<Id>, id: Id, f: Flow, next: nat)
    requires id in a.rows
    ensures Resize(Evict(a, v), id, f, next, a.rows[id]).rows
            == (a.rows - Members(v))[id := Row(f, next, a.rows[id].epoch)]
  {
    hide Excluding, Charge, Members;
  }

  /** A released row, patched or not. */
  lemma ReleasedRows(a: Inbox, id: Id, patched: bool, p: Patch, next: nat)
    requires Inv(a) && IsPaused(a, id) && (patched ==> PatchVerdict(a, id, p, next).Accepted?)
    ensures
      var f := a.rows[id].flow;
      var gone := if patched then Victims(a.order, a.rows, id, Excess(a, id, next)) else [];
      var g, size := if patched then Patched(f, p) else f, if patched then next else a.rows[id].size;
      && id !in gone
      && ResumeStep(a, id, patched, p, next).rows
         == (a.rows - Members(gone))[id := Row(Resumed(g), size, a.rows[id].epoch)]
  {
    if patched {
      PatchedRows(a, id, p, next);
      hide Inv, ApplyPatch, Victims, Patched, Members;
    } else {
      assert a.rows - Members([]) == a.rows;
    }
  }

  lemma ReleaseAgrees(a: Inbox, e: B.Desk, id: Id, patched: bool, p: Patch, next: nat, gone: seq<Id>, reply: int)
    requires Inv(a) && IsPaused(a, id) && (patched ==> PatchVerdict(a, id, p, next).Accepted?)
    requires gone == if patched then Victims(a.order, a.rows, id, Excess(a, id, next)) else []
    requires Agree(a.rows - Members(gone), e.rows.at)
    ensures Agree(ResumeStep(a, id, patched, p, next).rows, B.Step(e, B.EndPause(id, B.Resumed(reply))).rows.at)
  {
    hide B.Step, Agree, Inv, Victims, Patched, ResumeStep, PatchVerdict, Excess;
    ReleasedRows(a, id, patched, p, next);
    var row := ResumeStep(a, id, patched, p, next).rows[id];
    StateAgrees(a.rows - Members(gone), e, id, row, B.EndPause(id, B.Resumed(reply)));
  }

  lemma ResumeAgrees(a: Inbox, d: B.Desk, c: Call, reply: int)
    requires Agree(a.rows, d.rows.at) && c.CallResume? && Inv(a)
    ensures Agree(PlainStep(a, c).rows, DeskAfter(a, d, c, reply).rows.at)
  {
    hide B.Run, B.Step, PlainStep, PlainCharge, DeskAfter, Agree, Inv, Victims, PatchVerdict, Excess;
    var e := EvictedDesk(a, d, c, reply);
    var next := PlainCharge(a, c.id, c.patch);
    ResumeIsPlainStep(a, c);
    if IsPaused(a, c.id) && (c.patched ==> PatchVerdict(a, c.id, c.patch, next).Accepted?) {
      hide ResumeStep;
      ReleaseAgrees(a, e, c.id, c.patched, c.patch, next, Evicts(a, c), reply);
    } else {
      assert a.rows - Members([]) == a.rows;
    }
  }

  lemma StampDesk(a: Inbox, d: B.Desk, c: Call, reply: int) returns (e: B.Desk)
    requires Agree(a.rows, d.rows.at) && (c.CallPause? || c.CallDrop? || c.CallExpire?)
    ensures Agree(a.rows, e.rows.at) && DeskAfter(a, d, c, reply) == B.Step(e, Ends(a, c, reply)[0])
  {
    e := EvictedDesk(a, d, c, reply);
    assert a.rows - Members([]) == a.rows;
  }

  lemma PauseAgrees(a: Inbox, d: B.Desk, id: Id, reply: int)
    requires Agree(a.rows, d.rows.at)
    ensures Agree(PlainStep(a, CallPause(id)).rows, DeskAfter(a, d, CallPause(id), reply).rows.at)
  {
    var e := StampDesk(a, d, CallPause(id), reply);
    LosslessPlainStep(a, CallPause(id));
    hide PlainStep, DeskAfter, B.Step;
    if id in a.rows {
      StateAgrees(a.rows, e, id, a.rows[id].(flow := a.rows[id].flow.(state := Paused)), B.PauseRow(id));
    } else {
      AbsentStays(e, id, B.PauseRow(id));
    }
  }

  lemma DropAgrees(a: Inbox, d: B.Desk, id: Id, reply: int)
    requires Agree(a.rows, d.rows.at)
    ensures Agree(PlainStep(a, CallDrop(id)).rows, DeskAfter(a, d, CallDrop(id), reply).rows.at)
  {
    var e := StampDesk(a, d, CallDrop(id), reply);
    var x := B.EndPause(id, B.Dropped);
    LosslessPlainStep(a, CallDrop(id));
    hide PlainStep, DeskAfter, B.Step;
    if id in a.rows {
      StateAgrees(a.rows, e, id, a.rows[id].(flow := a.rows[id].flow.(state := Dropped)), x);
    } else {
      AbsentStays(e, id, x);
    }
  }

  lemma ExpireAgrees(a: Inbox, d: B.Desk, id: Id, now: nat, reply: int)
    requires Agree(a.rows, d.rows.at)
    ensures Agree(PlainStep(a, CallExpire(id, now)).rows, DeskAfter(a, d, CallExpire(id, now), reply).rows.at)
  {
    var e := StampDesk(a, d, CallExpire(id, now), reply);
    var x := B.EndPause(id, B.TimedOut);
    LosslessPlainStep(a, CallExpire(id, now));
    hide PlainStep, DeskAfter, B.Step;
    if id in a.rows {
      StateAgrees(a.rows, e, id, a.rows[id].(flow := Expired(a.rows[id].flow, now)), x);
    } else {
      AbsentStays(e, id, x);
    }
  }

  lemma WipeEmpties(d: B.Desk)
    ensures B.Step(d, B.Wipe).rows.at == map[]
  {
    hide B.Failed, B.AllEnded;
  }

  lemma WipeAgrees(a: Inbox, d: B.Desk, c: Call, reply: int)
    requires Agree(a.rows, d.rows.at) && (c.CallWipe? || c.CallResetTo?)
    ensures Agree(PlainStep(a, c).rows, DeskAfter(a, d, c, reply).rows.at)
  {
    hide DeskAfter, B.Step, B.Run, Members;
    var e := EvictedDesk(a, d, c, reply);
    WipeEmpties(e);
    WipeLeavesNothing(a, c);
  }

  lemma WipeLeavesNothing(a: Inbox, c: Call)
    requires c.CallWipe? || c.CallResetTo?
    ensures c.CallWipe? || GoodCaps(c.caps) ==> PlainStep(a, c).rows == map[]
    ensures c.CallResetTo? && !GoodCaps(c.caps) ==> PlainStep(a, c) == a
    ensures a.rows - Members(Evicts(a, c)) == a.rows
  {
    assert a.rows - Members([]) == a.rows;
  }

  /** The rows left when a call only removes. */
  lemma RemovalRows(a: Inbox, c: Call)
    requires Inv(a) && (c.CallDelete? || c.CallDeleteAll? || c.CallReplaceCaps?)
    ensures PlainStep(a, c).rows == a.rows - Members(Evicts(a, c))
  {
    if c.CallDelete? {
      assert Members([c.id]) == {c.id};
      assert c.id !in a.rows ==> a.rows - {c.id} == a.rows;
    } else if c.CallDeleteAll? {
      assert a.rows - Members(a.order) == map[];
    } else {
      hide Inv, Excluding, Charge;
      assert a.rows - Members([]) == a.rows;
    }
  }

  lemma RemovalAgrees(a: Inbox, d: B.Desk, c: Call, reply: int)
    requires Agree(a.rows, d.rows.at) && Inv(a) && (c.CallDelete? || c.CallDeleteAll? || c.CallReplaceCaps?)
    ensures Agree(PlainStep(a, c).rows, DeskAfter(a, d, c, reply).rows.at)
  {
    var e := EvictedDesk(a, d, c, reply);
    RemovalRows(a, c);
    hide PlainStep, DeskAfter, Agree, Evicts, Inv;
  }

  /** Every call of the inbox takes the steps that keep the two sides in agreement. */
  lemma CallAgrees(a: Inbox, d: B.Desk, c: Call, reply: int)
    requires Agree(a.rows, d.rows.at) && Inv(a) && (c.CallInsert? ==> c.id !in d.rows.used)
    ensures Agree(PlainStep(a, c).rows, DeskAfter(a, d, c, reply).rows.at)
  {
    hide Agree, Inv, PlainStep, DeskAfter;
    match c
    case CallInsert(_, _, _, _, _, _) => InsertAgrees(a, d, c, reply);
    case CallResume(_, _, _, _, _) => ResumeAgrees(a, d, c, reply);
    case CallPause(id) => PauseAgrees(a, d, id, reply);
    case CallDrop(id) => DropAgrees(a, d, id, reply);
    case CallExpire(id, now) => ExpireAgrees(a, d, id, now, reply);
    case CallWipe => WipeAgrees(a, d, c, reply);
    case CallResetTo(_, _, _) => WipeAgrees(a, d, c, reply);
    case _ => RemovalAgrees(a, d, c, reply);
  }

  // ---------------------------------------------------------------- runs

  ghost predicate JointInv(j: Joint) {
    Inv(j.inbox) && B.Inv(j.desk) && Agree(j.inbox.rows, j.desk.rows.at)
  }

  lemma {:induction false} DeskInv(d: B.Desk, es: seq<B.Event>)
    requires B.Inv(d)
    ensures B.Inv(B.Run(d, es))
    decreases |es|
  {
    hide B.Inv;
    if es != [] {
      DeskInv(d, es[..|es| - 1]);
      B.StepInv(B.Run(d, es[..|es| - 1]), es[|es| - 1]);
    }
  }

  /** Waiters' own steps leave the rows alone. */
  lemma WaitKeepsRows(d: B.Desk, e: B.Event)
    requires e.Register? || e.Receive? || e.Cancel?
    ensures B.Step(d, e).rows == d.rows
  {
  }

  lemma MoveInv(j: Joint, m: Move)
    requires JointInv(j)
    ensures JointInv(MoveStep(j, m))
  {
    hide Inv, B.Inv, Agree, PlainStep, B.Step, B.Run;
    match m
    case Does(c, reply) =>
      if !(c.CallInsert? && c.id in j.desk.rows.used) {
        PlainStepInv(j.inbox, c);
        DeskInv(j.desk, Removals(Evicts(j.inbox, c)) + Ends(j.inbox, c, reply));
        CallAgrees(j.inbox, j.desk, c, reply);
      }
    case Waits(e) =>
      if e.Register? || e.Receive? || e.Cancel? {
        B.StepInv(j.desk, e);
        WaitKeepsRows(j.desk, e);
      }
  }

  lemma PlainStepInv(a: Inbox, c: Call)
    requires Inv(a)
    ensures Inv(PlainStep(a, c))
  {
    hide Inv, Step, Plain;
    StepInv(a, Plain(c, a));
  }

  ghost predicate Opening(j: Joint) {
    Initial(j.inbox) && B.Empty(j.desk)
  }

  lemma {:induction false} MovesInv(j: Joint, moves: seq<Move>)
    requires Opening(j)
    ensures JointInv(MoveRun(j, moves))
    decreases |moves|
  {
    if moves == [] {
      B.EmptyInv(j.desk);
    } else {
      hide JointInv, MoveStep;
      MovesInv(j, moves[..|moves| - 1]);
      MoveInv(MoveRun(j, moves[..|moves| - 1]), moves[|moves| - 1]);
    }
  }

  /** In every interleaving of inbox calls and WaitPaused calls, waiters are listed only for rows that are
      paused in the inbox, and a call whose row is not, because it was resumed, dropped, expired, deleted,
      evicted or wiped, finds in its channel how its pause ended. */
  lemma NobodyWaitsInVain(j: Joint, moves: seq<Move>)
    requires Opening(j)
    ensures
      var a, p := MoveRun(j, moves).inbox, MoveRun(j, moves).desk.waiters;
      && (forall id | id in p.lists :: IsPaused(a, id))
      && (forall w | w in p.ticket && w !in p.returned && !IsPaused(a, p.ticket[w].id) ::
            && w in p.mail && p.ticket[w] in MoveRun(j, moves).desk.rows.outcome
            && p.mail[w] == MoveRun(j, moves).desk.rows.outcome[p.ticket[w]])
  {
    MovesInv(j, moves);
    var k := MoveRun(j, moves);
    var a, d := k.inbox, k.desk;
    hide MoveRun;
    forall id | id in d.waiters.lists ensures IsPaused(a, id) {
      assert B.ListOk(d.rows, d.waiters, id, d.waiters.lists[id]);
    }
    forall w | w in d.waiters.ticket && w !in d.waiters.returned && !IsPaused(a, d.waiters.ticket[w].id)
      ensures
        && w in d.waiters.mail && d.waiters.ticket[w] in d.rows.outcome
        && d.waiters.mail[w] == d.rows.outcome[d.waiters.ticket[w]]
    {
      assert B.WaiterOk(d.rows, d.waiters, w);
    }
  }

  // ---------------------------------------------------------------- what waiters hear

  /** What a call tells the waiters of a row whose pause it ends. */
  function Why(c: Call, id: Id, reply: int): B.Result {
    match c
    case CallResume(x, _, _, _, _) => if x == id then B.Resumed(reply) else B.NotFound
    case CallDrop(_) => B.Dropped
    case CallExpire(_, _) => B.TimedOut
    case CallWipe => B.StaleEpoch
    case CallResetTo(_, _, _) => B.StaleEpoch
    case _ => B.NotFound
  }

  /** The pause a row was in has ended so. */
  ghost predicate EndedWith(d: B.Desk, e: B.Desk, id: Id, r: B.Result)
    requires id in d.rows.at
  {
    var now := B.Pause(id, d.rows.at[id].pause);
    now in e.rows.outcome && e.rows.outcome[now] == r && (id in e.rows.at ==> !e.rows.at[id].paused)
  }

  lemma RemoveKeeps(d: B.Desk, gone: Id, id: Id, p: B.Pause)
    ensures
      var e := B.Step(d, B.Remove(gone));
      && (id != gone && id in d.rows.at ==> id in e.rows.at && e.rows.at[id] == d.rows.at[id])
      && (id == gone ==> id !in e.rows.at)
      && (id !in d.rows.at ==> id !in e.rows.at)
      && (p.id != gone && p in d.rows.outcome ==> p in e.rows.outcome && e.rows.outcome[p] == d.rows.outcome[p])
      && (gone !in d.rows.at ==> e == d)
      && (gone in d.rows.at && d.rows.at[gone].paused ==>
            var now := B.Pause(gone, d.rows.at[gone].pause);
            now in e.rows.outcome && e.rows.outcome[now] == B.NotFound)
  {
    hide B.Finished;
  }

  lemma {:induction false} RemovalsTell(d: B.Desk, ids: seq<Id>, id: Id)
    requires id in d.rows.at && d.rows.at[id].paused
    ensures
      var e := B.Run(d, Removals(ids));
      if id in ids then id !in e.rows.at && EndedWith(d, e, id, B.NotFound)
      else id in e.rows.at && e.rows.at[id] == d.rows.at[id]
    decreases |ids|
  {
    if ids != [] {
      var k := |ids| - 1;
      var es := Removals(ids);
      assert es[..k] == Removals(ids[..k]);
      RemovalsTell(d, ids[..k], id);
      var e := B.Run(d, es[..k]);
      assert B.Run(d, es) == B.Step(e, B.Remove(ids[k]));
      assert ids == ids[..k] + [ids[k]];
      RemoveKeeps(e, ids[k], id, B.Pause(id, d.rows.at[id].pause));
      hide B.Run, B.Step;
    }
  }

  /** The step that ends a call, on a row that is still there. */
  lemma EndTells(e: B.Desk, x: B.Event, id: Id)
    requires id in e.rows.at && e.rows.at[id].paused && e.rows.at.Keys <= e.rows.used
    requires x.Insert? || x.Wipe? || x.PauseRow? || x.EndPause?
    ensures
      var t := B.Step(e, x);
      if x.Wipe? then EndedWith(e, t, id, B.StaleEpoch)
      else if x.EndPause? && x.id == id then EndedWith(e, t, id, x.result)
      else id in t.rows.at && t.rows.at[id] == e.rows.at[id]
  {
    hide B.Finished, B.Failed;
  }

  /** On a row that is gone it changes nothing about how its last pause ended. */
  lemma EndKeepsGone(e: B.Desk, x: B.Event, id: Id, p: B.Pause)
    requires id !in e.rows.at && p.id == id && p in e.rows.outcome && id in e.rows.used
    requires x.Insert? || x.PauseRow? || x.EndPause?
    ensures
      var t := B.Step(e, x);
      id !in t.rows.at && p in t.rows.outcome && t.rows.outcome[p] == e.rows.outcome[p]
  {
    hide B.Finished;
  }

  /** How a call ends the pause of a row, if it does. */
  lemma CallTells(a: Inbox, d: B.Desk, c: Call, reply: int, id: Id)
    requires Inv(a) && id in d.rows.at && d.rows.at[id].paused && d.rows.at.Keys <= d.rows.used
    ensures
      var t := DeskAfter(a, d, c, reply);
      (id in t.rows.at && t.rows.at[id] == d.rows.at[id]) || EndedWith(d, t, id, Why(c, id, reply))
  {
    var gone, y := Evicts(a, c), Ends(a, c, reply);
    var e := B.Run(d, Removals(gone));
    RemovalsRemove(d, gone);
    RemovalsTell(d, gone, id);
    RunsOn(d, Removals(gone), y);
    EndNames(a, c, reply, id);
    hide Evicts, Ends, B.Run, B.Step;
    if y != [] {
      if id in gone {
        EndKeepsGone(e, y[0], id, B.Pause(id, d.rows.at[id].pause));
      } else {
        EndTells(e, y[0], id);
      }
    }
  }

  /** Which row the last step of a call is about, and how. */
  lemma EndNames(a: Inbox, c: Call, reply: int, id: Id)
    requires Inv(a)
    ensures
      var gone, y := Evicts(a, c), Ends(a, c, reply);
      && (id in gone ==> Why(c, id, reply) == B.NotFound)
      && |y| <= 1 && (y != [] ==> y[0].Insert? || y[0].Wipe? || y[0].PauseRow? || y[0].EndPause?)
      && (y != [] && y[0].Wipe? ==> gone == [] && Why(c, id, reply) == B.StaleEpoch)
      && (y != [] && y[0].EndPause? && y[0].id == id ==> y[0].result == Why(c, id, reply))
  {
    if c.CallResume? && c.id in a.rows {
      VictimsAreOthers(a.order, a.rows, c.id, Excess(a, c.id, PlainCharge(a, c.id, c.patch)));
    }
    hide Victims, EvictCount, OverCount, Resident, CapFlow, PatchVerdict, InsertVerdict, Indexed, Sorted;
  }

  /** In every interleaving: a waiting call whose row a call of the inbox takes out of its pause finds in its
      channel why: the reply of the resume, the drop, the expiry, a new epoch, or that the row is gone. */
  lemma CallsTellWhy(j: Joint, moves: seq<Move>, c: Call, reply: int, w: B.Waiter)
    requires Opening(j)
    requires
      var k := MoveRun(j, moves);
      && (c.CallInsert? ==> c.id !in k.desk.rows.used)
      && w in k.desk.waiters.ticket && w !in k.desk.waiters.returned && IsPaused(k.inbox, k.desk.waiters.ticket[w].id)
      && B.Listed(k.desk.waiters, w)
      && !IsPaused(MoveStep(k, Does(c, reply)).inbox, k.desk.waiters.ticket[w].id)
    ensures
      var k := MoveRun(j, moves);
      var t := MoveStep(k, Does(c, reply));
      w in t.desk.waiters.mail && t.desk.waiters.mail[w] == Why(c, k.desk.waiters.ticket[w].id, reply)
  {
    MovesInv(j, moves);
    hide *;
    MoveTellsWhy(MoveRun(j, moves), c, reply, w);
  }

  lemma MoveTellsWhy(k: Joint, c: Call, reply: int, w: B.Waiter)
    requires JointInv(k) && (c.CallInsert? ==> c.id !in k.desk.rows.used)
    requires w in k.desk.waiters.ticket && w !in k.desk.waiters.returned && B.Listed(k.desk.waiters, w)
    requires !IsPaused(MoveStep(k, Does(c, reply)).inbox, k.desk.waiters.ticket[w].id)
    ensures
      var t := MoveStep(k, Does(c, reply));
      w in t.desk.waiters.mail && t.desk.waiters.mail[w] == Why(c, k.desk.waiters.ticket[w].id, reply)
  {
    hide DeskAfter, B.Run, PlainStep, B.Inv, Inv, B.Listed, Why, Agree;
    var t := MoveStep(k, Does(c, reply));
    MoveInv(k, Does(c, reply));
    var id := k.desk.waiters.ticket[w].id;
    ListedPause(k.desk, w);
    CallTells(k.inbox, k.desk, c, reply, id);
    NotPausedThere(t, id);
    StepsWaitOn(k.inbox, k.desk, c, reply, w);
    MailOfEnded(t.desk, w);
  }

  lemma NotPausedThere(j: Joint, id: Id)
    requires JointInv(j) && !IsPaused(j.inbox, id)
    ensures id in j.desk.rows.at ==> !j.desk.rows.at[id].paused
  {
    hide Inv, B.Inv;
  }

  lemma StepsWaitOn(a: Inbox, d: B.Desk, c: Call, reply: int, w: B.Waiter)
    requires w in d.waiters.ticket && w !in d.waiters.returned
    ensures
      var p := DeskAfter(a, d, c, reply).waiters;
      w in p.ticket && p.ticket[w] == d.waiters.ticket[w] && w !in p.returned
  {
    hide Evicts, B.Run;
    WaitsOn(d, Removals(Evicts(a, c)) + Ends(a, c, reply), w);
  }

  /** A listed call waits for the pause its row is in. */
  lemma ListedPause(d: B.Desk, w: B.Waiter)
    requires B.Inv(d) && B.Listed(d.waiters, w)
    ensures
      var id := d.waiters.ticket[w].id;
      && id in d.rows.at && d.rows.at[id].paused && d.waiters.ticket[w] == B.Pause(id, d.rows.at[id].pause)
      && d.rows.at.Keys <= d.rows.used
  {
    assert B.ListOk(d.rows, d.waiters, d.waiters.ticket[w].id, d.waiters.lists[d.waiters.ticket[w].id]);
    forall id | id in d.rows.at ensures id in d.rows.used {
      assert B.RowOk(d.rows, id, d.rows.at[id]);
    }
  }

  /** Steps of the inbox neither return a call nor change what it waits for. */
  lemma {:induction false} WaitsOn(d: B.Desk, es: seq<B.Event>, w: B.Waiter)
    requires w in d.waiters.ticket && w !in d.waiters.returned
    requires forall e | e in es :: !e.Register? && !e.Receive? && !e.Cancel?
    ensures
      var p := B.Run(d, es).waiters;
      w in p.ticket && p.ticket[w] == d.waiters.ticket[w] && w !in p.returned
    decreases |es|
  {
    if es != [] {
      var k := |es| - 1;
      assert es[k] in es;
      WaitsOn(d, es[..k], w);
    }
  }

  lemma MailOfEnded(d: B.Desk, w: B.Waiter)
    requires B.Inv(d) && w in d.waiters.ticket && w !in d.waiters.returned && d.waiters.ticket[w] in d.rows.outcome
    ensures w in d.waiters.mail && d.waiters.mail[w] == d.rows.outcome[d.waiters.ticket[w]]
  {
    assert B.WaiterOk(d.rows, d.waiters, w);
    var id := d.waiters.ticket[w].id;
    if id in d.waiters.lists {
      assert B.ListOk(d.rows, d.waiters, id, d.waiters.lists[id]);
      assert B.RowOk(d.rows, id, d.rows.at[id]);
    }
  }
}
