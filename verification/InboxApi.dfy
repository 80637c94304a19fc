/**
 The whole mutable inbox: every operation of Memory (internal/store/memory.go,
 internal/store/breakpoint.go) on one store value, and the proof that a store that spills is
 indistinguishable, through Get, from one that does not.
 */
module InboxApi {
  import opened Flows
  import opened Lists
  import opened InboxSpec
  import opened InboxLaws
  import opened InboxRuns
  import opened InboxEffects
  import opened Spill
  import opened InboxStore
  import opened InboxMemory
  import opened InboxPatch

  // ---------------------------------------------------------------- the remaining operations

  function RemoveEach(a: Inbox, ids: seq<Id>): Inbox
    decreases |ids|
  {
    if ids == [] then a else Remove(RemoveEach(a, ids[..|ids| - 1]), ids[|ids| - 1], false)
  }

  lemma RemoveUncounted(a: Inbox, id: Id, evictions: nat)
    ensures
      Remove(a.(evictions := evictions), id, false) == Remove(a, id, true).(evictions := evictions)
  {
  }

  lemma LastOfDistinct(ids: seq<Id>)
    requires Distinct(ids) && ids != []
    ensures
      var k := |ids| - 1;
      && ids[k] in ids && ids[k] !in ids[..k] && ids[..k] + [ids[k]] == ids && Distinct(ids[..k])
      && forall x | x in ids[..k] :: x in ids
  {
  }

  /** Deleting rows one by one is evicting them, except for the eviction counter. */
  lemma {:induction false} RemoveEachIsEvict(a: Inbox, ids: seq<Id>)
    requires Indexed(a) && Distinct(ids) && forall x | x in ids :: x in a.rows
    ensures RemoveEach(a, ids) == Evict(a, ids).(evictions := a.evictions)
    decreases |ids|
  {
    if ids == [] {
      ExcludingNone(a.order, []);
      assert a.rows - Members([]) == a.rows;
    } else {
      var k := |ids| - 1;
      var before, id := ids[..k], ids[k];
      LastOfDistinct(ids);
      RemoveEachIsEvict(a, before);
      EvictIndexed(a, before);
      EvictSnoc(a, before, id);
      RemoveUncounted(Evict(a, before), id, a.evictions);
    }
  }

  lemma RemoveAllRows(a: Inbox)
    requires Indexed(a)
    ensures RemoveEach(a, a.order) == DeleteAll(a)
  {
    RemoveEachIsEvict(a, a.order);
    ExcludingPrefix(a.order, |a.order|);
    assert a.order[..|a.order|] == a.order;
    assert a.rows - Members(a.order) == map[];
  }

  function RemoveRecords(s: Store, ids: seq<Id>): (t: Store)
    ensures SameOptions(s, t)
    decreases |ids|
  {
    if ids == [] then s else RemoveRecord(RemoveRecords(s, ids[..|ids| - 1]), ids[|ids| - 1], false)
  }

  lemma {:induction false} RemoveRecordsLinked(s: Store, ids: seq<Id>)
    requires Linked(s, {})
    ensures Linked(RemoveRecords(s, ids), {}) && Abs(RemoveRecords(s, ids)) == RemoveEach(Abs(s), ids)
    decreases |ids|
  {
    if ids != [] {
      RemoveRecordsLinked(s, ids[..|ids| - 1]);
      RemoveRecordLinked(RemoveRecords(s, ids[..|ids| - 1]), ids[|ids| - 1], false, {});
    }
  }

  /** DeleteAll: one removal per listed id. */
  method DeleteRows(s: Store) returns (t: Store, n: nat)
    requires Valid(s)
    ensures Valid(t) && Abs(t) == DeleteAll(Abs(s)) && SameOptions(s, t)
    ensures n == |s.core.order| && t.byID == map[]
  {
    t := RemoveEachLocked(s, s.core.order);
    RemoveRecordsLinked(s, s.core.order);
    RemoveAllRows(Abs(s));
    DeleteAllInv(Abs(s));
    ValidFrom(t, DeleteAll(Abs(s)));
    NoRecords(t);
    n := |s.core.order|;
  }

  method RemoveEachLocked(s: Store, ids: seq<Id>) returns (t: Store)
    ensures t == RemoveRecords(s, ids)
  {
    t := s;
    for i := 0 to |ids|
      invariant t == RemoveRecords(s, ids[..i])
    {
      assert ids[..i + 1][..i] == ids[..i];
      t := RemoveLocked(t, ids[i], false);
    }
    assert ids[..|ids|] == ids;
  }

  lemma NoRecords(t: Store)
    requires Abs(t).rows == map[]
    ensures t.byID == map[]
  {
    assert forall id :: id in t.byID ==> id in Abs(t).rows;
  }

  /** ReplaceCaps: once it starts evicting it cannot fail. */
  method SwapCaps(s: Store, caps: Caps, force: bool) returns (t: Store, r: Refusal)
    requires Valid(s)
    ensures Valid(t) && SubIndex(t.byID, s.byID) && SameOptions(s, t)
    ensures !GoodCaps(caps) ==> r == Refused(BadOptions)
    ensures GoodCaps(caps) ==>
      r == if ReplaceRefused(Abs(s), caps, force) then Refused(OverNewCap) else Accepted
    ensures r.Refused? ==> t == s
    ensures r.Accepted? ==> Abs(t) == ReplaceCaps(Abs(s), caps)
    ensures CapsAnswer(Abs(s), caps, force, r)
  {
    hide CapsAnswer;
    CapsAnswered(s, caps, force);
    if !GoodCaps(caps) {
      return s, Refused(BadOptions);
    }
    var over := |s.core.order| > caps.maxFlows || s.core.bytes > caps.maxBytes;
    if over && !caps.evictOldest && !force {
      return s, Refused(OverNewCap);
    }
    var c := s.(core := s.core.(caps := caps));
    ReplaceCapsInv(Abs(s), caps);
    CapsSwapped(s, caps);
    if !over {
      NothingOver(s, caps);
      return c, Accepted;
    }
    hide Inv, Indexed, FilesOk, ReplaceCaps, SubIndex, OverCount, Evict;
    var ok;
    t, ok := EvictUntilUnderCaps(c);
    // the error return after the loop is unreachable
    SwappedUnder(Abs(s), caps);
    assert ok;
    return t, Accepted;
  }

  lemma CapsAnswered(s: Store, caps: Caps, force: bool)
    ensures CapsAnswer(Abs(s), caps, force,
                       if !GoodCaps(caps) then Refused(BadOptions)
                       else if ReplaceRefused(Abs(s), caps, force) then Refused(OverNewCap)
                       else Accepted)
  {
  }

  lemma CapsSwapped(s: Store, caps: Caps)
    requires Linked(s, {})
    ensures
      var c := s.(core := s.core.(caps := caps));
      Abs(c) == Abs(s).(caps := caps) && Linked(c, {})
  {
  }

  lemma NothingOver(s: Store, caps: Caps)
    requires Valid(s) && |s.core.order| <= caps.maxFlows && s.core.bytes <= caps.maxBytes && GoodCaps(caps)
    ensures
      var c := s.(core := s.core.(caps := caps));
      Valid(c) && Abs(c) == ReplaceCaps(Abs(s), caps)
  {
    var c := s.(core := s.core.(caps := caps));
    ReplaceCapsInv(Abs(s), caps);
    CapsSwapped(s, caps);
    NoneOver(Abs(s), caps);
    EvictNone(c);
    assert c.core.order[..0] == [];
    ValidFrom(c, ReplaceCaps(Abs(s), caps));
  }

  /** The loop's evictions are those of the specification. */
  lemma SwappedUnder(a: Inbox, caps: Caps)
    requires Inv(ReplaceCaps(a, caps))
    ensures
      var b := a.(caps := caps);
      && UnderCaps(ReplaceCaps(a, caps))
      && Evict(b, b.order[..OverCount(b.order, b.rows, b.bytes, b.caps)]) == ReplaceCaps(a, caps)
  {
    hide Evict, OverCount;
  }

  lemma NoneOver(a: Inbox, caps: Caps)
    requires |a.order| <= caps.maxFlows && a.bytes <= caps.maxBytes
    ensures OverCount(a.order, a.rows, a.bytes, caps) == 0
  {
  }

  /** Wipe and ResetTo: a new epoch, no rows, no spill files. */
  method Reset(s: Store, caps: Caps, spillOn: bool, threshold: nat) returns (t: Store)
    requires Valid(s) && GoodCaps(caps) && (spillOn ==> threshold > 0)
    ensures Valid(t) && Abs(t) == Wipe(Abs(s)).(caps := caps)
    ensures t.byID == map[] && Live(t.files) == map[] && OptionsOf(t) == Spilling(spillOn, threshold)
  {
    var core := Core(caps, [], 0, s.core.generation + 1, s.core.evictions, s.core.epoch + 1);
    t := Store(core, map[], map[], spillOn, threshold);
    assert Loaded(t.byID, Live(t.files)) == map[];
  }

  /** The spill options a store runs under. */
  datatype Spilling = Spilling(on: bool, threshold: nat)

  function OptionsOf(s: Store): Spilling {
    Spilling(s.spillOn, s.threshold)
  }

  // ---------------------------------------------------------------- honest stores

  /** Every row's sizes describe what Get loads for it. The capture code keeps to that. */
  ghost predicate HonestStore(s: Store) {
    forall id | id in s.byID :: HonestRecord(s.byID[id], Load(s.byID[id], id, Live(s.files)))
  }

  ghost predicate HonestRecord(rec: Record, g: Flow) {
    Honest(g) && (rec.wsSpill ==> rec.flow.ws == Cleared(g.ws)) && (!rec.wsSpill ==> rec.flow.ws == g.ws)
  }

  /** In an honest store the charge of a patch is the one a store that never spills would make. */
  lemma HonestCharge(s: Store, id: Id, p: Patch)
    requires Linked(s, {}) && HonestStore(s) && id in s.byID
    ensures PatchCharge(s, id, p) == Resident(Patched(Abs(s).rows[id].flow, p))
  {
    var rec := s.byID[id];
    var g := Load(rec, id, Live(s.files));
    assert HonestRecord(rec, g);
    if rec.wsSpill {
      ClearedFramesCost(g.ws);
    }
    PatchCost(rec, id, p, Live(s.files));
  }

  /** Rows other than id that survive an operation unchanged stay honest. */
  lemma HonestSurvives(s: Store, t: Store, id: Id)
    requires HonestStore(s) && SubIndex(t.byID - {id}, s.byID)
    requires forall x | x in t.byID && x != id :: x in Abs(s).rows && Abs(t).rows[x].flow == Abs(s).rows[x].flow
    requires id in t.byID ==> HonestRecord(t.byID[id], Abs(t).rows[id].flow)
    ensures HonestStore(t)
  {
    forall x | x in t.byID ensures HonestRecord(t.byID[x], Load(t.byID[x], x, Live(t.files))) {
      if x != id {
        assert x in t.byID - {id};
        assert HonestRecord(s.byID[x], Load(s.byID[x], x, Live(s.files)));
        assert Abs(t).rows[x].flow == Load(t.byID[x], x, Live(t.files));
      }
    }
  }

  lemma HonestSub(s: Store, t: Store)
    requires HonestStore(s) && SubIndex(t.byID, s.byID)
    requires forall x | x in t.byID :: x in Abs(s).rows && Abs(t).rows[x].flow == Abs(s).rows[x].flow
    ensures HonestStore(t)
  {
    forall x | x in t.byID ensures HonestRecord(t.byID[x], Load(t.byID[x], x, Live(t.files))) {
      assert HonestRecord(s.byID[x], Load(s.byID[x], x, Live(s.files)));
      assert Abs(t).rows[x].flow == Load(t.byID[x], x, Live(t.files));
    }
  }

  lemma PatchedHonest(f: Flow, p: Patch)
    requires Honest(f)
    ensures Honest(Resumed(Patched(f, p))) && Resumed(Patched(f, p)).ws == f.ws
  {
  }

  // ---------------------------------------------------------------- operations as values

  /** The operations of the store with their file-system luck. */
  datatype Call =
    | CallInsert(epoch: nat, id: Id, flow: Flow, seen: Caps, writeFails: set<Side>, renameFails: set<Side>)
    | CallDelete(id: Id)
    | CallDeleteAll
    | CallWipe
    | CallResetTo(caps: Caps, spillOn: bool, threshold: nat)
    | CallReplaceCaps(caps: Caps, force: bool)
    | CallPause(id: Id)
    | CallResume(id: Id, patched: bool, patch: Patch, stageFails: bool, commitFails: bool)
    | CallDrop(id: Id)
    | CallExpire(id: Id, now: nat)

  /** The charge a store without spill files makes for a patched row. */
  function PlainCharge(a: Inbox, id: Id, p: Patch): nat {
    if id in a.rows then Resident(Patched(a.rows[id].flow, p)) else 0
  }

  /** The same call on a store that never spills. */
  function Plain(c: Call, a: Inbox): Op {
    match c
    case CallInsert(epoch, id, f, seen, _, _) =>
      var capped := CapFlow(f, if seen.maxBody > 0 then seen.maxBody else 0);
      OpInsert(id, capped, Resident(capped), seen, epoch)
    case CallDelete(id) => OpDelete(id)
    case CallDeleteAll => OpDeleteAll
    case CallWipe => OpWipe
    case CallResetTo(caps, _, _) => OpResetTo(caps)
    case CallReplaceCaps(caps, force) => OpReplaceCaps(caps, force)
    case CallPause(id) => OpPause(id)
    case CallResume(id, patched, p, _, _) =>
      OpResume(id, patched, p, PlainCharge(a, id, p))
    case CallDrop(id) => OpDrop(id)
    case CallExpire(id, now) => OpExpire(id, now)
  }

  function PlainStep(a: Inbox, c: Call): Inbox {
    Step(a, Plain(c, a))
  }

  lemma ResumeIsPlainStep(a: Inbox, c: Call)
    requires c.CallResume?
    ensures PlainStep(a, c) == ResumeStep(a, c.id, c.patched, c.patch, PlainCharge(a, c.id, c.patch))
  {
  }

  lemma LosslessPlainStep(a: Inbox, c: Call)
    ensures c.CallDelete? ==> PlainStep(a, c) == Step(a, OpDelete(c.id))
    ensures c.CallDeleteAll? ==> PlainStep(a, c) == DeleteAll(a)
    ensures c.CallWipe? ==> PlainStep(a, c) == Wipe(a).(caps := a.caps)
    ensures c.CallResetTo? && GoodCaps(c.caps) ==> PlainStep(a, c) == Wipe(a).(caps := c.caps)
    ensures c.CallReplaceCaps? ==> PlainStep(a, c) == Step(a, OpReplaceCaps(c.caps, c.force))
    ensures c.CallPause? ==> PlainStep(a, c) == if c.id in a.rows then InboxSpec.Pause(a, c.id) else a
    ensures c.CallDrop? ==> PlainStep(a, c) == if IsPaused(a, c.id) then InboxSpec.Drop(a, c.id) else a
    ensures c.CallExpire? ==> PlainStep(a, c) == if IsPaused(a, c.id) then InboxSpec.Expire(a, c.id, c.now) else a
  {
  }

  /** What callers owe the store: captured flows under caps the store has had, and options that
      passed normalizeOptions. */
  predicate Proper(c: Call) {
    match c
    case CallInsert(_, _, f, seen, _, _) => Captured(f) && GoodCaps(seen)
    case CallResetTo(caps, spillOn, threshold) => GoodCaps(caps) && (spillOn ==> threshold > 0)
    case _ => true
  }

  // ---------------------------------------------------------------- effects

  ghost predicate PausedIn(a: Inbox, id: Id) {
    id in a.rows && a.rows[id].flow.state == Paused
  }

  /** A patched resume: accepted exactly when its row fits, charged what the row then shows. */
  ghost predicate PatchEffects(a: Inbox, b: Inbox, id: Id, p: Patch)
    requires id in a.rows
  {
    forall g | ResumedFlow(a.rows[id].flow, g, true, p) ::
      if ResumeAnswers(a, id, true, p, Resident(g), false, Accepted) then
        Released(a, b, id, true, p, b.evictions - a.evictions) && b.rows[id].size == Resident(g)
      else b == a
  }

  /** What a call that is not lost does, told by what callers see. */
  ghost predicate CallEffect(a: Inbox, c: Call, b: Inbox) {
    match c
    case CallInsert(epoch, id, f, seen, _, _) =>
      var capped := CapFlow(f, if seen.maxBody > 0 then seen.maxBody else 0);
      if id !in a.rows && InsertAnswers(a, seen, epoch, Resident(capped), Accepted)
        then Inserted(a, b, id, capped, Resident(capped))
      else b == a
    case CallDelete(id) => if id in a.rows then Deleted(a, b, id) else b == a
    case CallDeleteAll => NothingLeft(a, b, a.caps) && b.generation == a.generation + |a.order| && b.epoch == a.epoch
    case CallWipe => NothingLeft(a, b, a.caps) && b.generation == a.generation + 1 && b.epoch == a.epoch + 1
    case CallResetTo(caps, _, _) =>
      NothingLeft(a, b, caps) && b.generation == a.generation + 1 && b.epoch == a.epoch + 1
    case CallReplaceCaps(caps, force) =>
      if CapsAnswer(a, caps, force, Accepted) then Recapped(a, b, caps) else b == a
    case CallPause(id) =>
      if id in a.rows && a.rows[id].flow.state != Paused then OneFlow(a, b, id, a.rows[id].flow.(state := Paused))
      else b == a
    case CallResume(id, patched, p, _, _) =>
      if !PausedIn(a, id) then b == a
      else if patched then PatchEffects(a, b, id, p)
      else Released(a, b, id, false, p, 0)
    case CallDrop(id) =>
      if PausedIn(a, id) then OneFlow(a, b, id, a.rows[id].flow.(state := Dropped)) else b == a
    case CallExpire(id, now) =>
      if PausedIn(a, id)
        then OneFlow(a, b, id, a.rows[id].flow.(state := Completed, timedOut := true, completedAt := now))
      else b == a
  }

  lemma PatchEffected(a: Inbox, id: Id, p: Patch)
    requires Inv(a) && PausedIn(a, id)
    ensures PatchEffects(a, ResumeStep(a, id, true, p, PlainCharge(a, id, p)), id, p)
  {
    hide Resident, Released, ResumedFlow, Inv, ApplyPatch, Resume, Patched, Resumed;
    var was, next := a.rows[id].flow, PlainCharge(a, id, p);
    PatchResumes(was, p);
    forall g | ResumedFlow(was, g, true, p) ensures Resident(g) == next {
      ResumedUnique(was, g, Resumed(Patched(was, p)), true, p);
    }
    if PatchVerdict(a, id, p, next).Accepted? {
      PatchedStep(a, id, p, next);
    }
  }

  lemma InsertEffected(a: Inbox, c: Call)
    requires Inv(a) && c.CallInsert?
    ensures CallEffect(a, c, PlainStep(a, c))
  {
    hide Resident, Inserted, CapFlow, Inv, Insert;
    var capped := CapFlow(c.flow, if c.seen.maxBody > 0 then c.seen.maxBody else 0);
    InsertAnswered(a, c.seen, c.epoch, Resident(capped));
    if c.id !in a.rows {
      InsertEffect(a, c.id, capped, Resident(capped));
    }
  }

  lemma StampEffected(a: Inbox, c: Call)
    requires c.CallPause? || c.CallDrop? || c.CallExpire?
    ensures CallEffect(a, c, PlainStep(a, c))
  {
    LosslessPlainStep(a, c);
    hide PlainStep, OneFlow, Restate;
    if c.id in a.rows {
      var f := a.rows[c.id].flow;
      match c
      case CallPause(id) => RestateEffect(a, id, f.(state := Paused));
      case CallDrop(id) => RestateEffect(a, id, f.(state := Dropped));
      case CallExpire(id, now) => RestateEffect(a, id, f.(state := Completed, timedOut := true, completedAt := now));
    }
  }

  lemma RemovalEffected(a: Inbox, c: Call)
    requires Inv(a) && Proper(c)
    requires c.CallDelete? || c.CallDeleteAll? || c.CallWipe? || c.CallResetTo? || c.CallReplaceCaps?
    ensures CallEffect(a, c, PlainStep(a, c))
  {
    hide ReplaceCaps, Recapped, Remove, Deleted, Inv;
    match c
    case CallDelete(id) =>
      if id in a.rows {
        RemoveEffect(a, id);
      } else {
        RemoveMissing(a, id);
      }
    case CallReplaceCaps(caps, force) =>
      if GoodCaps(caps) {
        ReplaceEffect(a, caps);
      }
    case _ =>
  }

  lemma RemoveMissing(a: Inbox, id: Id)
    requires id !in a.rows
    ensures Remove(a, id, false) == a
  {
  }

  /** Every call that is not lost does what callers are told it does. */
  lemma CallTold(a: Inbox, c: Call)
    requires Inv(a) && Proper(c)
    ensures CallEffect(a, c, PlainStep(a, c))
  {
    if c.CallInsert? {
      InsertEffected(a, c);
    } else if c.CallResume? {
      ResumeIsPlainStep(a, c);
      if PausedIn(a, c.id) {
        PatchEffected(a, c.id, c.patch);
        UnpatchedStep(a, c.id, c.patch, PlainCharge(a, c.id, c.patch));
      }
      hide PlainStep, PatchEffects, Released, Inv, ResumeStep;
    } else if c.CallPause? || c.CallDrop? || c.CallExpire? {
      StampEffected(a, c);
    } else {
      RemovalEffected(a, c);
    }
  }

  // ---------------------------------------------------------------- file failures

  /** Some file operation of the call is bound to fail. */
  predicate MayFail(c: Call) {
    match c
    case CallInsert(_, _, _, _, writeFails, renameFails) => writeFails != {} || renameFails != {}
    case CallResume(_, _, _, stageFails, commitFails) => stageFails || commitFails
    case _ => false
  }

  /** Whether a failing file operation is reached, told from what callers see and the spill options. */
  predicate Loses(a: Inbox, o: Spilling, c: Call) {
    match c
    case CallInsert(_, _, _, _, _, _) => InsertLoses(a, o, c)
    case CallResume(id, patched, p, stageFails, commitFails) =>
      ResumeLoses(a, o, id, patched, p, stageFails || commitFails)
    case _ => false
  }

  predicate InsertLoses(a: Inbox, o: Spilling, c: Call)
    requires c.CallInsert?
  {
    var capped := CapFlow(c.flow, if c.seen.maxBody > 0 then c.seen.maxBody else 0);
    && c.id !in a.rows
    && InsertOutcome(a, o.on, o.threshold, c.epoch, capped, c.seen, c.writeFails, c.renameFails)
       == Refused(SpillFailed)
  }

  predicate ResumeLoses(a: Inbox, o: Spilling, id: Id, patched: bool, p: Patch, fails: bool) {
    && fails && patched && p.body.SetBody? && Big(p.body.body, o.on, o.threshold)
    && IsPaused(a, id) && PatchVerdict(a, id, p, PlainCharge(a, id, p)).Accepted?
  }

  lemma OnlyFailuresLose(a: Inbox, o: Spilling, c: Call)
    ensures Loses(a, o, c) ==> MayFail(c)
  {
  }

  function OptionsAfter(o: Spilling, c: Call): Spilling {
    if c.CallResetTo? then Spilling(c.spillOn, c.threshold) else o
  }

  method DoInsert(s: Store, c: Call) returns (t: Store, lost: bool)
    requires Valid(s) && HonestStore(s) && Proper(c) && c.CallInsert?
    ensures Valid(t) && HonestStore(t) && SameOptions(s, t)
    ensures Abs(t) == if lost then Abs(s) else PlainStep(Abs(s), c)
    ensures lost <==> InsertLoses(Abs(s), OptionsOf(s), c)
  {
    if c.id in s.byID {
      return s, false;
    }
    var capped := CapFlow(c.flow, c.seen.maxBody);
    CapFlowHonest(c.flow, c.seen.maxBody);
    var r;
    t, r := InsertFlow(s, c.epoch, c.id, c.flow, c.seen, c.writeFails, c.renameFails);
    lost := r == Refused(SpillFailed);
    if r.Accepted? {
      InsertKeepsRows(Abs(s), c.id, capped, Resident(capped));
      HonestSurvives(s, t, c.id);
    } else {
      HonestSub(s, t);
    }
  }

  lemma InsertKeepsRows(a: Inbox, id: Id, f: Flow, size: nat)
    requires id !in a.rows
    ensures
      var b := InboxSpec.Insert(a, id, f, size);
      && id in b.rows && b.rows[id].flow == f
      && (forall x | x in b.rows && x != id :: x in a.rows && b.rows[x] == a.rows[x])
  {
  }

  lemma PatchKeepsRows(a: Inbox, id: Id, p: Patch, next: nat)
    requires Inv(a) && id in a.rows && PatchVerdict(a, id, p, next).Accepted?
    ensures
      var b := ApplyPatch(a, id, p, next);
      && id in b.rows && b.rows[id].flow == Patched(a.rows[id].flow, p)
      && (forall x | x in b.rows && x != id :: x in a.rows && b.rows[x] == a.rows[x])
  {
    ApplyPatchInv(a, id, p, next);
  }

  /** Resume touches the flow of its own row only, and keeps honest flows honest. */
  lemma ResumeStepRows(a: Inbox, id: Id, patched: bool, p: Patch, next: nat)
    requires Inv(a) && IsPaused(a, id) && Honest(a.rows[id].flow)
    ensures
      var b := ResumeStep(a, id, patched, p, next);
      && id in b.rows && Honest(b.rows[id].flow) && b.rows[id].flow.ws == a.rows[id].flow.ws
      && (forall x | x in b.rows && x != id :: x in a.rows && b.rows[x] == a.rows[x])
  {
    PatchedHonest(a.rows[id].flow, p);
    if patched && PatchVerdict(a, id, p, next).Accepted? {
      PatchKeepsRows(a, id, p, next);
    }
  }

  lemma ResumeHonest(s: Store, t: Store, id: Id, patched: bool, p: Patch, next: nat)
    requires Valid(s) && HonestStore(s) && IsPaused(Abs(s), id)
    requires Abs(t) == ResumeStep(Abs(s), id, patched, p, next)
    requires id in t.byID && SubIndex(t.byID - {id}, s.byID)
    requires t.byID[id].wsSpill == s.byID[id].wsSpill && t.byID[id].flow.ws == s.byID[id].flow.ws
    ensures HonestStore(t)
  {
    assert HonestRecord(s.byID[id], Abs(s).rows[id].flow);
    ResumeStepRows(Abs(s), id, patched, p, next);
    HonestSurvives(s, t, id);
  }

  lemma RefusedResumeIsNoStep(s: Store, id: Id, patched: bool, p: Patch)
    requires Linked(s, {}) && HonestStore(s) && ResumeVerdict(s, id, patched, p).Refused?
    ensures ResumeStep(Abs(s), id, patched, p, PlainCharge(Abs(s), id, p)) == Abs(s)
  {
    if id in s.byID {
      HonestCharge(s, id, p);
      PausedSeen(s, id);
    }
  }

  lemma ResumeLosesExactly(s: Store, id: Id, patched: bool, p: Patch, fails: bool)
    requires Linked(s, {}) && HonestStore(s)
    ensures PatchOutcome(ResumeVerdict(s, id, patched, p), patched && PatchSpills(s, p), fails) == Refused(SpillFailed)
            <==> ResumeLoses(Abs(s), OptionsOf(s), id, patched, p, fails)
  {
    hide Linked, HonestStore, Resident, Patched, Big;
    if id in s.byID {
      HonestCharge(s, id, p);
      PausedSeen(s, id);
    }
  }

  method DoResume(s: Store, id: Id, patched: bool, p: Patch, stageFails: bool, commitFails: bool)
    returns (t: Store, lost: bool)
    requires Valid(s) && HonestStore(s)
    ensures Valid(t) && HonestStore(t) && SameOptions(s, t)
    ensures Abs(t) == if lost then Abs(s) else ResumeStep(Abs(s), id, patched, p, PlainCharge(Abs(s), id, p))
    ensures lost <==> ResumeLoses(Abs(s), OptionsOf(s), id, patched, p, stageFails || commitFails)
  {
    var r;
    t, r := ResumeFlow(s, id, patched, p, stageFails, commitFails);
    lost := r == Refused(SpillFailed);
    ResumeLosesExactly(s, id, patched, p, stageFails || commitFails);
    if r.Accepted? {
      HonestCharge(s, id, p);
      ResumeHonest(s, t, id, patched, p, PatchCharge(s, id, p));
    } else {
      HonestSub(s, t);
      if !lost {
        RefusedResumeIsNoStep(s, id, patched, p);
      }
    }
  }

  lemma StampHonest(s: Store, id: Id, state: State, timedOut: bool, completedAt: nat)
    requires Valid(s) && HonestStore(s) && id in s.byID
    ensures HonestStore(StampRecord(s, id, state, timedOut, completedAt))
  {
    var t := StampRecord(s, id, state, timedOut, completedAt);
    var live := Live(s.files);
    forall x | x in t.byID ensures HonestRecord(t.byID[x], Load(t.byID[x], x, live)) {
      assert HonestRecord(s.byID[x], Load(s.byID[x], x, live));
      if x == id {
        StampedHonest(s.byID[id], id, live, state, timedOut, completedAt);
      }
    }
  }

  lemma StampedHonest(rec: Record, id: Id, live: Files, state: State, timedOut: bool, completedAt: nat)
    requires HonestRecord(rec, Load(rec, id, live))
    ensures
      var stamped := rec.(flow := Stamped(rec.flow, state, timedOut, completedAt));
      HonestRecord(stamped, Load(stamped, id, live))
  {
    StampLoads(rec, id, live, state, timedOut, completedAt);
  }

  /** The state changes Pause, Drop and ExpireBreakpoint make. */
  method Stamp(s: Store, id: Id, state: State, timedOut: bool, completedAt: nat) returns (t: Store)
    requires Valid(s) && HonestStore(s) && id in s.byID
    ensures Valid(t) && HonestStore(t) && SameOptions(s, t)
    ensures Abs(t) == Restate(Abs(s), id, Stamped(Abs(s).rows[id].flow, state, timedOut, completedAt))
  {
    StampRecordValid(s, id, state, timedOut, completedAt);
    StampHonest(s, id, state, timedOut, completedAt);
    return StampRecord(s, id, state, timedOut, completedAt);
  }

  lemma StampIsPause(a: Inbox, id: Id)
    requires id in a.rows && a.rows[id].flow.state != Paused
    ensures
      var f := a.rows[id].flow;
      Restate(a, id, Stamped(f, Paused, f.timedOut, f.completedAt)) == InboxSpec.Pause(a, id)
  {
  }

  lemma StampIsDrop(a: Inbox, id: Id)
    requires id in a.rows
    ensures
      var f := a.rows[id].flow;
      Restate(a, id, Stamped(f, Dropped, f.timedOut, f.completedAt)) == InboxSpec.Drop(a, id)
  {
  }

  lemma StampIsExpire(a: Inbox, id: Id, now: nat)
    requires id in a.rows
    ensures Restate(a, id, Stamped(a.rows[id].flow, Completed, true, now)) == InboxSpec.Expire(a, id, now)
  {
  }

  lemma StoredStamps(s: Store, id: Id)
    requires id in s.byID
    ensures
      var f := Abs(s).rows[id].flow;
      && id in Abs(s).rows && f.state == s.byID[id].flow.state
      && f.timedOut == s.byID[id].flow.timedOut && f.completedAt == s.byID[id].flow.completedAt
  {
  }

  method DoPause(s: Store, id: Id) returns (t: Store)
    requires Valid(s) && HonestStore(s)
    ensures Valid(t) && HonestStore(t) && SameOptions(s, t)
    ensures Abs(t) == if id in Abs(s).rows then InboxSpec.Pause(Abs(s), id) else Abs(s)
  {
    if id !in s.byID {
      return s;
    }
    StoredStamps(s, id);
    if s.byID[id].flow.state == Paused {
      return s;
    }
    StampIsPause(Abs(s), id);
    t := Stamp(s, id, Paused, s.byID[id].flow.timedOut, s.byID[id].flow.completedAt);
  }

  method DoDrop(s: Store, id: Id) returns (t: Store)
    requires Valid(s) && HonestStore(s)
    ensures Valid(t) && HonestStore(t) && SameOptions(s, t)
    ensures Abs(t) == if IsPaused(Abs(s), id) then InboxSpec.Drop(Abs(s), id) else Abs(s)
  {
    if id !in s.byID {
      return s;
    }
    StoredStamps(s, id);
    if s.byID[id].flow.state != Paused {
      return s;
    }
    StampIsDrop(Abs(s), id);
    t := Stamp(s, id, Dropped, s.byID[id].flow.timedOut, s.byID[id].flow.completedAt);
  }

  method DoExpire(s: Store, id: Id, now: nat) returns (t: Store)
    requires Valid(s) && HonestStore(s)
    ensures Valid(t) && HonestStore(t) && SameOptions(s, t)
    ensures Abs(t) == if IsPaused(Abs(s), id) then InboxSpec.Expire(Abs(s), id, now) else Abs(s)
  {
    if id !in s.byID {
      return s;
    }
    StoredStamps(s, id);
    if s.byID[id].flow.state != Paused {
      return s;
    }
    StampIsExpire(Abs(s), id, now);
    t := Stamp(s, id, Completed, true, now);
  }

  lemma RemoveValid(s: Store, id: Id)
    requires Valid(s)
    ensures
      var t := RemoveRecord(s, id, false);
      Valid(t) && Abs(t) == Remove(Abs(s), id, false) && SubIndex(t.byID, s.byID)
  {
    RemoveRecordLinked(s, id, false, {});
    DeleteInv(Abs(s), id);
  }

  lemma RemovedRows(a: Inbox, t: Store, id: Id)
    requires Abs(t) == Remove(a, id, false)
    ensures forall x | x in t.byID :: x in a.rows && Abs(t).rows[x].flow == a.rows[x].flow
  {
    hide Without, Live;
    forall x | x in t.byID ensures x in Abs(t).rows && x in a.rows && Abs(t).rows[x].flow == a.rows[x].flow {
      assert x in Loaded(t.byID, Live(t.files));
    }
  }

  lemma RemoveHonest(s: Store, id: Id)
    requires Valid(s) && HonestStore(s)
    ensures HonestStore(RemoveRecord(s, id, false))
  {
    hide Valid, HonestStore, RemoveRecord, SubIndex, Abs, Remove;
    RemoveValid(s, id);
    RemovedRows(Abs(s), RemoveRecord(s, id, false), id);
    HonestSub(s, RemoveRecord(s, id, false));
  }

  method DoDelete(s: Store, id: Id) returns (t: Store)
    requires Valid(s) && HonestStore(s)
    ensures Valid(t) && HonestStore(t) && SameOptions(s, t) && Abs(t) == Step(Abs(s), OpDelete(id))
  {
    RemoveValid(s, id);
    RemoveHonest(s, id);
    t := RemoveLocked(s, id, false);
  }

  lemma ReplaceCapsKeepsRows(a: Inbox, caps: Caps, x: Id)
    requires x in ReplaceCaps(a, caps).rows
    ensures x in a.rows && ReplaceCaps(a, caps).rows[x] == a.rows[x]
  {
  }

  lemma ReplaceHonest(s: Store, t: Store, caps: Caps)
    requires HonestStore(s) && SubIndex(t.byID, s.byID) && Abs(t) == ReplaceCaps(Abs(s), caps)
    ensures HonestStore(t)
  {
    forall x | x in t.byID ensures x in Abs(s).rows && Abs(t).rows[x].flow == Abs(s).rows[x].flow {
      hide HonestStore, SubIndex, ReplaceCaps;
      assert x in Abs(t).rows;
      ReplaceCapsKeepsRows(Abs(s), caps, x);
    }
    hide HonestStore, SubIndex, ReplaceCaps;
    HonestSub(s, t);
  }

  method DoReplaceCaps(s: Store, caps: Caps, force: bool) returns (t: Store)
    requires Valid(s) && HonestStore(s)
    ensures Valid(t) && HonestStore(t) && SameOptions(s, t) && Abs(t) == Step(Abs(s), OpReplaceCaps(caps, force))
  {
    hide Valid, HonestStore, SubIndex, ReplaceCaps;
    var r;
    t, r := SwapCaps(s, caps, force);
    if r.Accepted? {
      ReplaceHonest(s, t, caps);
    }
  }

  method DoLossless(s: Store, c: Call) returns (t: Store)
    requires Valid(s) && HonestStore(s) && Proper(c) && !c.CallInsert? && !c.CallResume?
    ensures Valid(t) && HonestStore(t) && Abs(t) == PlainStep(Abs(s), c)
    ensures OptionsOf(t) == OptionsAfter(OptionsOf(s), c)
  {
    LosslessPlainStep(Abs(s), c);
    match c
    case CallDelete(id) => t := DoDelete(s, id);
    case CallDeleteAll =>
      var n;
      t, n := DeleteRows(s);
    case CallWipe => t := Reset(s, s.core.caps, s.spillOn, s.threshold);
    case CallResetTo(caps, spillOn, threshold) => t := Reset(s, caps, spillOn, threshold);
    case CallReplaceCaps(caps, force) => t := DoReplaceCaps(s, caps, force);
    case CallPause(id) => t := DoPause(s, id);
    case CallDrop(id) => t := DoDrop(s, id);
    case CallExpire(id, now) => t := DoExpire(s, id, now);
  }

  /** One call. It is lost exactly when it reaches a failing file operation, and then it changes nothing
      callers see; otherwise callers see the step of a store that never spills. */
  method Do(s: Store, c: Call) returns (t: Store, lost: bool)
    requires Valid(s) && HonestStore(s) && Proper(c)
    ensures Valid(t) && HonestStore(t)
    ensures Abs(t) == if lost then Abs(s) else PlainStep(Abs(s), c)
    ensures lost <==> Loses(Abs(s), OptionsOf(s), c)
    ensures lost ==> MayFail(c)
    ensures OptionsOf(t) == OptionsAfter(OptionsOf(s), c)
  {
    OnlyFailuresLose(Abs(s), OptionsOf(s), c);
    lost := false;
    if c.CallInsert? {
      t, lost := DoInsert(s, c);
    } else if c.CallResume? {
      ResumeIsPlainStep(Abs(s), c);
      t, lost := DoResume(s, c.id, c.patched, c.patch, c.stageFails, c.commitFails);
    } else {
      t := DoLossless(s, c);
    }
  }

  // ---------------------------------------------------------------- charges are resident sizes

  /** Every row is charged the resident size of the flow callers see. */
  ghost predicate Priced(a: Inbox) {
    forall id | id in a.rows :: a.rows[id].size == Resident(a.rows[id].flow)
  }

  /** The resident sizes of a list of rows. */
  function ResidentSum(order: seq<Id>, rows: map<Id, Row>): nat {
    if order == [] then 0
    else (if order[0] in rows then Resident(rows[order[0]].flow) else 0) + ResidentSum(order[1..], rows)
  }

  lemma {:induction false} PricedCharge(order: seq<Id>, rows: map<Id, Row>)
    requires forall id | id in rows :: rows[id].size == Resident(rows[id].flow)
    ensures Charge(order, rows) == ResidentSum(order, rows)
    decreases |order|
  {
    if order != [] {
      PricedCharge(order[1..], rows);
    }
  }

  /** The byte counter of a priced inbox is what its flows really cost. */
  lemma PricedBytes(a: Inbox)
    requires Indexed(a) && Priced(a)
    ensures a.bytes == ResidentSum(a.order, a.rows)
  {
    PricedCharge(a.order, a.rows);
  }

  /** The bytes callers are shown of a list of rows. */
  function FootprintSum(order: seq<Id>, rows: map<Id, Row>): nat {
    if order == [] then 0
    else (if order[0] in rows then Footprint(rows[order[0]].flow) else 0) + FootprintSum(order[1..], rows)
  }

  lemma {:induction false} FootprintWithin(order: seq<Id>, rows: map<Id, Row>)
    ensures FootprintSum(order, rows) <= ResidentSum(order, rows)
    decreases |order|
  {
    if order != [] {
      FootprintWithin(order[1..], rows);
      if order[0] in rows {
        ResidentIsShown(rows[order[0]].flow);
      }
    }
  }

  /** The caps as callers feel them: the order lists every row once, they are at most maxFlows, and the bodies,
      frame payloads and header texts callers are shown of them, in memory or on disk, are at most maxBytes. */
  ghost predicate KeepsCaps(a: Inbox) {
    && Distinct(a.order) && (forall id :: id in a.order <==> id in a.rows)
    && |a.order| <= a.caps.maxFlows
    && FootprintSum(a.order, a.rows) <= a.caps.maxBytes
  }

  lemma SoundKeepsCaps(a: Inbox)
    requires Inv(a) && Priced(a)
    ensures KeepsCaps(a)
  {
    PricedBytes(a);
    FootprintWithin(a.order, a.rows);
  }

  lemma RestatePriced(a: Inbox, id: Id, f: Flow)
    requires Priced(a) && id in a.rows && Resident(f) == Resident(a.rows[id].flow)
    ensures Priced(Restate(a, id, f))
  {
  }

  lemma SubPriced(a: Inbox, b: Inbox)
    requires Priced(a) && forall id | id in b.rows :: id in a.rows && b.rows[id] == a.rows[id]
    ensures Priced(b)
  {
  }

  lemma InsertPriced(a: Inbox, id: Id, f: Flow)
    requires Priced(a) && id !in a.rows
    ensures Priced(InboxSpec.Insert(a, id, f, Resident(f)))
  {
    InsertKeepsRows(a, id, f, Resident(f));
    assert InboxSpec.Insert(a, id, f, Resident(f)).rows[id].size == Resident(f);
  }

  lemma PatchPriced(a: Inbox, id: Id, p: Patch)
    requires Inv(a) && Priced(a) && id in a.rows
    requires PatchVerdict(a, id, p, PlainCharge(a, id, p)).Accepted?
    ensures Priced(ApplyPatch(a, id, p, PlainCharge(a, id, p)))
  {
    PatchKeepsRows(a, id, p, PlainCharge(a, id, p));
  }

  lemma ResumePriced(a: Inbox, id: Id, patched: bool, p: Patch)
    requires Inv(a) && Priced(a)
    ensures Priced(ResumeStep(a, id, patched, p, PlainCharge(a, id, p)))
  {
    var next := PlainCharge(a, id, p);
    if IsPaused(a, id) {
      if !patched {
        RestatePriced(a, id, Resumed(a.rows[id].flow));
      } else if PatchVerdict(a, id, p, next).Accepted? {
        PatchPriced(a, id, p);
        PatchKeepsRows(a, id, p, next);
        var b := ApplyPatch(a, id, p, next);
        RestatePriced(b, id, Resumed(b.rows[id].flow));
      }
    }
  }

  lemma StampPriced(a: Inbox, c: Call)
    requires Priced(a) && (c.CallPause? || c.CallDrop? || c.CallExpire?)
    ensures Priced(PlainStep(a, c))
  {
    LosslessPlainStep(a, c);
    hide PlainStep;
    if c.id in a.rows {
      var f := a.rows[c.id].flow;
      match c
      case CallPause(id) => RestatePriced(a, id, f.(state := Paused));
      case CallDrop(id) => RestatePriced(a, id, f.(state := Dropped));
      case CallExpire(id, now) => RestatePriced(a, id, Expired(f, now));
    }
  }

  lemma RemovalPriced(a: Inbox, c: Call)
    requires Priced(a)
    requires c.CallDelete? || c.CallDeleteAll? || c.CallWipe? || c.CallResetTo? || c.CallReplaceCaps?
    ensures Priced(PlainStep(a, c))
  {
    hide Priced;
    SubPriced(a, PlainStep(a, c));
  }

  lemma LosslessPriced(a: Inbox, c: Call)
    requires Inv(a) && Priced(a) && !c.CallInsert? && !c.CallResume?
    ensures Priced(PlainStep(a, c))
  {
    hide Priced, PlainStep;
    if c.CallPause? || c.CallDrop? || c.CallExpire? {
      StampPriced(a, c);
    } else {
      RemovalPriced(a, c);
    }
  }

  lemma StepPriced(a: Inbox, c: Call)
    requires Inv(a) && Priced(a)
    ensures Priced(PlainStep(a, c))
  {
    hide Priced, InboxSpec.Insert, ResumeStep, CapFlow, Resident, Inv;
    if c.CallInsert? {
      var capped := CapFlow(c.flow, if c.seen.maxBody > 0 then c.seen.maxBody else 0);
      if c.id !in a.rows {
        InsertPriced(a, c.id, capped);
      }
    } else if c.CallResume? {
      ResumeIsPlainStep(a, c);
      ResumePriced(a, c.id, c.patched, c.patch);
    } else {
      LosslessPriced(a, c);
    }
  }

  // ---------------------------------------------------------------- runs

  function OptionsIn(o: Spilling, calls: seq<Call>): Spilling
    decreases |calls|
  {
    if calls == [] then o else OptionsAfter(OptionsIn(o, calls[..|calls| - 1]), calls[|calls| - 1])
  }

  /** A store that never spills, given the same calls and told which of them a failing file would cost a
      store with these spill options. */
  function PlainRun(a: Inbox, o: Spilling, calls: seq<Call>): Inbox
    decreases |calls|
  {
    if calls == [] then a
    else
      var k := |calls| - 1;
      var b := PlainRun(a, o, calls[..k]);
      if Loses(b, OptionsIn(o, calls[..k]), calls[k]) then b else PlainStep(b, calls[k])
  }

  /** Whether call i of a run is lost. */
  predicate LostAt(a: Inbox, o: Spilling, calls: seq<Call>, i: nat)
    requires i < |calls|
  {
    Loses(PlainRun(a, o, calls[..i]), OptionsIn(o, calls[..i]), calls[i])
  }

  /** The same calls on a store that never spills and whose files never fail. */
  function CleanRun(a: Inbox, calls: seq<Call>): Inbox
    decreases |calls|
  {
    if calls == [] then a else PlainStep(CleanRun(a, calls[..|calls| - 1]), calls[|calls| - 1])
  }

  /** Without a failing file nothing is lost, and the spill options stop mattering. */
  lemma {:induction false} FaultlessRun(a: Inbox, o: Spilling, calls: seq<Call>)
    requires forall c | c in calls :: !MayFail(c)
    ensures PlainRun(a, o, calls) == CleanRun(a, calls)
    decreases |calls|
  {
    if calls != [] {
      var k := |calls| - 1;
      FaultlessRun(a, o, calls[..k]);
      assert calls[k] in calls;
      OnlyFailuresLose(PlainRun(a, o, calls[..k]), OptionsIn(o, calls[..k]), calls[k]);
    }
  }

  /** Which calls of a run are lost. */
  function LostIn(a: Inbox, o: Spilling, calls: seq<Call>): (lost: seq<bool>)
    ensures |lost| == |calls|
    decreases |calls|
  {
    if calls == [] then []
    else
      var k := |calls| - 1;
      LostIn(a, o, calls[..k]) + [Loses(PlainRun(a, o, calls[..k]), OptionsIn(o, calls[..k]), calls[k])]
  }

  lemma {:induction false} LostInAt(a: Inbox, o: Spilling, calls: seq<Call>, i: nat)
    requires i < |calls|
    ensures LostIn(a, o, calls)[i] <==> LostAt(a, o, calls, i)
    ensures LostIn(a, o, calls)[i] ==> MayFail(calls[i])
    decreases |calls|
  {
    hide Loses, MayFail, PlainStep, PlainRun, OptionsIn;
    var k := |calls| - 1;
    if i < k {
      LostInAt(a, o, calls[..k], i);
      assert calls[..k][..i] == calls[..i];
    } else {
      OnlyFailuresLose(PlainRun(a, o, calls[..k]), OptionsIn(o, calls[..k]), calls[k]);
    }
  }

  /** What every store a run reaches satisfies. */
  ghost predicate Sound(s: Store) {
    Valid(s) && HonestStore(s) && Priced(Abs(s))
  }

  method DoNext(s: Store, c: Call) returns (t: Store, lost: bool)
    requires Sound(s) && Proper(c)
    ensures Sound(t)
    ensures Abs(t) == if lost then Abs(s) else PlainStep(Abs(s), c)
    ensures lost <==> Loses(Abs(s), OptionsOf(s), c)
    ensures OptionsOf(t) == OptionsAfter(OptionsOf(s), c)
  {
    StepPriced(Abs(s), c);
    t, lost := Do(s, c);
  }

  ghost predicate Reached(t: Store, lost: seq<bool>, a: Inbox, o: Spilling, calls: seq<Call>) {
    && Abs(t) == PlainRun(a, o, calls) && OptionsOf(t) == OptionsIn(o, calls)
    && lost == LostIn(a, o, calls)
  }

  lemma ReachedNext(t: Store, u: Store, lost: seq<bool>, l: bool, a: Inbox, o: Spilling, calls: seq<Call>, i: nat)
    requires i < |calls| && Reached(t, lost, a, o, calls[..i])
    requires Abs(u) == if l then Abs(t) else PlainStep(Abs(t), calls[i])
    requires l <==> Loses(Abs(t), OptionsOf(t), calls[i])
    requires OptionsOf(u) == OptionsAfter(OptionsOf(t), calls[i])
    ensures Reached(u, lost + [l], a, o, calls[..i + 1])
  {
    assert calls[..i + 1][..i] == calls[..i] && calls[..i + 1][i] == calls[i];
  }

  method CallEach(s: Store, calls: seq<Call>) returns (t: Store, lost: seq<bool>)
    requires Sound(s) && forall c | c in calls :: Proper(c)
    ensures Sound(t) && Reached(t, lost, Abs(s), OptionsOf(s), calls)
  {
    ghost var a, o := Abs(s), OptionsOf(s);
    t, lost := s, [];
    for i := 0 to |calls|
      invariant Sound(t) && Reached(t, lost, a, o, calls[..i])
    {
      var u, l := DoNext(t, calls[i]);
      ReachedNext(t, u, lost, l, a, o, calls, i);
      t, lost := u, lost + [l];
    }
    assert calls[..|calls|] == calls;
  }

  /** Spill is invisible over whole runs: what callers see after any calls is what a store that never
      spills shows them after the same calls, minus the calls whose file operations failed; with no
      failing file there is no difference at all. The byte counter is the real cost of the rows. */
  method RunCalls(s: Store, calls: seq<Call>) returns (t: Store, lost: seq<bool>)
    requires Sound(s) && forall c | c in calls :: Proper(c)
    ensures Sound(t) && Abs(t).bytes == ResidentSum(Abs(t).order, Abs(t).rows) && KeepsCaps(Abs(t))
    ensures |lost| == |calls| && forall i | 0 <= i < |calls| :: lost[i] <==> LostAt(Abs(s), OptionsOf(s), calls, i)
    ensures forall i | 0 <= i < |calls| :: lost[i] ==> MayFail(calls[i])
    ensures Abs(t) == PlainRun(Abs(s), OptionsOf(s), calls)
    ensures (forall c | c in calls :: !MayFail(c)) ==> Abs(t) == CleanRun(Abs(s), calls)
  {
    t, lost := CallEach(s, calls);
    PricedBytes(Abs(t));
    SoundKeepsCaps(Abs(t));
    forall i | 0 <= i < |calls|
      ensures lost[i] <==> LostAt(Abs(s), OptionsOf(s), calls, i)
      ensures lost[i] ==> MayFail(calls[i])
    {
      LostInAt(Abs(s), OptionsOf(s), calls, i);
    }
    if forall c | c in calls :: !MayFail(c) {
      FaultlessRun(Abs(s), OptionsOf(s), calls);
    }
  }

  // ---------------------------------------------------------------- the object

  /** What the constructor sets up. */
  function NewStore(caps: Caps, spillOn: bool, threshold: nat): Store {
    Store(Core(caps, [], 0, 0, 0, 1), map[], map[], spillOn, threshold)
  }

  lemma NewStoreSound(caps: Caps, spillOn: bool, threshold: nat)
    requires GoodCaps(caps) && (spillOn ==> threshold > 0)
    ensures
      var s := NewStore(caps, spillOn, threshold);
      && Sound(s) && Initial(Abs(s)) && Abs(s).caps == caps && OptionsOf(s) == Spilling(spillOn, threshold)
  {
    var s := NewStore(caps, spillOn, threshold);
    assert Loaded(s.byID, Live(s.files)) == map[];
  }

  /** The mutex-protected object: one lock section per call. */
  class Memory {
    var st: Store

    constructor (caps: Caps, spillOn: bool, threshold: nat)
      requires GoodCaps(caps) && (spillOn ==> threshold > 0)
      ensures st == NewStore(caps, spillOn, threshold) && Sound(st) && Initial(Abs(st)) && Abs(st).caps == caps
      ensures OptionsOf(st) == Spilling(spillOn, threshold)
    {
      NewStoreSound(caps, spillOn, threshold);
      st := NewStore(caps, spillOn, threshold);
    }

    method Call(c: Call) returns (lost: bool)
      requires Sound(st) && Proper(c)
      modifies this
      ensures Sound(st) && KeepsCaps(Abs(st))
      ensures Abs(st) == if lost then old(Abs(st)) else PlainStep(old(Abs(st)), c)
      ensures lost <==> Loses(old(Abs(st)), old(OptionsOf(st)), c)
      ensures lost ==> MayFail(c)
      ensures !lost ==> CallEffect(old(Abs(st)), c, Abs(st))
      ensures OptionsOf(st) == OptionsAfter(old(OptionsOf(st)), c)
    {
      CallTold(Abs(st), c);
      OnlyFailuresLose(Abs(st), OptionsOf(st), c);
      st, lost := DoNext(st, c);
      SoundKeepsCaps(Abs(st));
    }
  }
}
