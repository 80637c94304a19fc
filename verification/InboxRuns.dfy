/**
 Whole runs of the inbox: any sequence of its operations, with any arguments, including the
 ones that fail.
 */
module InboxRuns {
  import opened Flows
  import opened InboxSpec
  import opened InboxLaws

  /** `size` and `next` are the resident sizes Insert and Resume charge. */
  datatype Op =
    | OpInsert(id: Id, flow: Flow, size: nat, seen: Caps, epoch: nat)
    | OpDelete(id: Id)
    | OpDeleteAll
    | OpWipe
    | OpResetTo(caps: Caps)
    | OpReplaceCaps(caps: Caps, force: bool)
    | OpPause(id: Id)
    | OpResume(id: Id, patched: bool, patch: Patch, next: nat)
    | OpDrop(id: Id)
    | OpExpire(id: Id, now: nat)

  predicate IsPaused(s: Inbox, id: Id) {
    id in s.rows && s.rows[id].flow.state == Paused
  }

  function ResumeStep(s: Inbox, id: Id, patched: bool, p: Patch, next: nat): Inbox {
    if !IsPaused(s, id) then s
    else if !patched then Resume(s, id)
    else if !PatchVerdict(s, id, p, next).Accepted? then s
    else
      var t := ApplyPatch(s, id, p, next);
      if id in t.rows then Resume(t, id) else t
  }

  /** ULIDs are fresh: an id already in use inserts nothing. */
  function Step(s: Inbox, op: Op): Inbox {
    match op
    case OpInsert(id, f, size, seen, epoch) =>
      if id !in s.rows && InsertVerdict(s, seen, epoch, size).Accepted? then Insert(s, id, f, size) else s
    case OpDelete(id) => Remove(s, id, false)
    case OpDeleteAll => DeleteAll(s)
    case OpWipe => Wipe(s)
    case OpResetTo(caps) => if GoodCaps(caps) then Wipe(s).(caps := caps) else s
    case OpReplaceCaps(caps, force) =>
      if GoodCaps(caps) && !ReplaceRefused(s, caps, force) then ReplaceCaps(s, caps) else s
    case OpPause(id) => if id in s.rows then Pause(s, id) else s
    case OpResume(id, patched, p, next) => ResumeStep(s, id, patched, p, next)
    case OpDrop(id) => if IsPaused(s, id) then Drop(s, id) else s
    case OpExpire(id, now) => if IsPaused(s, id) then Expire(s, id, now) else s
  }

  function Run(s: Inbox, ops: seq<Op>): Inbox
    decreases |ops|
  {
    if ops == [] then s else Step(Run(s, ops[..|ops| - 1]), ops[|ops| - 1])
  }

  predicate Initial(s: Inbox) {
    s.order == [] && s.rows == map[] && s.bytes == 0 && GoodCaps(s.caps)
  }

  lemma ResumeStepInv(s: Inbox, id: Id, patched: bool, p: Patch, next: nat)
    requires Inv(s)
    ensures Inv(ResumeStep(s, id, patched, p, next))
    ensures Sorted(s) ==> Sorted(ResumeStep(s, id, patched, p, next))
  {
    if IsPaused(s, id) {
      if !patched {
        RestateInv(s, id, Resumed(s.rows[id].flow));
      } else if PatchVerdict(s, id, p, next).Accepted? {
        PatchedResumeInv(s, id, p, next);
      }
    }
  }

  lemma PatchedResumeInv(s: Inbox, id: Id, p: Patch, next: nat)
    requires Inv(s) && id in s.rows && PatchVerdict(s, id, p, next).Accepted?
    ensures
      var t := ApplyPatch(s, id, p, next);
      id in t.rows && Inv(Resume(t, id)) && (Sorted(s) ==> Sorted(Resume(t, id)))
  {
    ApplyPatchInv(s, id, p, next);
    var t := ApplyPatch(s, id, p, next);
    RestateInv(t, id, Resumed(t.rows[id].flow));
  }

  /** The operations that only rewrite one row's flow. */
  predicate Restates(op: Op) {
    op.OpPause? || op.OpDrop? || op.OpExpire?
  }

  lemma RestatesInv(s: Inbox, op: Op)
    requires Inv(s) && Restates(op)
    ensures Inv(Step(s, op))
    ensures Sorted(s) && !op.OpExpire? ==> Sorted(Step(s, op))
  {
    match op
    case OpPause(id) => PauseInv(s, id);
    case OpDrop(id) => DropInv(s, id);
    case OpExpire(id, now) => ExpireInv(s, id, now);
  }

  lemma PauseInv(s: Inbox, id: Id)
    requires Inv(s)
    ensures id in s.rows ==> Inv(Pause(s, id)) && (Sorted(s) ==> Sorted(Pause(s, id)))
  {
    if id in s.rows {
      RestateInv(s, id, s.rows[id].flow.(state := Paused));
    }
  }

  lemma DropInv(s: Inbox, id: Id)
    requires Inv(s)
    ensures id in s.rows ==> Inv(Drop(s, id)) && (Sorted(s) ==> Sorted(Drop(s, id)))
  {
    if id in s.rows {
      RestateInv(s, id, s.rows[id].flow.(state := Dropped));
    }
  }

  lemma ExpireInv(s: Inbox, id: Id, now: nat)
    requires Inv(s)
    ensures id in s.rows ==> Inv(Expire(s, id, now))
  {
    if id in s.rows {
      RestateInv(s, id, Expired(s.rows[id].flow, now));
    }
  }

  lemma DeleteInv(s: Inbox, id: Id)
    requires Inv(s)
    ensures Inv(Remove(s, id, false))
    ensures Sorted(s) ==> Sorted(Remove(s, id, false))
  {
    RemoveIndexed(s, id, false);
    if Sorted(s) {
      RemoveSorted(s, id, false);
    }
  }

  lemma WipeInv(s: Inbox, caps: Caps)
    requires GoodCaps(caps)
    ensures
      var t := Wipe(s).(caps := caps);
      Inv(t) && Sorted(t)
  {
  }

  lemma StepInv(s: Inbox, op: Op)
    requires Inv(s)
    ensures Inv(Step(s, op))
    ensures Sorted(s) && !op.OpExpire? ==> Sorted(Step(s, op))
  {
    hide Sorted, Indexed, UnderCaps, Remove, ReplaceCaps, InboxSpec.Insert, ResumeStep;
    if Restates(op) {
      RestatesInv(s, op);
    } else if op.OpResume? {
      ResumeStepInv(s, op.id, op.patched, op.patch, op.next);
    } else {
      match op
      case OpInsert(id, f, size, seen, epoch) =>
        if id !in s.rows && InsertVerdict(s, seen, epoch, size).Accepted? {
          InsertInv(s, id, f, size);
        }
      case OpDelete(id) => DeleteInv(s, id);
      case OpDeleteAll => DeleteAllInv(s);
      case OpReplaceCaps(caps, force) =>
        if GoodCaps(caps) {
          ReplaceCapsInv(s, caps);
        }
      case OpWipe => WipeInv(s, s.caps);
      case OpResetTo(caps) =>
        if GoodCaps(caps) {
          WipeInv(s, caps);
        }
    }
  }

  lemma StepMonotone(s: Inbox, op: Op)
    requires Inv(s)
    ensures s.generation <= Step(s, op).generation
    ensures s.evictions <= Step(s, op).evictions
    ensures s.epoch <= Step(s, op).epoch
  {
  }

  /** The invariant over every run: the order is a duplicate-free listing of the rows, the counter is
      the sum of their charges, both caps hold, every row belongs to the current epoch, and the
      generation never goes back. */
  lemma {:induction false} RunInv(s: Inbox, ops: seq<Op>)
    requires Initial(s)
    ensures Inv(Run(s, ops))
    ensures s.generation <= Run(s, ops).generation
    decreases |ops|
  {
    if ops != [] {
      RunInv(s, ops[..|ops| - 1]);
      StepInv(Run(s, ops[..|ops| - 1]), ops[|ops| - 1]);
      StepMonotone(Run(s, ops[..|ops| - 1]), ops[|ops| - 1]);
    }
  }

  /** Listed by the time a flow completed, or started if it has not, and by id among equals. */
  ghost predicate ByTimeThenId(s: Inbox) {
    forall i, j | 0 <= i < j < |s.order| && s.order[i] in s.rows && s.order[j] in s.rows ::
      var a, b := s.rows[s.order[i]].flow, s.rows[s.order[j]].flow;
      var ta := if a.completedAt != 0 then a.completedAt else a.startedAt;
      var tb := if b.completedAt != 0 then b.completedAt else b.startedAt;
      ta < tb || (ta == tb && s.order[i] < s.order[j])
  }

  /** On runs without ExpireBreakpoint the order is also sorted by eviction time, then id. */
  lemma {:induction false} RunSorted(s: Inbox, ops: seq<Op>)
    requires Initial(s) && forall op | op in ops :: !op.OpExpire?
    ensures Sorted(Run(s, ops)) && ByTimeThenId(Run(s, ops))
    decreases |ops|
  {
    if ops != [] {
      var before := ops[..|ops| - 1];
      assert forall op | op in before :: op in ops;
      RunSorted(s, before);
      RunInv(s, before);
      StepInv(Run(s, before), ops[|ops| - 1]);
    }
  }

  lemma {:induction false} EpochGrows(s: Inbox, before: seq<Op>, after: seq<Op>)
    requires Initial(s)
    ensures Run(s, before).epoch <= Run(s, before + after).epoch
    decreases |after|
  {
    hide Step, Inv;
    if after == [] {
      assert before + after == before;
    } else {
      var k := |after| - 1;
      assert (before + after)[..|before + after| - 1] == before + after[..k];
      EpochGrows(s, before, after[..k]);
      RunInv(s, before + after[..k]);
      StepMonotone(Run(s, before + after[..k]), after[k]);
    }
  }

  /** Nothing captured before a Wipe or ResetTo lands after it: an Insert that carries the epoch of any earlier
      moment of the run changes nothing, whatever came before and after. */
  lemma StaleInsertIsRefused(s: Inbox, before: seq<Op>, wipe: Op, after: seq<Op>, id: Id, f: Flow, size: nat,
                             seen: Caps)
    requires Initial(s) && (wipe.OpWipe? || (wipe.OpResetTo? && GoodCaps(wipe.caps)))
    ensures
      var t := Run(s, before + [wipe] + after);
      Step(t, OpInsert(id, f, size, seen, Run(s, before).epoch)) == t
  {
    assert (before + [wipe])[..|before|] == before;
    assert Run(s, before + [wipe]).epoch == Run(s, before).epoch + 1;
    EpochGrows(s, before + [wipe], after);
  }

  /** ExpireBreakpoint re-stamps a row in place: the order stays sorted iff the row still belongs
      where it is listed. */
  lemma ExpireSortedIff(s: Inbox, id: Id, now: nat, k: nat)
    requires Inv(s) && Sorted(s) && IsPaused(s, id) && k < |s.order| && s.order[k] == id && now > 0
    ensures
      var stamped := Expired(s.rows[id].flow, now);
      Sorted(Expire(s, id, now)) <==>
        && (k > 0 && s.order[k - 1] in s.rows ==> Earlier(s.rows[s.order[k - 1]].flow, s.order[k - 1], stamped, id))
        && (k + 1 < |s.order| && s.order[k + 1] in s.rows ==>
              Earlier(stamped, id, s.rows[s.order[k + 1]].flow, s.order[k + 1]))
  {
    var t := Expire(s, id, now);
    var stamped := Expired(s.rows[id].flow, now);
    assert t.rows[id].flow == stamped;
    forall i | 0 <= i < |s.order| ensures s.order[i] in s.rows && (s.order[i] == id <==> i == k) {
      assert s.order[i] in s.order;
    }
    var left := k > 0 ==> Earlier(s.rows[s.order[k - 1]].flow, s.order[k - 1], stamped, id);
    var right := k + 1 < |s.order| ==> Earlier(stamped, id, s.rows[s.order[k + 1]].flow, s.order[k + 1]);
    if Sorted(t) {
      assert left && right;
    }
    if left && right {
      forall i, j | 0 <= i < j < |t.order|
        ensures Earlier(t.rows[t.order[i]].flow, t.order[i], t.rows[t.order[j]].flow, t.order[j])
      {
        if i == k && j > k + 1 {
          assert Earlier(s.rows[s.order[k + 1]].flow, s.order[k + 1], s.rows[s.order[j]].flow, s.order[j]);
        } else if j == k && i < k - 1 {
          assert Earlier(s.rows[s.order[i]].flow, s.order[i], s.rows[s.order[k - 1]].flow, s.order[k - 1]);
        }
      }
    }
  }

  // ---------------------------------------------------------------- an unsorted order is reached

  lemma InsertWithRoom(s: Inbox, id: Id, f: Flow, size: nat)
    requires Fits(s, size)
    ensures InboxSpec.Insert(s, id, f, size) == Add(s, id, f, size)
  {
    assert s.order[..0] == [] && s.rows - Members([]) == s.rows;
    ExcludingNone(s.order, []);
  }

  /** The inbox holds just these two flows, in this order. */
  ghost predicate HoldsTwo(s: Inbox, a: Id, f: Flow, b: Id, g: Flow) {
    a != b && s.order == [a, b] && s.rows.Keys == {a, b} && s.rows[a].flow == f && s.rows[b].flow == g
  }

  lemma FirstInsert(s: Inbox, a: Id, f: Flow)
    requires Initial(s) && Resident(f) <= s.caps.maxBytes
    ensures
      var t := Step(s, OpInsert(a, f, Resident(f), s.caps, s.epoch));
      && t.order == [a] && t.rows == map[a := Row(f, Resident(f), s.epoch)] && t.bytes == Resident(f)
      && t.caps == s.caps && t.epoch == s.epoch
  {
    InsertWithRoom(s, a, f, Resident(f));
  }

  lemma SecondInsert(t: Inbox, a: Id, f: Flow, b: Id, g: Flow)
    requires a != b && EvictTime(f) < EvictTime(g) && t.caps.maxFlows >= 2
    requires t.order == [a] && t.rows == map[a := Row(f, Resident(f), t.epoch)] && t.bytes == Resident(f)
    requires Resident(f) + Resident(g) <= t.caps.maxBytes
    ensures HoldsTwo(Step(t, OpInsert(b, g, Resident(g), t.caps, t.epoch)), a, f, b, g)
  {
    InsertWithRoom(t, b, g, Resident(g));
    assert t.order[1..] == [];
    assert Place(t.order, t.rows, b, g) == 1;
  }

  lemma ExpireUnsorts(s: Inbox, a: Id, f: Flow, b: Id, g: Flow, now: nat)
    requires HoldsTwo(s, a, f, b, g) && EvictTime(g) < now
    ensures !Sorted(Step(Step(s, OpPause(a)), OpExpire(a, now)))
  {
    var t := Step(Step(s, OpPause(a)), OpExpire(a, now));
    assert t.order[0] == a && t.order[1] == b;
    assert EvictTime(t.rows[a].flow) == now && t.rows[b].flow == g;
  }

  lemma RunOfFour(s: Inbox, a: Op, b: Op, c: Op, d: Op)
    ensures Run(s, [a, b, c, d]) == Step(Step(Step(Step(s, a), b), c), d)
  {
    assert [a, b, c, d][..3] == [a, b, c] && [a, b, c][..2] == [a, b] && [a, b][..1] == [a];
    assert Run(s, [a]) == Step(s, a);
    assert Run(s, [a, b]) == Step(Run(s, [a]), b);
    assert Run(s, [a, b, c]) == Step(Run(s, [a, b]), c);
  }

  /** The sorted order is lost on a run every inbox with room for two flows allows: the older one pauses,
      times out after the newer one's eviction time, and stays listed in front of it. */
  lemma UnsortedIsReached(s: Inbox, a: Id, f: Flow, b: Id, g: Flow, now: nat)
    requires Initial(s) && s.caps.maxFlows >= 2 && Resident(f) + Resident(g) <= s.caps.maxBytes
    requires a != b && EvictTime(f) < EvictTime(g) < now
    ensures
      var first := OpInsert(a, f, Resident(f), s.caps, s.epoch);
      var second := OpInsert(b, g, Resident(g), s.caps, s.epoch);
      !Sorted(Run(s, [first, second, OpPause(a), OpExpire(a, now)]))
  {
    var first := OpInsert(a, f, Resident(f), s.caps, s.epoch);
    var second := OpInsert(b, g, Resident(g), s.caps, s.epoch);
    RunOfFour(s, first, second, OpPause(a), OpExpire(a, now));
    FirstInsert(s, a, f);
    SecondInsert(Step(s, first), a, f, b, g);
    ExpireUnsorts(Step(Step(s, first), second), a, f, b, g, now);
  }
}
