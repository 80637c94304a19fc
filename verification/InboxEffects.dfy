/**
 What each operation of the inbox does, told by what callers see before and after it: which rows are
 gone, what became of the others, and how the counters moved.
 */
module InboxEffects {
  import opened Flows
  import opened Lists
  import opened InboxSpec
  import opened InboxLaws
  import opened InboxRuns

  // ---------------------------------------------------------------- one flow

  /** What a patch does to a side: its headers if it has any, its body if it has one, with the body's own
      length and nothing cut. */
  ghost predicate SidePatched(was: Message, now: Message, p: Patch) {
    && now.headers == (if p.headers.SetHeaders? then p.headers.headers else was.headers)
    && now.trailers == was.trailers
    && (p.body.KeepBody? ==> now.body == was.body && now.size == was.size && now.truncated == was.truncated)
    && (p.body.SetBody? ==> now.body == p.body.body && now.size == |p.body.body| && !now.truncated)
  }

  /** A resume patches the side the flow was paused on, and lets a request go on and a response end. */
  ghost predicate ResumedFlow(was: Flow, now: Flow, patched: bool, p: Patch) {
    && (if patched && was.phase == ResponsePhase then SidePatched(was.response, now.response, p)
        else now.response == was.response)
    && (if patched && was.phase != ResponsePhase then SidePatched(was.request, now.request, p)
        else now.request == was.request)
    && now.state == (if was.phase == RequestPhase then Open else Completed)
    && now.startedAt == was.startedAt && now.completedAt == was.completedAt && now.phase == was.phase
    && now.ws == was.ws && now.grpc == was.grpc
    && now.timedOut == was.timedOut && now.truncated == was.truncated && now.meta == was.meta
  }

  lemma PatchResumes(f: Flow, p: Patch)
    ensures ResumedFlow(f, Resumed(Patched(f, p)), true, p) && ResumedFlow(f, Resumed(f), false, p)
    ensures Resident(Resumed(Patched(f, p))) == Resident(Patched(f, p))
  {
  }

  /** There is only one such flow. */
  lemma ResumedUnique(was: Flow, a: Flow, b: Flow, patched: bool, p: Patch)
    requires ResumedFlow(was, a, patched, p) && ResumedFlow(was, b, patched, p)
    ensures a == b
  {
  }

  // ---------------------------------------------------------------- rows

  /** No row but `id` is new or changed. */
  ghost predicate OthersKept(a: Inbox, b: Inbox, id: Id) {
    forall x | x in b.rows && x != id :: x in a.rows && b.rows[x] == a.rows[x]
  }

  /** k rows were evicted and one more change was made. */
  ghost predicate Counted(a: Inbox, b: Inbox, k: int) {
    && 0 <= k && b.evictions == a.evictions + k && b.generation == a.generation + k + 1
    && b.caps == a.caps && b.epoch == a.epoch
  }

  /** The flow of one row became g; nothing else changed but the generation. */
  ghost predicate OneFlow(a: Inbox, b: Inbox, id: Id, g: Flow) {
    && id in a.rows && b.rows.Keys == a.rows.Keys && OthersKept(a, b, id)
    && b.rows[id].flow == g && b.rows[id].size == a.rows[id].size && b.rows[id].epoch == a.rows[id].epoch
    && b.order == a.order && b.bytes == a.bytes && Counted(a, b, 0)
  }

  /** A new row came in; the oldest others went, no more of them than it took. */
  ghost predicate Inserted(a: Inbox, b: Inbox, id: Id, f: Flow, size: nat) {
    var k := b.evictions - a.evictions;
    && Counted(a, b, k) && k <= |a.order| && |b.order| == |a.order| + 1 - k
    && id in b.rows && b.rows[id].flow == f && b.rows[id].size == size && b.rows[id].epoch == a.epoch
    && OthersKept(a, b, id)
    && (forall i | 0 <= i < |a.order| :: a.order[i] in b.rows <==> k <= i)
    && (forall j | 0 <= j < k :: !RoomAfter(a, j, size))
  }

  /** New caps, and the oldest rows gone, no more of them than it took. */
  ghost predicate Recapped(a: Inbox, b: Inbox, caps: Caps) {
    var k := b.evictions - a.evictions;
    && 0 <= k <= |a.order| && |b.order| == |a.order| - k && b.generation == a.generation + k
    && b.caps == caps && b.epoch == a.epoch
    && (forall x | x in b.rows :: x in a.rows && b.rows[x] == a.rows[x])
    && (forall i | 0 <= i < |a.order| :: a.order[i] in b.rows <==> k <= i)
    && (forall j | 0 <= j < k ::
          |a.order| - j > caps.maxFlows || a.bytes - Charge(a.order[..j], a.rows) > caps.maxBytes)
  }

  /** A paused row went on; if its patch made it grow past the byte cap the k oldest other rows went, no more of
      them than it took. */
  ghost predicate Released(a: Inbox, b: Inbox, id: Id, patched: bool, p: Patch, k: int) {
    var others := Without(a.order, id);
    && Counted(a, b, k) && k <= |others| && |b.order| == |a.order| - k
    && id in a.rows && id in b.rows && ResumedFlow(a.rows[id].flow, b.rows[id].flow, patched, p)
    && OthersKept(a, b, id)
    && (forall i | 0 <= i < |others| :: others[i] in b.rows <==> k <= i)
    && (k > 0 ==> Charge(others[..k - 1], a.rows) < a.bytes - a.rows[id].size + b.rows[id].size - a.caps.maxBytes)
  }

  /** One row is gone and not counted as an eviction. */
  ghost predicate Deleted(a: Inbox, b: Inbox, id: Id) {
    && b.rows == a.rows - {id} && b.order == Without(a.order, id)
    && b.generation == a.generation + 1 && b.evictions == a.evictions && b.caps == a.caps && b.epoch == a.epoch
  }

  ghost predicate NothingLeft(a: Inbox, b: Inbox, caps: Caps) {
    b.rows == map[] && b.order == [] && b.bytes == 0 && b.evictions == a.evictions && b.caps == caps
  }

  // ---------------------------------------------------------------- refusals

  /** How Resume answers: `next` is the charge of the patched row, and `fails` tells whether the file its new
      body goes to fails. */
  ghost predicate ResumeAnswers(a: Inbox, id: Id, patched: bool, p: Patch, next: nat, fails: bool, r: Refusal) {
    if id !in a.rows then r == Refused(NotFound)
    else if a.rows[id].flow.state != Paused then r == Refused(BreakpointInactive)
    else if !patched then r == Accepted
    else if p.body.SetBody? && |p.body.body| > a.caps.maxBody then r == Refused(TooLarge)
    else if next > a.caps.maxBytes then r == Refused(TooLarge)
    else if !a.caps.evictOldest && a.bytes - a.rows[id].size + next > a.caps.maxBytes then r == Refused(Full)
    else if p.body.SetBody? && fails then r == Refused(SpillFailed)
    else r == Accepted
  }

  /** How Insert answers, spill failures aside: too large for the caps it read first, then of an epoch that is
      over, then without room under the caps of now. */
  ghost predicate InsertAnswers(a: Inbox, seen: Caps, epoch: nat, size: nat, r: Refusal) {
    if size > seen.maxBytes then r == Refused(TooLarge)
    else if epoch != a.epoch then r == Refused(StaleEpoch)
    else if a.caps.evictOldest then (if size > a.caps.maxBytes then r == Refused(Full) else r == Accepted)
    else if |a.order| < a.caps.maxFlows && a.bytes + size <= a.caps.maxBytes then r == Accepted
    else r == Refused(Full)
  }

  lemma InsertAnswered(a: Inbox, seen: Caps, epoch: nat, size: nat)
    requires Inv(a)
    ensures InsertAnswers(a, seen, epoch, size, InsertVerdict(a, seen, epoch, size))
  {
  }

  /** How ReplaceCaps answers. */
  ghost predicate CapsAnswer(a: Inbox, caps: Caps, force: bool, r: Refusal) {
    if caps.maxFlows <= 0 || caps.maxBytes <= 0 || caps.maxBody <= 0 then r == Refused(BadOptions)
    else if (|a.order| > caps.maxFlows || a.bytes > caps.maxBytes) && !caps.evictOldest && !force
      then r == Refused(OverNewCap)
    else r == Accepted
  }

  // ---------------------------------------------------------------- operations

  lemma PrefixGone(a: Inbox, k: nat)
    requires Indexed(a) && k <= |a.order|
    ensures forall i | 0 <= i < |a.order| :: a.order[i] in a.order[..k] <==> i < k
  {
    forall i | 0 <= i < |a.order| ensures a.order[i] in a.order[..k] <==> i < k {
      if i < k {
        assert a.order[..k][i] == a.order[i];
      }
    }
  }

  /** The k oldest rows are gone, counted. */
  ghost predicate Shed(a: Inbox, m: Inbox, k: nat) {
    && k <= |a.order| && |m.order| == |a.order| - k
    && m.evictions == a.evictions + k && m.generation == a.generation + k && m.caps == a.caps && m.epoch == a.epoch
    && (forall x | x in m.rows :: x in a.rows && m.rows[x] == a.rows[x])
    && (forall i | 0 <= i < |a.order| :: a.order[i] in m.rows <==> k <= i)
  }

  lemma MadeRoom(a: Inbox, size: nat)
    requires Indexed(a)
    ensures Shed(a, MakeRoom(a, size), EvictCount(a.order, a.rows, a.bytes, a.caps, size))
  {
    var k := EvictCount(a.order, a.rows, a.bytes, a.caps, size);
    MakeRoomIsShortest(a, size);
    PrefixGone(a, k);
    forall i | 0 <= i < |a.order| ensures a.order[i] in MakeRoom(a, size).rows <==> k <= i {
      assert a.order[i] in a.order;
    }
  }

  lemma AddedRow(m: Inbox, id: Id, f: Flow, size: nat)
    requires id !in m.rows
    ensures
      var b := Add(m, id, f, size);
      && |b.order| == |m.order| + 1 && b.evictions == m.evictions && b.generation == m.generation + 1
      && b.caps == m.caps && b.epoch == m.epoch
      && id in b.rows && b.rows[id].flow == f && b.rows[id].size == size && b.rows[id].epoch == m.epoch
      && (forall x | x != id :: x in b.rows <==> x in m.rows) && OthersKept(m, b, id)
  {
    hide Place;
  }

  lemma AddEffect(a: Inbox, m: Inbox, k: nat, id: Id, f: Flow, size: nat)
    requires Indexed(a) && id !in a.rows && Shed(a, m, k)
    requires forall j | 0 <= j < k :: !RoomAfter(a, j, size)
    ensures Inserted(a, Add(m, id, f, size), id, f, size)
  {
    hide Add, RoomAfter;
    AddedRow(m, id, f, size);
    forall i | 0 <= i < |a.order| ensures a.order[i] != id {
      assert a.order[i] in a.order;
    }
  }

  lemma InsertEffect(a: Inbox, id: Id, f: Flow, size: nat)
    requires Inv(a) && id !in a.rows
    ensures Inserted(a, Insert(a, id, f, size), id, f, size)
  {
    var k := EvictCount(a.order, a.rows, a.bytes, a.caps, size);
    MakeRoomIsShortest(a, size);
    MadeRoom(a, size);
    hide MakeRoom, Shed, Add, Inserted, EvictCount, RoomAfter;
    AddEffect(a, MakeRoom(a, size), k, id, f, size);
  }

  lemma ReplaceEffect(a: Inbox, caps: Caps)
    requires Inv(a) && GoodCaps(caps)
    ensures Recapped(a, ReplaceCaps(a, caps), caps)
  {
    var b := ReplaceCaps(a, caps);
    var k := OverCount(a.order, a.rows, a.bytes, caps);
    ReplaceCapsInv(a, caps);
    PrefixGone(a, k);
    forall i | 0 <= i < |a.order| ensures a.order[i] in b.rows <==> k <= i {
      assert a.order[i] in a.order;
    }
  }

  lemma RestateEffect(a: Inbox, id: Id, g: Flow)
    requires id in a.rows
    ensures OneFlow(a, Restate(a, id, g), id, g)
  {
  }

  /** The victims of a patch are the oldest of the other rows. */
  lemma {:induction false} VictimsAreOldest(order: seq<Id>, rows: map<Id, Row>, id: Id, excess: int)
    requires Distinct(order)
    ensures Victims(order, rows, id, excess) <= Without(order, id)
    decreases |order|
  {
    if order != [] && excess > 0 {
      if order[0] == id {
        ExcludeMissing(order[1..], rows, id, excess);
      } else {
        VictimsAreOldest(order[1..], rows, id, excess - (if order[0] in rows then rows[order[0]].size else 0));
      }
    }
  }

  lemma ExcludeMissing(order: seq<Id>, rows: map<Id, Row>, id: Id, excess: int)
    requires id !in order && Distinct(order)
    ensures Victims(order, rows, id, excess) <= order
    decreases |order|
  {
    if order != [] && excess > 0 {
      ExcludeMissing(order[1..], rows, id, excess - (if order[0] in rows then rows[order[0]].size else 0));
    }
  }

  lemma {:induction false} PrefixNotIn(others: seq<Id>, gone: seq<Id>)
    requires Distinct(others) && gone <= others
    ensures forall i | 0 <= i < |others| :: others[i] in gone <==> i < |gone|
  {
    forall i | 0 <= i < |others| ensures others[i] in gone <==> i < |gone| {
      if i < |gone| {
        assert gone[i] == others[i];
      }
    }
  }

  /** The k oldest rows other than `id` are gone, counted. */
  ghost predicate ShedOthers(a: Inbox, m: Inbox, id: Id, k: nat) {
    var others := Without(a.order, id);
    && k <= |others| && |m.order| == |a.order| - k
    && m.evictions == a.evictions + k && m.generation == a.generation + k && m.caps == a.caps && m.epoch == a.epoch
    && id in a.rows && id in m.rows && (forall x | x in m.rows :: x in a.rows && m.rows[x] == a.rows[x])
    && (forall i | 0 <= i < |others| :: others[i] in m.rows <==> k <= i)
  }

  lemma OldestOthers(a: Inbox, id: Id, excess: int)
    requires Distinct(a.order)
    ensures
      var v := Victims(a.order, a.rows, id, excess);
      var others := Without(a.order, id);
      && |v| <= |others| && v == others[..|v|] && Distinct(v)
      && (v != [] ==> Charge(others[..|v| - 1], a.rows) < excess)
      && (forall i | 0 <= i < |others| :: others[i] in v <==> i < |v|)
      && (forall x | x in others :: x in a.order) && forall x | x in v :: x in a.order && x != id
  {
    var v := Victims(a.order, a.rows, id, excess);
    VictimsAreOldest(a.order, a.rows, id, excess);
    VictimsAreOthers(a.order, a.rows, id, excess);
    VictimsAreFewest(a.order, a.rows, id, excess);
    WithoutMembers(a.order, id);
    PrefixNotIn(Without(a.order, id), v);
    hide Victims, Without, Charge;
    assert v != [] ==> v[..|v| - 1] == Without(a.order, id)[..|v| - 1];
  }

  lemma VictimsGone(a: Inbox, id: Id, excess: int)
    requires Indexed(a) && id in a.rows
    ensures
      var v := Victims(a.order, a.rows, id, excess);
      ShedOthers(a, Evict(a, v), id, |v|)
  {
    var v := Victims(a.order, a.rows, id, excess);
    OldestOthers(a, id, excess);
    EvictIndexed(a, v);
    hide Victims, Excluding, Without, Charge;
  }

  lemma ReleasedFrom(a: Inbox, m: Inbox, b: Inbox, id: Id, patched: bool, p: Patch, k: nat)
    requires Indexed(a) && ShedOthers(a, m, id, k)
    requires id in b.rows && b.rows.Keys == m.rows.Keys && OthersKept(m, b, id) && b.order == m.order
    requires b.generation == m.generation + 1 && b.evictions == m.evictions && b.caps == m.caps && b.epoch == m.epoch
    requires ResumedFlow(a.rows[id].flow, b.rows[id].flow, patched, p)
    requires k > 0 ==>
      Charge(Without(a.order, id)[..k - 1], a.rows) < a.bytes - a.rows[id].size + b.rows[id].size - a.caps.maxBytes
    ensures Released(a, b, id, patched, p, k)
  {
    hide Without, Charge, ResumedFlow, Indexed;
    var others := Without(a.order, id);
    assert forall i | 0 <= i < |others| :: others[i] in b.rows <==> others[i] in m.rows;
  }

  lemma Rewritten(m: Inbox, id: Id, f: Flow, next: nat, was: Row)
    requires id in m.rows
    ensures
      var b := Resume(Resize(m, id, f, next, was), id);
      && b.rows.Keys == m.rows.Keys && OthersKept(m, b, id) && b.order == m.order
      && b.generation == m.generation + 1 && b.evictions == m.evictions && b.caps == m.caps && b.epoch == m.epoch
      && b.rows[id].flow == Resumed(f) && b.rows[id].size == next
  {
    hide Resumed;
  }

  /** A row rewritten and released after the victims of its growth are gone. */
  lemma GrownEffect(a: Inbox, id: Id, f: Flow, next: nat, p: Patch)
    requires Indexed(a) && id in a.rows && ResumedFlow(a.rows[id].flow, Resumed(f), true, p)
    ensures
      var v := Victims(a.order, a.rows, id, Excess(a, id, next));
      var m := Evict(a, v);
      && id in m.rows
      && Released(a, Resume(Resize(m, id, f, next, a.rows[id]), id), id, true, p, |v|)
  {
    hide Victims, Evict, Without, Charge, Resumed, ResumedFlow, Released, Resume, ShedOthers, Distinct, OthersKept;
    var v := Victims(a.order, a.rows, id, Excess(a, id, next));
    VictimsGone(a, id, Excess(a, id, next));
    OldestOthers(a, id, Excess(a, id, next));
    ShedKeeps(a, Evict(a, v), id, |v|);
    var m := Evict(a, v);
    Rewritten(m, id, f, next, a.rows[id]);
    ReleasedFrom(a, m, Resume(Resize(m, id, f, next, a.rows[id]), id), id, true, p, |v|);
  }

  lemma ShedKeeps(a: Inbox, m: Inbox, id: Id, k: nat)
    requires ShedOthers(a, m, id, k)
    ensures id in m.rows && m.evictions == a.evictions + k && k <= |Without(a.order, id)|
  {
    hide Without;
  }

  lemma PatchEffect(a: Inbox, id: Id, p: Patch, next: nat)
    requires Inv(a) && id in a.rows && PatchVerdict(a, id, p, next).Accepted?
    ensures
      var b := Resume(ApplyPatch(a, id, p, next), id);
      id in b.rows && Released(a, b, id, true, p, b.evictions - a.evictions) && b.rows[id].size == next
  {
    hide Victims, Without, Charge, Patched, Resumed, ResumedFlow, Released, Distinct;
    PatchResumes(a.rows[id].flow, p);
    GrownEffect(a, id, Patched(a.rows[id].flow, p), next, p);
  }

  lemma NoneShed(a: Inbox, id: Id)
    requires Indexed(a) && id in a.rows
    ensures ShedOthers(a, a, id, 0)
  {
    WithoutMembers(a.order, id);
    hide Without;
    var others := Without(a.order, id);
    forall i | 0 <= i < |others| ensures others[i] in a.rows {
      assert others[i] in others;
    }
  }

  lemma ResumeEffect(a: Inbox, id: Id, p: Patch)
    requires Indexed(a) && id in a.rows
    ensures
      var b := Resume(a, id);
      Released(a, b, id, false, p, b.evictions - a.evictions) && b.rows[id].size == a.rows[id].size
  {
    NoneShed(a, id);
    PatchResumes(a.rows[id].flow, p);
    hide Resumed, ResumedFlow, Without, ShedOthers, Indexed, Released;
    ReleasedFrom(a, a, Resume(a, id), id, false, p, 0);
  }

  /** A step of Resume on a paused row, without a patch and with one that is accepted. */
  lemma UnpatchedStep(a: Inbox, id: Id, p: Patch, next: nat)
    requires Inv(a) && IsPaused(a, id)
    ensures
      var b := ResumeStep(a, id, false, p, next);
      b == Resume(a, id) && Released(a, b, id, false, p, b.evictions - a.evictions)
  {
    hide Released, Resume, Indexed, UnderCaps;
    ResumeEffect(a, id, p);
  }

  lemma PatchedStep(a: Inbox, id: Id, p: Patch, next: nat)
    requires Inv(a) && IsPaused(a, id) && PatchVerdict(a, id, p, next).Accepted?
    ensures id in ApplyPatch(a, id, p, next).rows
    ensures
      var b := ResumeStep(a, id, true, p, next);
      && b == Resume(ApplyPatch(a, id, p, next), id) && id in b.rows && b.rows[id].size == next
      && Released(a, b, id, true, p, b.evictions - a.evictions)
  {
    hide Released, Resume, Indexed, ApplyPatch, PatchVerdict, Sorted, UnderCaps;
    ApplyPatchInv(a, id, p, next);
    PatchEffect(a, id, p, next);
  }

  lemma RemoveEffect(a: Inbox, id: Id)
    requires id in a.rows
    ensures Deleted(a, Remove(a, id, false), id)
  {
  }
}
