/**
 What the bounded flow inbox promises (internal/store/memory.go, internal/store/breakpoint.go),
 stated without spill files: an index, an eviction order, a byte counter and two caps.

 The functions here are what the methods on the stored inbox are proved against, and the laws of
 whole runs are proved about them. A row keeps the epoch it was inserted under as history.
 */
module InboxSpec {
  import opened Bytes
  import opened Flows
  import opened Lists

  type Id = nat

  datatype Row = Row(flow: Flow, size: nat, epoch: nat)

  datatype Caps = Caps(maxFlows: int, maxBytes: int, maxBody: int, evictOldest: bool)

  datatype Inbox = Inbox(
    caps: Caps,
    order: seq<Id>,
    rows: map<Id, Row>,
    bytes: int,
    generation: nat,
    evictions: nat,
    epoch: nat)

  datatype Error = TooLarge | StaleEpoch | Full | NotFound | BreakpointInactive | OverNewCap | BadOptions | SpillFailed

  datatype Patch = Patch(headers: PatchHeaders, body: PatchBody)
  datatype PatchHeaders = KeepHeaders | SetHeaders(headers: seq<Header>)
  datatype PatchBody = KeepBody | SetBody(body: seq<Byte>)

  // ---------------------------------------------------------------- sums along the order

  /** The charge of a list of rows. */
  function Charge(order: seq<Id>, rows: map<Id, Row>): nat {
    if order == [] then 0
    else (if order[0] in rows then rows[order[0]].size else 0) + Charge(order[1..], rows)
  }

  // ---------------------------------------------------------------- operations

  predicate GoodCaps(c: Caps) {
    c.maxFlows > 0 && c.maxBytes > 0 && c.maxBody > 0
  }

  predicate Fits(s: Inbox, candidate: nat) {
    |s.order| < s.caps.maxFlows && s.bytes + candidate <= s.caps.maxBytes
  }

  predicate UnderCaps(s: Inbox) {
    |s.order| <= s.caps.maxFlows && s.bytes <= s.caps.maxBytes
  }

  function Remove(s: Inbox, id: Id, eviction: bool): Inbox {
    if id !in s.rows then s
    else
      s.(order := Without(s.order, id),
         rows := s.rows - {id},
         bytes := if s.bytes < s.rows[id].size then 0 else s.bytes - s.rows[id].size,
         generation := s.generation + 1,
         evictions := if eviction then s.evictions + 1 else s.evictions)
  }

  /** A list without the members of another. */
  function Excluding(order: seq<Id>, gone: seq<Id>): seq<Id> {
    if order == [] then []
    else if order[0] in gone then Excluding(order[1..], gone)
    else [order[0]] + Excluding(order[1..], gone)
  }

  function Members(ids: seq<Id>): set<Id> {
    set id | id in ids
  }

  /** The inbox without the rows `gone`, each counted as one eviction. */
  function Evict(s: Inbox, gone: seq<Id>): Inbox {
    s.(order := Excluding(s.order, gone),
       rows := s.rows - Members(gone),
       bytes := s.bytes - Charge(gone, s.rows),
       generation := s.generation + |gone|,
       evictions := s.evictions + |gone|)
  }

  /** How many of the oldest rows have to go before a candidate fits; all of them if it never does. */
  function EvictCount(order: seq<Id>, rows: map<Id, Row>, bytes: int, caps: Caps, candidate: nat): (k: nat)
    ensures k <= |order|
  {
    if order == [] || (|order| < caps.maxFlows && bytes + candidate <= caps.maxBytes) then 0
    else
      var freed := if order[0] in rows then rows[order[0]].size else 0;
      1 + EvictCount(order[1..], rows, bytes - freed, caps, candidate)
  }

  function Earlier(a: Flow, aId: Id, b: Flow, bId: Id): bool {
    EvictTime(a) < EvictTime(b) || (EvictTime(a) == EvictTime(b) && aId < bId)
  }

  /** Position of a new row: before the first row that is later. */
  function Place(order: seq<Id>, rows: map<Id, Row>, id: Id, f: Flow): (k: nat)
    ensures k <= |order|
  {
    if order == [] then 0
    else if order[0] in rows && Earlier(f, id, rows[order[0]].flow, order[0]) then 0
    else 1 + Place(order[1..], rows, id, f)
  }

  function Add(s: Inbox, id: Id, f: Flow, size: nat): Inbox {
    var k := Place(s.order, s.rows, id, f);
    s.(order := s.order[..k] + [id] + s.order[k..],
       rows := s.rows[id := Row(f, size, s.epoch)],
       bytes := s.bytes + size,
       generation := s.generation + 1)
  }

  predicate CanAccept(s: Inbox, candidate: nat) {
    Fits(s, candidate) || (s.caps.evictOldest && candidate <= s.caps.maxBytes)
  }

  function MakeRoom(s: Inbox, candidate: nat): Inbox {
    Evict(s, s.order[..EvictCount(s.order, s.rows, s.bytes, s.caps, candidate)])
  }

  datatype Refusal = Accepted | Refused(error: Error)

  /** Insert reads the caps, drops the lock and takes it again: `seen` are the caps it read first. */
  function InsertVerdict(s: Inbox, seen: Caps, epoch: nat, size: nat): Refusal {
    if size > seen.maxBytes then Refused(TooLarge)
    else if epoch != s.epoch then Refused(StaleEpoch)
    else if !CanAccept(s, size) then Refused(Full)
    else Accepted
  }

  function Insert(s: Inbox, id: Id, f: Flow, size: nat): Inbox {
    Add(MakeRoom(s, size), id, f, size)
  }

  function Wipe(s: Inbox): Inbox {
    s.(order := [], rows := map[], bytes := 0, generation := s.generation + 1, epoch := s.epoch + 1)
  }

  function OverCount(order: seq<Id>, rows: map<Id, Row>, bytes: int, caps: Caps): (k: nat)
    ensures k <= |order|
  {
    if order == [] || (|order| <= caps.maxFlows && bytes <= caps.maxBytes) then 0
    else 1 + OverCount(order[1..], rows, bytes - (if order[0] in rows then rows[order[0]].size else 0), caps)
  }

  predicate ReplaceRefused(s: Inbox, caps: Caps, force: bool) {
    !UnderCaps(s.(caps := caps)) && !caps.evictOldest && !force
  }

  function ReplaceCaps(s: Inbox, caps: Caps): Inbox {
    Evict(s.(caps := caps), s.order[..OverCount(s.order, s.rows, s.bytes, caps)])
  }

  function DeleteAll(s: Inbox): Inbox {
    s.(order := [], rows := map[], bytes := 0, generation := s.generation + |s.order|)
  }

  /** One row's flow rewritten in place, one generation later. */
  function Restate(s: Inbox, id: Id, f: Flow): Inbox
    requires id in s.rows
  {
    s.(rows := s.rows[id := s.rows[id].(flow := f)], generation := s.generation + 1)
  }

  function Expired(f: Flow, now: nat): Flow {
    f.(state := Completed, timedOut := true, completedAt := now)
  }

  function Pause(s: Inbox, id: Id): Inbox
    requires id in s.rows
  {
    if s.rows[id].flow.state == Paused then s
    else Restate(s, id, s.rows[id].flow.(state := Paused))
  }

  function Drop(s: Inbox, id: Id): Inbox
    requires id in s.rows
  {
    Restate(s, id, s.rows[id].flow.(state := Dropped))
  }

  function Expire(s: Inbox, id: Id, now: nat): Inbox
    requires id in s.rows
  {
    Restate(s, id, Expired(s.rows[id].flow, now))
  }

  // ---------------------------------------------------------------- resume

  function PatchMessage(m: Message, p: Patch): Message {
    var h := if p.headers.SetHeaders? then m.(headers := p.headers.headers) else m;
    if p.body.SetBody? then h.(body := p.body.body, size := |p.body.body|, truncated := false) else h
  }

  function Patched(f: Flow, p: Patch): Flow {
    if f.phase == ResponsePhase then f.(response := PatchMessage(f.response, p))
    else f.(request := PatchMessage(f.request, p))
  }

  function Resumed(f: Flow): Flow {
    f.(state := if f.phase == RequestPhase then Open else Completed)
  }

  /** The oldest other rows that have to go before `excess` bytes are freed; all others if too few. */
  function Victims(order: seq<Id>, rows: map<Id, Row>, id: Id, excess: int): seq<Id> {
    if order == [] || excess <= 0 then []
    else if order[0] == id then Victims(order[1..], rows, id, excess)
    else [order[0]] + Victims(order[1..], rows, id, excess - (if order[0] in rows then rows[order[0]].size else 0))
  }

  /** `next` is the resident size of the patched row. */
  function PatchVerdict(s: Inbox, id: Id, p: Patch, next: nat): Refusal
    requires id in s.rows
  {
    if p.body.SetBody? && |p.body.body| > s.caps.maxBody then Refused(TooLarge)
    else if next > s.caps.maxBytes then Refused(TooLarge)
    else if s.bytes + next - s.rows[id].size > s.caps.maxBytes && !s.caps.evictOldest then Refused(Full)
    else Accepted
  }

  function Resize(s: Inbox, id: Id, f: Flow, size: nat, was: Row): Inbox {
    s.(rows := s.rows[id := was.(flow := f, size := size)], bytes := s.bytes + size - was.size)
  }

  function ApplyPatch(s: Inbox, id: Id, p: Patch, next: nat): Inbox
    requires id in s.rows
  {
    var excess := s.bytes + next - s.rows[id].size - s.caps.maxBytes;
    Resize(Evict(s, Victims(s.order, s.rows, id, excess)), id, Patched(s.rows[id].flow, p), next, s.rows[id])
  }

  function Resume(s: Inbox, id: Id): Inbox
    requires id in s.rows
  {
    Restate(s, id, Resumed(s.rows[id].flow))
  }
}
