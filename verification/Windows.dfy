/**
 The flow-control windows of one HTTP/2 hop (internal/http2x/flow.go and
 internal/http2x/body.go).

 Every window object is a class that updates its fields in place. Its methods are
 specified by functions on the value the object holds (`OutWindow`, `InWindow`,
 `Body`), and the laws of those values over whole runs are proved as lemmas.
 Window sizes are Go int32 values, so wrap-around is part of the model.
 */
module Windows {
  import opened Bytes

  type Id = nat
  type Int32 = x: int | InInt32(x)

  const DEFAULT_WINDOW: int := 65535
  const INITIAL_WINDOW: int := 0x10_0000
  const MAX_FRAME_PAYLOAD: nat := 16384
  const MAX_INT32: int := 0x7fff_ffff

  // ---------------------------------------------------------------- int32


  /** Two's-complement truncation to 32 bits: Go's int32 arithmetic. */
  function Wrap32(x: int): (r: Int32)
    decreases if x > MAX_INT32 then x else if InInt32(x) then 0 else -x
  {
    if x > MAX_INT32 then Wrap32(x - TWO32)
    else if x < -MAX_INT32 - 1 then Wrap32(x + TWO32)
    else x
  }

  predicate InInt32(x: int) {
    -MAX_INT32 - 1 <= x <= MAX_INT32
  }

  lemma {:induction false} WrapPeriod(x: int)
    ensures Wrap32(x + TWO32) == Wrap32(x)
  {
  }

  lemma {:induction false} WrapCongruent(x: int, y: int)
    ensures Wrap32(Wrap32(x) + y) == Wrap32(x + y)
    decreases if x > MAX_INT32 then x else if InInt32(x) then 0 else -x
  {
    if x > MAX_INT32 {
      WrapCongruent(x - TWO32, y);
      WrapPeriod(x - TWO32 + y);
    } else if x < -MAX_INT32 - 1 {
      WrapCongruent(x + TWO32, y);
      WrapPeriod(x + y);
    }
  }

  function Min(x: int, y: int): int {
    if x < y then x else y
  }

  // ---------------------------------------------------------------- send side

  datatype OutWindow = OutWindow(conn: Int32, stream: map<Id, Int32>, initStream: Int32, maxFrame: int, closed: bool)

  datatype TakeOutcome = Nothing | Took(n: nat) | ClosedPipe | DeadlineExceeded | Blocked

  datatype OutOp =
    | OpOpen(id: Id)
    | OpForget(id: Id)
    | OpAdd(id: Id, n: nat)
    | OpInitialWindow(v: nat)
    | OpMaxFrame(v: nat)
    | OpClose
    | OpTake(id: Id, want: int, timedOut: bool)

  const NewOut: OutWindow := OutWindow(DEFAULT_WINDOW, map[], DEFAULT_WINDOW, MAX_FRAME_PAYLOAD, false)

  predicate IsNewOut(w: OutWindow) {
    && w.conn == w.initStream == DEFAULT_WINDOW && w.stream == map[]
    && w.maxFrame == MAX_FRAME_PAYLOAD && !w.closed
  }

  function OutOpen(w: OutWindow, id: Id): OutWindow {
    if id !in w.stream && !w.closed then w.(stream := w.stream[id := w.initStream]) else w
  }

  function OutForget(w: OutWindow, id: Id): OutWindow {
    w.(stream := w.stream - {id})
  }

  function OutAdd(w: OutWindow, id: Id, n: nat): OutWindow {
    if n == 0 then w
    else if id == 0 then w.(conn := Wrap32(w.conn + n))
    else if id in w.stream then w.(stream := w.stream[id := Wrap32(w.stream[id] + n)])
    else w
  }

  function OutInitialWindow(w: OutWindow, v: nat): OutWindow {
    var next := Wrap32(v);
    var delta := Wrap32(next - w.initStream);
    w.(initStream := next, stream := Shifted(w.stream, delta))
  }

  function Shifted(m: map<Id, Int32>, delta: int): map<Id, Int32> {
    map id | id in m :: Wrap32(m[id] + delta)
  }

  function OutMaxFrame(w: OutWindow, v: nat): OutWindow {
    w.(maxFrame := if v < 16384 then 16384 else if v > 0xff_ffff then 0xff_ffff else v)
  }

  /** One pass of the loop in takeDeadline; Blocked is the pass that waits. */
  function OutTake(w: OutWindow, id: Id, want: int, timedOut: bool): (OutWindow, TakeOutcome) {
    if want <= 0 then (w, Nothing)
    else if w.closed then (w, ClosedPipe)
    else if timedOut then (w, DeadlineExceeded)
    else if id !in w.stream then (w, ClosedPipe)
    else
      var open := Min(w.conn, w.stream[id]);
      var avail := if w.maxFrame > 0 then Min(w.maxFrame, open) else open;
      if avail > 0 then
        var n := Min(avail, want);
        (w.(conn := w.conn - n, stream := w.stream[id := w.stream[id] - n]), Took(n))
      else (w, Blocked)
  }

  function OutStep(w: OutWindow, op: OutOp): OutWindow {
    match op
    case OpOpen(id) => OutOpen(w, id)
    case OpForget(id) => OutForget(w, id)
    case OpAdd(id, n) => OutAdd(w, id, n)
    case OpInitialWindow(v) => OutInitialWindow(w, v)
    case OpMaxFrame(v) => OutMaxFrame(w, v)
    case OpClose => w.(closed := true)
    case OpTake(id, want, timedOut) => OutTake(w, id, want, timedOut).0
  }

  function OutRun(w: OutWindow, ops: seq<OutOp>): OutWindow
    decreases |ops|
  {
    if ops == [] then w else OutStep(OutRun(w, ops[..|ops| - 1]), ops[|ops| - 1])
  }

  /** What a peer and a sender would write down: credit received and bytes taken since
      each stream opened, in unbounded integers. */
  datatype Account = Account(credit: nat, taken: nat)
  datatype Ledger = Ledger(init: int, conn: Account, streams: map<Id, Account>)

  const NewLedger: Ledger := Ledger(DEFAULT_WINDOW, Account(0, 0), map[])

  function LedgerStep(l: Ledger, w: OutWindow, op: OutOp): Ledger {
    match op
    case OpOpen(id) =>
      if id !in l.streams && !w.closed then l.(streams := l.streams[id := Account(0, 0)]) else l
    case OpForget(id) => l.(streams := l.streams - {id})
    case OpAdd(id, n) =>
      if id == 0 then l.(conn := l.conn.(credit := l.conn.credit + n))
      else if id in l.streams then
        l.(streams := l.streams[id := l.streams[id].(credit := l.streams[id].credit + n)])
      else l
    case OpInitialWindow(v) => l.(init := v)
    case OpMaxFrame(_) => l
    case OpClose => l
    case OpTake(id, want, timedOut) =>
      match OutTake(w, id, want, timedOut).1
      case Took(n) =>
        if id in l.streams then
          l.(conn := l.conn.(taken := l.conn.taken + n),
             streams := l.streams[id := l.streams[id].(taken := l.streams[id].taken + n)])
        else l
      case _ => l
  }

  function LedgerRun(ops: seq<OutOp>): Ledger
    decreases |ops|
  {
    if ops == [] then NewLedger
    else
      var before := ops[..|ops| - 1];
      LedgerStep(LedgerRun(before), OutRun(NewOut, before), ops[|ops| - 1])
  }

  function Balance(base: int, a: Account): int {
    base + a.credit - a.taken
  }

  ghost predicate Balanced(w: OutWindow, l: Ledger) {
    && w.conn == Wrap32(Balance(DEFAULT_WINDOW, l.conn))
    && w.initStream == Wrap32(l.init)
    && w.stream.Keys == l.streams.Keys
    && (forall id | id in w.stream :: w.stream[id] == Wrap32(Balance(l.init, l.streams[id])))
    && 16384 <= w.maxFrame <= 0xff_ffff
  }

  lemma OutAddBalanced(w: OutWindow, l: Ledger, id: Id, n: nat)
    requires Balanced(w, l)
    ensures Balanced(OutAdd(w, id, n), LedgerStep(l, w, OpAdd(id, n)))
  {
    if id == 0 {
      WrapCongruent(Balance(DEFAULT_WINDOW, l.conn), n);
    } else if id in w.stream {
      WrapCongruent(Balance(l.init, l.streams[id]), n);
    }
  }

  lemma OutInitialWindowBalanced(w: OutWindow, l: Ledger, v: nat)
    requires Balanced(w, l)
    ensures Balanced(OutInitialWindow(w, v), l.(init := v))
  {
    forall id | id in w.stream
      ensures Wrap32(w.stream[id] + Wrap32(Wrap32(v) - w.initStream)) == Wrap32(Balance(v, l.streams[id]))
    {
      WrapShift(Balance(l.init, l.streams[id]), l.init, v);
    }
  }

  lemma OutTakeBalanced(w: OutWindow, l: Ledger, id: Id, want: int, timedOut: bool)
    requires Balanced(w, l)
    ensures Balanced(OutTake(w, id, want, timedOut).0, LedgerStep(l, w, OpTake(id, want, timedOut)))
  {
    var r := OutTake(w, id, want, timedOut).1;
    if r.Took? {
      var n: int := r.n;
      WrapCongruent(Balance(DEFAULT_WINDOW, l.conn), -n);
      WrapCongruent(Balance(l.init, l.streams[id]), -n);
    }
  }

  lemma OutStepBalanced(w: OutWindow, l: Ledger, op: OutOp)
    requires Balanced(w, l)
    ensures Balanced(OutStep(w, op), LedgerStep(l, w, op))
  {
    match op
    case OpAdd(id, n) => OutAddBalanced(w, l, id, n);
    case OpInitialWindow(v) => OutInitialWindowBalanced(w, l, v);
    case OpTake(id, want, timedOut) => OutTakeBalanced(w, l, id, want, timedOut);
    case _ =>
  }

  lemma WrapShift(x: int, from: int, to: int)
    ensures Wrap32(Wrap32(x) + Wrap32(Wrap32(to) - Wrap32(from))) == Wrap32(x + to - from)
  {
    var d := Wrap32(to) - Wrap32(from);
    calc {
      Wrap32(Wrap32(x) + Wrap32(d));
      { WrapCongruent(d, Wrap32(x)); }
      Wrap32(Wrap32(x) + d);
      { WrapCongruent(x, d); }
      Wrap32(x + d);
      { WrapCongruent(to, x - Wrap32(from)); }
      Wrap32(to + x - Wrap32(from));
      { WrapCongruentNeg(to + x, from); }
      Wrap32(x + to - from);
    }
  }

  lemma {:induction false} WrapCongruentNeg(a: int, b: int)
    ensures Wrap32(a - Wrap32(b)) == Wrap32(a - b)
    decreases if b > MAX_INT32 then b else if InInt32(b) then 0 else -b
  {
    if b > MAX_INT32 {
      WrapCongruentNeg(a, b - TWO32);
      WrapPeriod(a - b);
    } else if b < -MAX_INT32 - 1 {
      WrapCongruentNeg(a, b + TWO32);
      WrapPeriod(a - b - TWO32);
    }
  }

  /** Send-window accounting over every run, however often SETTINGS change the initial
      window: each window is the exact balance of its ledger, modulo 2^32. */
  lemma {:induction false} SendWindowsBalance(ops: seq<OutOp>)
    ensures Balanced(OutRun(NewOut, ops), LedgerRun(ops))
    decreases |ops|
  {
    if ops != [] {
      var before := ops[..|ops| - 1];
      SendWindowsBalance(before);
      OutStepBalanced(OutRun(NewOut, before), LedgerRun(before), ops[|ops| - 1]);
    }
  }

  /** While the ledger of a window fits 32 bits (the obligation section 6.9.1 of RFC 9113 puts
      on the peer), the window equals it: stream minus initial window is credit minus taken. */
  lemma SendWindowsExact(ops: seq<OutOp>, id: Id)
    ensures OutRun(NewOut, ops).stream.Keys == LedgerRun(ops).streams.Keys
    ensures
      var w, l := OutRun(NewOut, ops), LedgerRun(ops);
      && (InInt32(Balance(DEFAULT_WINDOW, l.conn)) ==> w.conn == DEFAULT_WINDOW + l.conn.credit - l.conn.taken)
      && (id in w.stream && id in l.streams && InInt32(l.init) && InInt32(Balance(l.init, l.streams[id])) ==>
            w.stream[id] - w.initStream == l.streams[id].credit - l.streams[id].taken)
  {
    SendWindowsBalance(ops);
  }

  /** The peer's side of section 6.9.1: no WINDOW_UPDATE pushes the connection window past 2^31-1. */
  ghost predicate ConnCreditFits(w: OutWindow, ops: seq<OutOp>)
    decreases |ops|
  {
    ops == [] ||
    (ConnCreditFits(w, ops[..|ops| - 1]) &&
     var last := ops[|ops| - 1];
     last.OpAdd? && last.id == 0 ==> OutRun(w, ops[..|ops| - 1]).conn + last.n <= MAX_INT32)
  }

  /** The connection window never goes negative while the peer keeps section 6.9.1. */
  lemma {:induction false} ConnWindowNonNegative(w: OutWindow, ops: seq<OutOp>)
    requires 0 <= w.conn && ConnCreditFits(w, ops)
    ensures 0 <= OutRun(w, ops).conn
    decreases |ops|
  {
    if ops != [] {
      ConnWindowNonNegative(w, ops[..|ops| - 1]);
    }
  }

  /** The condition is exact: a single credit keeps a non-negative window non-negative iff it fits. */
  lemma ConnCreditFitsExactly(w: OutWindow, n: nat)
    requires 0 <= w.conn && n <= MAX_INT32
    ensures 0 <= OutAdd(w, 0, n).conn <==> w.conn + n <= MAX_INT32
  {
    if w.conn + n > MAX_INT32 {
      assert Wrap32(w.conn + n) == Wrap32(w.conn + n - TWO32) == w.conn + n - TWO32;
    }
  }

  /** Every grant is positive and within the request, both windows and the frame limit, and a
      refused take changes no window. */
  lemma TakeWithinEveryLimit(w: OutWindow, id: Id, want: int, timedOut: bool)
    ensures
      var (w', r) := OutTake(w, id, want, timedOut);
      && (r.Took? ==>
            && id in w.stream && 1 <= r.n <= want && r.n <= w.conn && r.n <= w.stream[id]
              && (w.maxFrame > 0 ==> r.n <= w.maxFrame)
            && w'.conn + r.n == w.conn && w'.stream[id] + r.n == w.stream[id]
            && (forall other | other in w.stream && other != id :: w'.stream[other] == w.stream[other])
            && (r.n == want || r.n == w.conn || r.n == w.stream[id] || r.n == w.maxFrame))
      && (!r.Took? ==> w' == w)
  {
  }

  /** n bytes may be taken: they are wanted, and fit both windows and the frame limit. */
  predicate MayTake(w: OutWindow, id: Id, want: int, n: nat) {
    && id in w.stream && 0 < n <= want && n <= w.conn && n <= w.stream[id]
    && (w.maxFrame > 0 ==> n <= w.maxFrame)
  }

  /** What a take is promised: each refusal for its own cause, in this order; a wait exactly while one of the
      two windows is used up; otherwise as much as may be taken. */
  ghost predicate Answers(w: OutWindow, id: Id, want: int, late: bool, r: TakeOutcome) {
    if want <= 0 then r == Nothing
    else if w.closed then r == ClosedPipe
    else if late then r == DeadlineExceeded
    else if id !in w.stream then r == ClosedPipe
    else if w.conn <= 0 || w.stream[id] <= 0 then r == Blocked
    else r.Took? && MayTake(w, id, want, r.n) && forall m: nat | MayTake(w, id, want, m) :: m <= r.n
  }

  /** What a take leaves: a grant comes off both windows, anything else changes nothing. */
  ghost predicate Charged(w: OutWindow, w': OutWindow, id: Id, r: TakeOutcome) {
    if r.Took? then
      && id in w.stream && InInt32(w.conn - r.n) && InInt32(w.stream[id] - r.n)
      && w' == w.(conn := w.conn - r.n, stream := w.stream[id := w.stream[id] - r.n])
    else w' == w
  }

  lemma TakeAnswers(w: OutWindow, id: Id, want: int, late: bool)
    ensures Answers(w, id, want, late, OutTake(w, id, want, late).1)
    ensures Charged(w, OutTake(w, id, want, late).0, id, OutTake(w, id, want, late).1)
  {
    TakeWithinEveryLimit(w, id, want, late);
  }

  /** The pass of a take that waits: nothing refuses it, and a window is used up. */
  ghost predicate MustWait(w: OutWindow, id: Id, want: int, late: bool) {
    want > 0 && !w.closed && !late && id in w.stream && (w.conn <= 0 || w.stream[id] <= 0)
  }

  /** A stream that has no window gets none back, and spends nothing, in any run that does not
      open its id again: dropping its takes and credits leaves the run's windows as they are. */
  lemma {:induction false} DeadStreamIsInert(w: OutWindow, ops: seq<OutOp>, id: Id)
    requires id != 0 && id !in w.stream && OpOpen(id) !in ops
    ensures id !in OutRun(w, ops).stream
    ensures OutRun(w, ops) == OutRun(w, OpsElsewhere(ops, id))
    decreases |ops|
  {
    if ops != [] {
      var before, last := ops[..|ops| - 1], ops[|ops| - 1];
      DeadStreamIsInert(w, before, id);
      DeadStreamStep(OutRun(w, before), last, id);
      if !Concerns(last, id) {
        var kept := OpsElsewhere(before, id) + [last];
        assert kept[..|kept| - 1] == OpsElsewhere(before, id);
        assert OpsElsewhere(ops, id) == kept;
      }
    }
  }

  lemma DeadStreamStep(w: OutWindow, op: OutOp, id: Id)
    requires id != 0 && id !in w.stream && op != OpOpen(id)
    ensures id !in OutStep(w, op).stream
    ensures Concerns(op, id) ==> OutStep(w, op) == w
  {
    if op == OpForget(id) {
      assert w.stream - {id} == w.stream;
    }
  }

  predicate Concerns(op: OutOp, id: Id) {
    match op
    case OpAdd(i, _) => i == id
    case OpTake(i, _, _) => i == id
    case OpForget(i) => i == id
    case _ => false
  }

  function OpsElsewhere(ops: seq<OutOp>, id: Id): seq<OutOp>
    decreases |ops|
  {
    if ops == [] then []
    else
      var rest := OpsElsewhere(ops[..|ops| - 1], id);
      if Concerns(ops[|ops| - 1], id) then rest else rest + [ops[|ops| - 1]]
  }

  /** outFlow: the mutable send windows. */
  class OutFlow {
    var conn: Int32
    var stream: map<Id, Int32>
    var initStream: Int32
    var maxFrame: int
    var closed: bool

    function View(): OutWindow
      reads this
    {
      OutWindow(conn, stream, initStream, maxFrame, closed)
    }

    constructor ()
      ensures View() == NewOut
    {
      conn, stream, initStream := DEFAULT_WINDOW, map[], DEFAULT_WINDOW;
      maxFrame, closed := MAX_FRAME_PAYLOAD, false;
    }

    method Open(id: Id)
      modifies this
      ensures View() == OutOpen(old(View()), id)
    {
      if id !in stream && !closed {
        stream := stream[id := initStream];
      }
    }

    method Forget(id: Id)
      modifies this
      ensures View() == OutForget(old(View()), id)
    {
      stream := stream - {id};
    }

    method Add(id: Id, n: nat)
      modifies this
      ensures View() == OutAdd(old(View()), id, n)
    {
      if n == 0 {
        return;
      }
      if id == 0 {
        conn := Wrap32(conn + n);
      } else if id in stream {
        stream := stream[id := Wrap32(stream[id] + n)];
      }
    }

    /** The loop over the map visits every key once, in any order. */
    method ApplyInitialWindow(v: nat)
      modifies this
      ensures View() == OutInitialWindow(old(View()), v)
    {
      var next: int := Wrap32(v);
      var delta: int := Wrap32(next - initStream);
      initStream := next;
      if delta != 0 {
        var todo := stream.Keys;
        ghost var shifted := Shifted(stream, delta);
        var windows := stream;
        while todo != {}
          invariant todo <= windows.Keys == stream.Keys
          invariant forall id | id in windows :: windows[id] == if id in todo then stream[id] else shifted[id]
          decreases |todo|
        {
          var id :| id in todo;
          windows := windows[id := Wrap32(windows[id] + delta)];
          todo := todo - {id};
        }
        assert windows == shifted;
        stream := windows;
      } else {
        assert stream == Shifted(stream, 0);
      }
    }

    method SetMaxFrame(v: nat)
      modifies this
      ensures View() == OutMaxFrame(old(View()), v) && 16384 <= maxFrame <= 0xff_ffff
      ensures if v < 16384 then maxFrame == 16384 else if v > 0xff_ffff then maxFrame == 0xff_ffff else maxFrame == v
    {
      var c := v;
      if c < 16384 {
        c := 16384;
      }
      if c > 0xff_ffff {
        c := 0xff_ffff;
      }
      maxFrame := c;
    }

    method Close()
      modifies this
      ensures View() == old(View()).(closed := true)
    {
      closed := true;
    }

    /** Other goroutines' operations, run while this one waits on the condition variable. */
    method Interleave(ops: seq<OutOp>)
      modifies this
      ensures View() == OutRun(old(View()), ops)
    {
      for i := 0 to |ops|
        invariant View() == OutRun(old(View()), ops[..i])
      {
        assert ops[..i + 1][..i] == ops[..i];
        var w := OutStep(View(), ops[i]);
        conn, stream, initStream, maxFrame, closed := w.conn, w.stream, w.initStream, w.maxFrame, w.closed;
      }
      assert ops[..|ops|] == ops;
    }

    /** One pass of takeDeadline's loop, under the lock. */
    method TryTake(id: Id, want: int, late: bool) returns (r: TakeOutcome)
      modifies this
      ensures (View(), r) == OutTake(old(View()), id, want, late)
      ensures Answers(old(View()), id, want, late, r) && Charged(old(View()), View(), id, r)
    {
      TakeAnswers(View(), id, want, late);
      if want <= 0 {
        return Nothing;
      }
      if closed {
        return ClosedPipe;
      }
      if late {
        return DeadlineExceeded;
      }
      if id !in stream {
        return ClosedPipe;
      }
      var avail: int := conn;
      if stream[id] < avail {
        avail := stream[id];
      }
      if maxFrame > 0 && maxFrame < avail {
        avail := maxFrame;
      }
      if avail > 0 {
        if avail > want {
          avail := want;
        }
        conn := conn - avail;
        stream := stream[id := stream[id] - avail];
        return Took(avail);
      }
      return Blocked;
    }

    /** takeDeadline: `expired` tells whether the deadline has passed before the lock is taken, `late`
        whether it has on the first pass of the loop; `wakes[i]` holds the operations other goroutines
        perform during the i-th wait and whether the deadline has passed when it ends. A call whose
        deadline had passed looks at nothing; any other waits exactly as long as a window is used up, and
        is then answered from the windows as the first `slept` waits left them, or is still waiting when
        `wakes` runs out. */
    method TakeDeadline(id: Id, want: int, expired: bool, late: bool, wakes: seq<(seq<OutOp>, bool)>)
      returns (r: TakeOutcome, slept: nat)
      modifies this
      ensures slept <= |wakes|
      ensures want > 0 && expired ==> r == DeadlineExceeded && slept == 0 && View() == old(View())
      ensures want <= 0 || !expired ==>
        var w, now := OutRun(old(View()), Slept(wakes[..slept])), Late(late, wakes[..slept]);
        Answers(w, id, want, now, r) && Charged(w, View(), id, r)
      ensures forall i | 0 <= i < slept ::
        MustWait(OutRun(old(View()), Slept(wakes[..i])), id, want, Late(late, wakes[..i]))
      ensures r.Blocked? ==> slept == |wakes|
    {
      hide Answers, Charged, MustWait, OutRun, Late, Slept;
      ghost var w0 := View();
      slept := 0;
      if want > 0 && expired {
        return DeadlineExceeded, 0;
      }
      NotYetAsleep(w0, wakes, late);
      r := TryTake(id, want, late);
      while r.Blocked? && slept < |wakes|
        invariant slept <= |wakes|
        invariant
          var w, now := OutRun(w0, Slept(wakes[..slept])), Late(late, wakes[..slept]);
          Answers(w, id, want, now, r) && Charged(w, View(), id, r)
        invariant forall i | 0 <= i < slept ::
          MustWait(OutRun(w0, Slept(wakes[..i])), id, want, Late(late, wakes[..i]))
      {
        BlockedWaits(OutRun(w0, Slept(wakes[..slept])), View(), id, want, Late(late, wakes[..slept]), r);
        Woken(w0, wakes, slept, late);
        Interleave(wakes[slept].0);
        slept := slept + 1;
        r := TryTake(id, want, wakes[slept - 1].1);
      }
    }
  }

  lemma NotYetAsleep(w: OutWindow, wakes: seq<(seq<OutOp>, bool)>, late: bool)
    ensures OutRun(w, Slept(wakes[..0])) == w && Late(late, wakes[..0]) == late
  {
  }

  lemma Woken(w: OutWindow, wakes: seq<(seq<OutOp>, bool)>, i: nat, late: bool)
    requires i < |wakes|
    ensures OutRun(w, Slept(wakes[..i + 1])) == OutRun(OutRun(w, Slept(wakes[..i])), wakes[i].0)
    ensures Late(late, wakes[..i + 1]) == wakes[i].1
  {
    OutRunConcat(w, Slept(wakes[..i]), wakes[i].0);
    assert wakes[..i + 1][..i] == wakes[..i];
  }

  /** A pass that waits had to, and changed nothing. */
  lemma BlockedWaits(w: OutWindow, w': OutWindow, id: Id, want: int, late: bool, r: TakeOutcome)
    requires Answers(w, id, want, late, r) && Charged(w, w', id, r) && r.Blocked?
    ensures MustWait(w, id, want, late) && w' == w
  {
  }

  ghost function Late(late: bool, wakes: seq<(seq<OutOp>, bool)>): bool {
    if wakes == [] then late else wakes[|wakes| - 1].1
  }

  ghost function Slept(wakes: seq<(seq<OutOp>, bool)>): seq<OutOp>
    decreases |wakes|
  {
    if wakes == [] then [] else Slept(wakes[..|wakes| - 1]) + wakes[|wakes| - 1].0
  }

  lemma {:induction false} OutRunConcat(w: OutWindow, a: seq<OutOp>, b: seq<OutOp>)
    ensures OutRun(w, a + b) == OutRun(OutRun(w, a), b)
    decreases |b|
  {
    if b == [] {
      assert a + b == a;
    } else {
      var ab := a + b;
      assert ab[..|ab| - 1] == a + b[..|b| - 1];
      OutRunConcat(w, a, b[..|b| - 1]);
    }
  }

  // ---------------------------------------------------------------- receive side

  datatype InWindow = InWindow(conn: int, stream: map<Id, int>)

  datatype TakeIn = Accepted | ConnectionError | StreamError

  const NewIn: InWindow := InWindow(INITIAL_WINDOW, map[])

  function InOpen(w: InWindow, id: Id): InWindow {
    w.(stream := w.stream[id := INITIAL_WINDOW])
  }

  function InForget(w: InWindow, id: Id): InWindow {
    w.(stream := w.stream - {id})
  }

  function InVerdict(w: InWindow, id: Id, n: nat): TakeIn {
    if n > w.conn then ConnectionError
    else if id in w.stream && n > w.stream[id] then StreamError
    else Accepted
  }

  /** The windows after a take: a stream-level refusal has already charged the connection window. */
  function InTaken(w: InWindow, id: Id, n: nat): InWindow {
    if n > w.conn then w
    else if id in w.stream && n <= w.stream[id] then
      InWindow(w.conn - n, w.stream[id := w.stream[id] - n])
    else w.(conn := w.conn - n)
  }

  function InCredit(w: InWindow, id: Id, n: nat): InWindow {
    if id in w.stream then InWindow(w.conn + n, w.stream[id := w.stream[id] + n])
    else w.(conn := w.conn + n)
  }

  /** inFlow: the mutable receive windows. */
  class InFlow {
    var conn: int
    var stream: map<Id, int>

    function View(): InWindow
      reads this
    {
      InWindow(conn, stream)
    }

    constructor ()
      ensures View() == NewIn
    {
      conn, stream := INITIAL_WINDOW, map[];
    }

    method Open(id: Id)
      modifies this
      ensures View() == InOpen(old(View()), id)
    {
      stream := stream[id := INITIAL_WINDOW];
    }

    method Forget(id: Id)
      modifies this
      ensures View() == InForget(old(View()), id)
    {
      stream := stream - {id};
    }

    method Take(id: Id, n: nat) returns (r: TakeIn)
      modifies this
      ensures r == InVerdict(old(View()), id, n) && View() == InTaken(old(View()), id, n)
      ensures r.ConnectionError? <==> n > old(conn)
      ensures r.StreamError? <==> n <= old(conn) && id in stream && n > old(stream)[id]
      ensures conn == if r.ConnectionError? then old(conn) else old(conn) - n
      ensures stream == if r.Accepted? && id in old(stream) then old(stream)[id := old(stream)[id] - n] else old(stream)
    {
      if n > conn {
        return ConnectionError;
      }
      conn := conn - n;
      if id in stream {
        if n > stream[id] {
          return StreamError;
        }
        stream := stream[id := stream[id] - n];
      }
      return Accepted;
    }

    method Credit(id: Id, n: nat)
      modifies this
      ensures View() == InCredit(old(View()), id, n) && conn == old(conn) + n
      ensures stream == if id in old(stream) then old(stream)[id := old(stream)[id] + n] else old(stream)
    {
      conn := conn + n;
      if id in stream {
        stream := stream[id := stream[id] + n];
      }
    }
  }

  // ---------------------------------------------------------------- body buffer

  datatype Body = Body(buf: seq<Byte>, closed: bool, released: bool)

  const NewBody: Body := Body([], false, false)

  predicate BodyAccepts(b: Body, p: seq<Byte>) {
    p == [] || !b.closed
  }

  function BodyWrite(b: Body, p: seq<Byte>): Body {
    if b.closed then b else b.(buf := b.buf + p)
  }

  function BodyClose(b: Body): Body {
    b.(closed := true)
  }

  function ReadSize(b: Body, room: nat): nat {
    if room < |b.buf| then room else |b.buf|
  }

  function BodyRead(b: Body, room: nat): Body {
    b.(buf := b.buf[ReadSize(b, room)..])
  }

  /** How many of the bytes read are credited to the windows by onRead. */
  function ReadCredit(b: Body, room: nat): nat {
    if b.released then 0 else ReadSize(b, room)
  }

  /** What teardown gives back to the connection window. */
  function ReleaseCredit(b: Body): nat {
    if b.released then 0 else |b.buf|
  }

  function BodyRelease(b: Body): Body {
    b.(released := true)
  }

  /** What a Read comes back with; `Waits` is a pass of its loop that waits on the condition variable. */
  datatype ReadOutcome = ReadBytes | Waits | ReadDeadline | ReadEof | ReadFailed

  /** bodyBuf: a request-body pipe whose Write never blocks. `failed` tells whether it was closed with an
      error other than the end of the body. */
  class BodyBuf {
    var buf: seq<Byte>
    var closed: bool
    var connReleased: bool
    var failed: bool

    function View(): Body
      reads this
    {
      Body(buf, closed, connReleased)
    }

    constructor ()
      ensures View() == NewBody
    {
      buf, closed, connReleased, failed := [], false, false, false;
    }

    method Write(p: seq<Byte>) returns (ok: bool)
      modifies this
      ensures ok <==> p == [] || !old(closed)
      ensures buf == if ok then old(buf) + p else old(buf)
      ensures closed == old(closed) && connReleased == old(connReleased) && failed == old(failed)
      ensures ok == BodyAccepts(old(View()), p) && View() == BodyWrite(old(View()), p)
    {
      if |p| == 0 {
        return true;
      }
      if closed {
        return false;
      }
      buf := buf + p;
      return true;
    }

    /** One pass of Read; `late` tells whether the read deadline has passed. Buffered bytes go out first,
        even past the deadline; an empty open body waits; an empty closed one reports its error, or its
        end unless the deadline passed. */
    method Read(room: nat, late: bool) returns (r: ReadOutcome, p: seq<Byte>, credit: nat)
      modifies this
      ensures View() == BodyRead(old(View()), room) && failed == old(failed)
      ensures credit == ReadCredit(old(View()), room)
      ensures p + buf == old(buf) && |p| <= room && (buf == [] || |p| == room)
      ensures credit == if connReleased then 0 else |p|
      ensures closed == old(closed) && connReleased == old(connReleased)
      ensures r.ReadBytes? <==> old(buf) != []
      ensures r.Waits? <==> old(buf) == [] && !closed && !late
      ensures r.ReadFailed? <==> old(buf) == [] && closed && failed
      ensures r.ReadEof? <==> old(buf) == [] && closed && !failed && !late
    {
      if |buf| == 0 {
        p, credit := [], 0;
        if !closed {
          r := if late then ReadDeadline else Waits;
        } else if late && !failed {
          r := ReadDeadline;
        } else {
          r := if failed then ReadFailed else ReadEof;
        }
        return;
      }
      r := ReadBytes;
      var n := if room < |buf| then room else |buf|;
      p := buf[..n];
      buf := buf[n..];
      credit := if n > 0 && !connReleased then n else 0;
    }

    /** The first close decides how the body ends. */
    method CloseWithError(fails: bool)
      modifies this
      ensures View() == BodyClose(old(View())) && closed && buf == old(buf) && connReleased == old(connReleased)
      ensures failed == if old(closed) then old(failed) else fails
    {
      if closed {
        return;
      }
      failed := fails;
      closed := true;
    }

    method ReleaseConnWindow() returns (unread: nat)
      modifies this
      ensures unread == if old(connReleased) then 0 else |buf|
      ensures connReleased && buf == old(buf) && closed == old(closed)
      ensures unread == ReleaseCredit(old(View()))
      ensures View() == BodyRelease(old(View()))
    {
      if connReleased {
        return 0;
      }
      connReleased := true;
      return |buf|;
    }
  }
}
