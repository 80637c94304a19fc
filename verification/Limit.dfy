/**
 Paced reading (internal/rules/limit.go): each Read asks for a pause, and the nanoseconds that do
 not divide are carried to the next. Rates and counters are Go int64 values.
 */
module Limit {

  const SECOND := 1_000_000_000
  const MAX_DELAY := 30_000_000_000
  const MIN_BYTES_PER_SECOND := 256
  const MAX_BYTES_PER_SECOND := 67_108_864
  const MAX_INT64 := 0x7fff_ffff_ffff_ffff

  function ClampBytesPerSecond(bps: int): (r: int)
    ensures r == 0 || MIN_BYTES_PER_SECOND <= r <= MAX_BYTES_PER_SECOND
    ensures MIN_BYTES_PER_SECOND <= bps <= MAX_BYTES_PER_SECOND ==> r == bps
    ensures r == 0 <==> bps < MIN_BYTES_PER_SECOND
    ensures bps > MAX_BYTES_PER_SECOND ==> r == MAX_BYTES_PER_SECOND
  {
    if bps < MIN_BYTES_PER_SECOND then 0 else if bps > MAX_BYTES_PER_SECOND then MAX_BYTES_PER_SECOND else bps
  }

  /** The bound sleepDelay puts on every pause. */
  function ClampDelay(d: int): int {
    if d <= 0 then 0 else if d > MAX_DELAY then MAX_DELAY else d
  }

  function Quantum(bps: int): int {
    if bps > 1024 then 1024 else bps
  }

  /** What the rate owes for n bytes, in whole nanoseconds. */
  function Owed(n: nat, bps: int): int
    requires bps > 0
  {
    n * SECOND / bps
  }

  // ---------------------------------------------------------------- any chunking

  /** The pauses asked for after each chunk, with the carried remainder. */
  function Pauses(chunks: seq<nat>, bps: int, rem: int): int
    requires bps > 0
  {
    if chunks == [] then 0
    else
      var acc := chunks[0] * SECOND + rem;
      acc / bps + Pauses(chunks[1..], bps, acc % bps)
  }

  function Sum(chunks: seq<nat>): nat {
    if chunks == [] then 0 else chunks[0] + Sum(chunks[1..])
  }

  lemma DivideCarry(a: int, b: int, bps: int)
    requires bps > 0
    ensures (a + b) / bps == a / bps + (a % bps + b) / bps
  {
    var q, r := a / bps, a % bps;
    assert a + b == q * bps + (r + b);
    DivideShift(r + b, q, bps);
  }

  lemma DivideShift(x: int, q: int, bps: int)
    requires bps > 0
    ensures (q * bps + x) / bps == q + x / bps
  {
    var y, z := x / bps, x % bps;
    assert x == y * bps + z;
    assert q * bps + x == (q + y) * bps + z by {
      assert (q + y) * bps == q * bps + y * bps;
    }
    DivideExact(q + y, z, bps);
  }

  lemma DivideExact(q: int, z: int, bps: int)
    requires 0 <= z < bps
    ensures (q * bps + z) / bps == q
  {
    var w := (q * bps + z) / bps;
    assert w < q ==> (w + 1) * bps <= q * bps;
    assert w > q ==> (q + 1) * bps <= w * bps;
  }

  /** However the bytes are chunked, the pauses total what the rate owes for all of them. */
  lemma {:induction false} PacingIsExact(chunks: seq<nat>, bps: int, rem: int)
    requires 0 <= rem < bps
    ensures Pauses(chunks, bps, rem) == (Sum(chunks) * SECOND + rem) / bps
    decreases |chunks|
  {
    if chunks == [] {
      DivideExact(0, rem, bps);
    } else {
      var acc := chunks[0] * SECOND + rem;
      PacingIsExact(chunks[1..], bps, acc % bps);
      DivideCarry(acc, Sum(chunks[1..]) * SECOND, bps);
    }
  }

  /** Two ways of cutting the same bytes wait equally long. */
  lemma ChunkingIsIrrelevant(a: seq<nat>, b: seq<nat>, bps: int)
    requires bps > 0 && Sum(a) == Sum(b)
    ensures Pauses(a, bps, 0) == Pauses(b, bps, 0) == Owed(Sum(a), bps)
  {
    PacingIsExact(a, bps, 0);
    PacingIsExact(b, bps, 0);
  }

  // ---------------------------------------------------------------- the reader

  datatype Outcome = Delivered(n: nat) | Failed(n: nat) | Canceled(n: nat)

  /** The ledger of a paced reader is exact after every read. */
  ghost predicate Exact(bytes: nat, slept: int, rem: int, bps: int) {
    bps > 0 && 0 <= rem < bps && bytes * SECOND == slept * bps + rem
  }

  lemma ExactSettled(bytes: nat, slept: int, rem: int, bps: int)
    requires Exact(bytes, slept, rem, bps)
    ensures slept == Owed(bytes, bps)
  {
    DivideExact(slept, rem, bps);
  }

  lemma ExactStep(bytes: nat, slept: int, rem: int, bps: int, n: nat)
    requires Exact(bytes, slept, rem, bps)
    ensures
      var acc := n * SECOND + rem;
      Exact(bytes + n, slept + acc / bps, acc % bps, bps)
  {
    var acc := n * SECOND + rem;
    var d := acc / bps;
    assert acc == d * bps + acc % bps;
    assert (slept + d) * bps == slept * bps + d * bps;
  }

  lemma PauseBounded(n: nat, rem: int, bps: int)
    requires 0 < n <= Quantum(bps) && 0 <= rem < bps <= MAX_BYTES_PER_SECOND
    ensures 0 <= (n * SECOND + rem) / bps <= SECOND && n * SECOND + rem <= MAX_INT64
  {
    assert n * SECOND <= bps * SECOND;
    var d := (n * SECOND + rem) / bps;
    assert d > SECOND ==> d * bps >= (SECOND + 1) * bps;
  }

  class LimitedReader {
    const bps: int
    const quantum: int
    var rem: int
    ghost var bytes: nat
    ghost var slept: int

    ghost predicate Valid()
      reads this
    {
      && MIN_BYTES_PER_SECOND <= bps <= MAX_BYTES_PER_SECOND && quantum == Quantum(bps)
      && Exact(bytes, slept, rem, bps)
    }

    /** LimitReader for a rate that is not clamped to zero; for the others the source itself is used. */
    constructor (rate: int)
      requires ClampBytesPerSecond(rate) != 0
      ensures Valid() && bytes == 0 && slept == 0 && bps == ClampBytesPerSecond(rate)
    {
      bps := ClampBytesPerSecond(rate);
      quantum := Quantum(ClampBytesPerSecond(rate));
      rem, bytes, slept := 0, 0, 0;
    }

    /** One Read into a buffer of `room` bytes. The source delivers `got` of the bytes asked for, and may
        fail; `awake` says whether a pause runs to its end. The pause is at most a second, the products
        fit int64, and afterwards the pauses asked for total exactly what the rate owes. */
    method Read(room: nat, got: nat, fails: bool, awake: bool) returns (r: Outcome, pause: int)
      requires Valid() && got <= room && got <= quantum
      modifies this
      ensures Valid() && bytes == old(bytes) + got && slept == old(slept) + pause
      ensures slept == Owed(bytes, bps)
      ensures 0 <= pause <= SECOND && ClampDelay(pause) == pause
      ensures got * SECOND + old(rem) <= MAX_INT64
      ensures r.n == got && (r.Canceled? <==> pause > 0 && !awake) && (r.Failed? <==> fails && !r.Canceled? && room > 0)
    {
      pause := 0;
      ExactSettled(bytes, slept, rem, bps);
      if room == 0 {
        return Delivered(0), 0;
      }
      if got > 0 {
        PauseBounded(got, rem, bps);
        ExactStep(bytes, slept, rem, bps, got);
        var acc := got * SECOND + rem;
        pause := acc / bps;
        rem := acc % bps;
        bytes, slept := bytes + got, slept + pause;
        ExactSettled(bytes, slept, rem, bps);
        if pause > 0 && !awake {
          return Canceled(got), pause;
        }
      }
      r := if fails then Failed(got) else Delivered(got);
    }
  }
}
