/**
 How messages are cut into frames (writeHeaderBlock and writeResponse in
 internal/http2x/serve.go, writeRequestBody in internal/http2x/origin_conn.go).

 The reader of a body, the send windows and the connection are scripts: `script` is what
 each Read returns, `grants` what each take of send window allows (0, or the end of the
 script, is a take that fails), and `budget` how many frames can be written before the
 connection breaks. Header blocks are opaque bytes.
 */
module Framing {
  import opened Bytes
  import opened Windows

  datatype Frame =
    | HeadersFrame(fragment: seq<Byte>, endHeaders: bool, endStream: bool)
    | Continuation(fragment: seq<Byte>, endHeaders: bool)
    | DataFrame(payload: seq<Byte>, endStream: bool)

  datatype ReadEnd = More | EndOfBody | ReadError
  datatype ReadResult = ReadResult(chunk: seq<Byte>, end: ReadEnd)

  predicate EndsStream(f: Frame) {
    !f.Continuation? && f.endStream
  }

  // ---------------------------------------------------------------- reassembly

  /** What a receiver recovers from the fragments of a header block. */
  function Fragments(fs: seq<Frame>): seq<Byte>
    decreases |fs|
  {
    if fs == [] then []
    else
      var last := fs[|fs| - 1];
      Fragments(fs[..|fs| - 1]) + if last.DataFrame? then [] else last.fragment
  }

  /** What a receiver recovers from DATA frames. */
  function Payload(fs: seq<Frame>): seq<Byte>
    decreases |fs|
  {
    if fs == [] then []
    else
      var last := fs[|fs| - 1];
      Payload(fs[..|fs| - 1]) + if last.DataFrame? then last.payload else []
  }

  /** A body as its reader delivers it: every chunk up to the end of the body. */
  function BodyOf(script: seq<ReadResult>): seq<Byte> {
    if script == [] then []
    else if script[0].end == More then script[0].chunk + BodyOf(script[1..])
    else script[0].chunk
  }

  predicate ReadsToEnd(script: seq<ReadResult>) {
    script != [] && (script[0].end == EndOfBody || (script[0].end == More && ReadsToEnd(script[1..])))
  }

  /** Sections 6.2 and 6.10 of RFC 9113: one HEADERS, then CONTINUATION frames, END_HEADERS on the
      last of them only, END_STREAM on HEADERS or nowhere. */
  ghost predicate IsHeaderBlock(fs: seq<Frame>, block: seq<Byte>, endStream: bool) {
    && fs != [] && fs[0].HeadersFrame? && fs[0].endStream == endStream
    && (forall i | 0 <= i < |fs| :: !fs[i].DataFrame? && |fs[i].fragment| <= MAX_FRAME_PAYLOAD)
    && (forall i | 0 < i < |fs| :: fs[i].Continuation?)
    && (forall i | 0 <= i < |fs| :: fs[i].endHeaders == (i == |fs| - 1))
    && Fragments(fs) == block
  }

  /** DATA frames that carry `body`, END_STREAM on the last of them or on none. */
  ghost predicate IsData(fs: seq<Frame>, body: seq<Byte>, ended: bool) {
    && (forall i | 0 <= i < |fs| :: fs[i].DataFrame? && fs[i].endStream == (ended && i == |fs| - 1))
    && (ended ==> fs != [])
    && Payload(fs) == body
  }

  lemma PayloadSnoc(fs: seq<Frame>, f: Frame)
    ensures Payload(fs + [f]) == Payload(fs) + if f.DataFrame? then f.payload else []
  {
    assert (fs + [f])[..|fs + [f]| - 1] == fs;
  }

  lemma FragmentsSnoc(fs: seq<Frame>, f: Frame)
    ensures Fragments(fs + [f]) == Fragments(fs) + if f.DataFrame? then [] else f.fragment
  {
    assert (fs + [f])[..|fs + [f]| - 1] == fs;
  }

  lemma {:induction false} PayloadConcat(a: seq<Frame>, b: seq<Frame>)
    ensures Payload(a + b) == Payload(a) + Payload(b)
    decreases |b|
  {
    if b == [] {
      assert a + b == a;
    } else {
      assert (a + b)[..|a + b| - 1] == a + b[..|b| - 1];
      PayloadConcat(a, b[..|b| - 1]);
    }
  }

  lemma {:induction false} HeaderBlockHasNoPayload(fs: seq<Frame>)
    requires forall i | 0 <= i < |fs| :: !fs[i].DataFrame?
    ensures Payload(fs) == []
    decreases |fs|
  {
    if fs != [] {
      HeaderBlockHasNoPayload(fs[..|fs| - 1]);
    }
  }

  lemma DataConcat(a: seq<Frame>, x: seq<Byte>, b: seq<Frame>, y: seq<Byte>, ended: bool)
    requires IsData(a, x, false) && IsData(b, y, ended)
    ensures IsData(a + b, x + y, ended)
  {
    PayloadConcat(a, b);
  }

  lemma DataSnoc(a: seq<Frame>, x: seq<Byte>, p: seq<Byte>, ended: bool)
    requires IsData(a, x, false)
    ensures IsData(a + [DataFrame(p, ended)], x + p, ended)
  {
    PayloadSnoc(a, DataFrame(p, ended));
  }

  // ---------------------------------------------------------------- header blocks

  /** The frames of a header block written so far; `done` once the last fragment is out. */
  ghost predicate BlockSoFar(fs: seq<Frame>, sent: seq<Byte>, endStream: bool, done: bool) {
    && (fs != [] ==> fs[0].HeadersFrame? && fs[0].endStream == endStream)
    && (forall i | 0 <= i < |fs| :: !fs[i].DataFrame? && |fs[i].fragment| <= MAX_FRAME_PAYLOAD)
    && (forall i | 0 < i < |fs| :: fs[i].Continuation?)
    && (forall i | 0 <= i < |fs| :: fs[i].endHeaders == (i == |fs| - 1 && done))
    && Fragments(fs) == sent
  }

  lemma BlockSnoc(fs: seq<Frame>, sent: seq<Byte>, endStream: bool, chunk: seq<Byte>, done: bool)
    requires BlockSoFar(fs, sent, endStream, false) && |chunk| <= MAX_FRAME_PAYLOAD
    ensures
      var f := if fs == [] then HeadersFrame(chunk, done, endStream) else Continuation(chunk, done);
      BlockSoFar(fs + [f], sent + chunk, endStream, done)
  {
    var f := if fs == [] then HeadersFrame(chunk, done, endStream) else Continuation(chunk, done);
    FragmentsSnoc(fs, f);
  }

  lemma PrefixGrows(block: seq<Byte>, off: nat, n: nat)
    requires off + n <= |block|
    ensures block[..off] + block[off..off + n] == block[..off + n]
  {
  }

  /** How many frames a header block takes. */
  function BlockFrames(n: nat): (k: nat)
    ensures k > 0 && n <= k * MAX_FRAME_PAYLOAD && (k > 1 ==> n > (k - 1) * MAX_FRAME_PAYLOAD)
  {
    if n <= MAX_FRAME_PAYLOAD then 1 else 1 + BlockFrames(n - MAX_FRAME_PAYLOAD)
  }

  /** writeHeaderBlock: it succeeds exactly when the connection takes the frames the block needs, and what
      a failed one has written is the beginning of the block. */
  method WriteHeaderBlock(block: seq<Byte>, endStream: bool, budget: nat)
    returns (ok: bool, fs: seq<Frame>)
    ensures ok <==> BlockFrames(|block|) <= budget
    ensures ok ==> IsHeaderBlock(fs, block, endStream) && |fs| == BlockFrames(|block|)
    ensures !ok ==> |fs| == budget && BlockSoFar(fs, Fragments(fs), endStream, false) && Fragments(fs) <= block
    ensures forall i | 0 <= i < |fs| :: !fs[i].DataFrame?
  {
    hide BlockAt, BlockSoFar, IsHeaderBlock, Fragments, BlockFrames;
    fs := [];
    if |block| == 0 {
      EmptyBlock(block, endStream);
      if budget == 0 {
        return false, fs;
      }
      return true, [HeadersFrame(block, true, endStream)];
    }
    var off := 0;
    BlockStart(block, endStream);
    while off < |block|
      invariant 0 <= off <= |block| && |fs| <= budget && BlockAt(fs, block, off, endStream)
    {
      if |fs| == budget {
        BlockStopped(fs, block, off, endStream);
        return false, fs;
      }
      var n := |block| - off;
      if n > MAX_FRAME_PAYLOAD {
        n := MAX_FRAME_PAYLOAD;
      }
      var chunk := block[off..off + n];
      var endHeaders := off + n == |block|;
      BlockStep(fs, block, off, n, endStream);
      if off == 0 {
        fs := [HeadersFrame(chunk, endHeaders, endStream)];
      } else {
        fs := fs + [Continuation(chunk, endHeaders)];
      }
      off := off + n;
    }
    BlockWritten(fs, block, off, endStream);
    return true, fs;
  }

  lemma EmptyBlock(block: seq<Byte>, endStream: bool)
    requires block == []
    ensures BlockFrames(0) == 1 && IsHeaderBlock([HeadersFrame(block, true, endStream)], block, endStream)
    ensures Fragments([]) == [] && BlockSoFar([], Fragments([]), endStream, false)
  {
    BlockSnoc([], [], endStream, block, true);
    assert [] + [HeadersFrame(block, true, endStream)] == [HeadersFrame(block, true, endStream)];
  }

  lemma BlockStart(block: seq<Byte>, endStream: bool)
    requires |block| > 0
    ensures BlockAt([], block, 0, endStream)
  {
  }

  /** The frames written for the first `off` bytes of a block, and how many are still needed. */
  ghost predicate BlockAt(fs: seq<Frame>, block: seq<Byte>, off: int, endStream: bool) {
    && 0 <= off <= |block| && (off == 0 <==> fs == [])
    && BlockSoFar(fs, block[..off], endStream, off == |block|)
    && |fs| + (if off < |block| then BlockFrames(|block| - off) else 0) == BlockFrames(|block|)
  }

  lemma BlockStep(fs: seq<Frame>, block: seq<Byte>, off: nat, n: nat, endStream: bool)
    requires off < |block| && BlockAt(fs, block, off, endStream)
    requires n == if |block| - off > MAX_FRAME_PAYLOAD then MAX_FRAME_PAYLOAD else |block| - off
    ensures
      var chunk, done := block[off..off + n], off + n == |block|;
      var f := if off == 0 then HeadersFrame(chunk, done, endStream) else Continuation(chunk, done);
      BlockAt(fs + [f], block, off + n, endStream) && (off == 0 ==> fs + [f] == [f]) && |fs + [f]| == |fs| + 1
  {
    BlockSnoc(fs, block[..off], endStream, block[off..off + n], off + n == |block|);
    PrefixGrows(block, off, n);
  }

  lemma BlockStopped(fs: seq<Frame>, block: seq<Byte>, off: nat, endStream: bool)
    requires off < |block| && BlockAt(fs, block, off, endStream)
    ensures |fs| < BlockFrames(|block|) && Fragments(fs) <= block
    ensures BlockSoFar(fs, Fragments(fs), endStream, false) && forall i | 0 <= i < |fs| :: !fs[i].DataFrame?
  {
  }

  lemma BlockWritten(fs: seq<Frame>, block: seq<Byte>, off: nat, endStream: bool)
    requires off == |block| && off > 0 && BlockAt(fs, block, off, endStream)
    ensures IsHeaderBlock(fs, block, endStream) && |fs| == BlockFrames(|block|)
    ensures forall i | 0 <= i < |fs| :: !fs[i].DataFrame?
  {
    assert block[..off] == block;
  }

  // ---------------------------------------------------------------- bodies

  /** How many DATA frames n bytes are cut into by the grants, until one fails. */
  function Cuts(n: nat, grants: seq<nat>): (k: nat)
    ensures k <= |grants| && k <= n
  {
    if n == 0 || grants == [] || grants[0] == 0 then 0
    else 1 + Cuts(if grants[0] < n then n - grants[0] else 0, grants[1..])
  }

  /** The grants cover n bytes before one fails. */
  predicate Granted(n: nat, grants: seq<nat>) {
    n == 0 || (grants != [] && grants[0] > 0 && Granted(if grants[0] < n then n - grants[0] else 0, grants[1..]))
  }

  /** The frames a whole body takes. */
  function BodyCuts(script: seq<ReadResult>, trailing: bool, grants: seq<nat>): nat {
    if script == [] then 0
    else
      var r := script[0];
      var k := Cuts(|r.chunk|, grants);
      if r.end == More then k + BodyCuts(script[1..], trailing, grants[k..])
      else if r.end == EndOfBody && !trailing && r.chunk == [] then k + 1
      else k
  }

  /** The reader reaches the end of the body and the grants cover it. */
  predicate BodyGranted(script: seq<ReadResult>, grants: seq<nat>) {
    && script != [] && Granted(|script[0].chunk|, grants)
    && (script[0].end == EndOfBody
        || (script[0].end == More && BodyGranted(script[1..], grants[Cuts(|script[0].chunk|, grants)..])))
  }

  /** The inner loop both writers share: one chunk, cut by the grants, END_STREAM on its last
      frame if `last`. */
  method SendChunk(chunk: seq<Byte>, last: bool, grants: seq<nat>, budget: nat)
    returns (ok: bool, fs: seq<Frame>, rest: seq<nat>)
    ensures |fs| <= budget
    ensures ok <==> Granted(|chunk|, grants) && Cuts(|chunk|, grants) <= budget
    ensures ok ==> IsData(fs, chunk, last && chunk != [])
    ensures ok ==> |fs| == Cuts(|chunk|, grants) && rest == grants[|fs|..]
    ensures !ok ==> IsData(fs, Payload(fs), false) && Payload(fs) <= chunk
  {
    fs, rest := [], grants;
    var off := 0;
    hide Granted, Cuts, IsData, Payload;
    ChunkStart(chunk, last, grants);
    while off < |chunk|
      invariant 0 <= off <= |chunk| && |fs| <= budget && ChunkAt(chunk, last, grants, off, fs, rest)
    {
      if rest == [] || rest[0] == 0 {
        ChunkStopped(chunk, last, grants, off, fs, rest);
        return false, fs, rest;
      }
      var take := if rest[0] <= |chunk| - off then rest[0] else |chunk| - off;
      if |fs| == budget {
        ChunkStopped(chunk, last, grants, off, fs, rest);
        return false, fs, rest;
      }
      ChunkStep(chunk, last, grants, off, fs, rest, take);
      rest := rest[1..];
      fs := fs + [DataFrame(chunk[off..off + take], last && off + take == |chunk|)];
      off := off + take;
    }
    ChunkDone(chunk, last, grants, fs, rest);
    return true, fs, rest;
  }

  /** The frames sent for the first `off` bytes of a chunk, and what the grants still cover. */
  ghost predicate ChunkAt(chunk: seq<Byte>, last: bool, grants: seq<nat>, off: nat, fs: seq<Frame>, rest: seq<nat>) {
    && off <= |chunk| && IsData(fs, chunk[..off], last && 0 < off == |chunk|)
    && Granted(|chunk|, grants) == Granted(|chunk| - off, rest)
    && |fs| + Cuts(|chunk| - off, rest) == Cuts(|chunk|, grants)
    && |fs| <= |grants| && rest == grants[|fs|..]
  }

  lemma ChunkStart(chunk: seq<Byte>, last: bool, grants: seq<nat>)
    ensures ChunkAt(chunk, last, grants, 0, [], grants)
  {
  }

  lemma ChunkStep(chunk: seq<Byte>, last: bool, grants: seq<nat>, off: nat, fs: seq<Frame>, rest: seq<nat>, take: nat)
    requires ChunkAt(chunk, last, grants, off, fs, rest) && off < |chunk| && rest != [] && rest[0] > 0
    requires take == if rest[0] <= |chunk| - off then rest[0] else |chunk| - off
    ensures
      var f := DataFrame(chunk[off..off + take], last && off + take == |chunk|);
      ChunkAt(chunk, last, grants, off + take, fs + [f], rest[1..])
  {
    DataSnoc(fs, chunk[..off], chunk[off..off + take], last && off + take == |chunk|);
    PrefixGrows(chunk, off, take);
  }

  lemma ChunkStopped(chunk: seq<Byte>, last: bool, grants: seq<nat>, off: nat, fs: seq<Frame>, rest: seq<nat>)
    requires ChunkAt(chunk, last, grants, off, fs, rest) && off < |chunk|
    ensures IsData(fs, Payload(fs), false) && Payload(fs) <= chunk
    ensures rest == [] || rest[0] == 0 ==> !Granted(|chunk|, grants)
    ensures rest != [] && rest[0] > 0 ==> Cuts(|chunk|, grants) > |fs|
  {
  }

  lemma ChunkDone(chunk: seq<Byte>, last: bool, grants: seq<nat>, fs: seq<Frame>, rest: seq<nat>)
    requires ChunkAt(chunk, last, grants, |chunk|, fs, rest)
    ensures Granted(|chunk|, grants) && IsData(fs, chunk, last && chunk != [])
    ensures |fs| == Cuts(|chunk|, grants) && rest == grants[|fs|..]
  {
    assert chunk[..|chunk|] == chunk;
  }

  /** What is sent of a body before its i-th read. */
  ghost predicate Sending(script: seq<ReadResult>, trailing: bool, grants: seq<nat>, i: nat, fs: seq<Frame>,
                          sent: seq<Byte>, credit: seq<nat>)
  {
    && i <= |script| && IsData(fs, sent, false)
    && BodyOf(script) == sent + BodyOf(script[i..])
    && ReadsToEnd(script) == ReadsToEnd(script[i..])
    && BodyGranted(script, grants) == BodyGranted(script[i..], credit)
    && BodyCuts(script, trailing, grants) == |fs| + BodyCuts(script[i..], trailing, credit)
  }

  lemma SendingUnfold(script: seq<ReadResult>, trailing: bool, grants: seq<nat>, i: nat, fs: seq<Frame>,
                      sent: seq<Byte>, credit: seq<nat>)
    requires i < |script| && Sending(script, trailing, grants, i, fs, sent, credit)
    ensures
      var r, k := script[i], Cuts(|script[i].chunk|, credit);
      && |fs| + k <= BodyCuts(script, trailing, grants)
      && (!Granted(|r.chunk|, credit) ==> !BodyGranted(script, grants))
      && (Granted(|r.chunk|, credit) && r.end == EndOfBody ==> BodyGranted(script, grants))
      && (r.end == ReadError ==> !BodyGranted(script, grants))
      && (r.end == EndOfBody ==>
            BodyCuts(script, trailing, grants) == |fs| + k + if !trailing && r.chunk == [] then 1 else 0)
      && (r.end == More && Granted(|r.chunk|, credit) ==>
            && BodyGranted(script, grants) == BodyGranted(script[i + 1..], credit[k..])
            && BodyCuts(script, trailing, grants) == |fs| + k + BodyCuts(script[i + 1..], trailing, credit[k..]))
  {
    assert script[i..][0] == script[i] && script[i..][1..] == script[i + 1..];
  }

  /** The read loop both writers share. `trailing` tells whether END_STREAM is left to a trailer
      block. It succeeds exactly when the reader reaches the end of the body, the grants cover the body
      and the connection takes its frames. */
  method SendBody(script: seq<ReadResult>, trailing: bool, grants: seq<nat>, budget: nat)
    returns (ok: bool, fs: seq<Frame>)
    ensures |fs| <= budget
    ensures ok <==> BodyGranted(script, grants) && BodyCuts(script, trailing, grants) <= budget
    ensures ok ==> ReadsToEnd(script) && IsData(fs, BodyOf(script), !trailing)
    ensures ok ==> |fs| == BodyCuts(script, trailing, grants)
    ensures !ok ==> IsData(fs, Payload(fs), false) && Payload(fs) <= BodyOf(script)
  {
    hide IsData, Payload, BodyOf, ReadsToEnd, BodyGranted, BodyCuts, Granted, Cuts;
    fs := [];
    var i := 0;
    var credit := grants;
    ghost var sent: seq<Byte> := [];
    SendingStart(script, trailing, grants);
    while i < |script|
      invariant 0 <= i <= |script| && |fs| <= budget
      invariant Sending(script, trailing, grants, i, fs, sent, credit)
    {
      var chunk, end := script[i].chunk, script[i].end;
      var last := end == EndOfBody && !trailing;
      BodyUnfold(script, i, sent);
      SendingUnfold(script, trailing, grants, i, fs, sent, credit);
      var sentOk, out, left := SendChunk(chunk, last, credit, budget - |fs|);
      if !sentOk {
        SentSome(fs, sent, out, chunk, BodyOf(script));
        return false, fs + out;
      }
      DataConcat(fs, sent, out, chunk, last && chunk != []);
      DataPayload(fs + out, sent + chunk, last && chunk != []);
      fs := fs + out;
      credit := left;
      if end == EndOfBody {
        if last && chunk == [] {
          if |fs| == budget {
            return false, fs;
          }
          DataSnoc(fs, sent + chunk, [], true);
          fs := fs + [DataFrame([], true)];
          assert sent + chunk + [] == sent + chunk;
        }
        return true, fs;
      }
      if end == ReadError {
        return false, fs;
      }
      sent := sent + chunk;
      i := i + 1;
    }
    // A script that stops short of the end of the body is a reader that failed.
    SendingEnds(script, trailing, grants, fs, sent, credit);
    return false, fs;
  }

  lemma SendingStart(script: seq<ReadResult>, trailing: bool, grants: seq<nat>)
    ensures Sending(script, trailing, grants, 0, [], [], grants)
  {
    assert script[0..] == script;
  }

  lemma SendingEnds(script: seq<ReadResult>, trailing: bool, grants: seq<nat>, fs: seq<Frame>, sent: seq<Byte>,
                    credit: seq<nat>)
    requires Sending(script, trailing, grants, |script|, fs, sent, credit)
    ensures !BodyGranted(script, grants) && IsData(fs, Payload(fs), false) && Payload(fs) <= BodyOf(script)
  {
  }

  lemma DataPayload(fs: seq<Frame>, body: seq<Byte>, ended: bool)
    requires IsData(fs, body, ended)
    ensures Payload(fs) == body
  {
  }

  lemma SentSome(fs: seq<Frame>, sent: seq<Byte>, out: seq<Frame>, chunk: seq<Byte>, body: seq<Byte>)
    requires IsData(fs, sent, false) && IsData(out, Payload(out), false)
    requires Payload(out) <= chunk && sent + chunk <= body
    ensures IsData(fs + out, Payload(fs + out), false) && Payload(fs + out) <= body
  {
    DataConcat(fs, sent, out, Payload(out), false);
    DataPayload(fs + out, sent + Payload(out), false);
    assert sent + Payload(out) <= sent + chunk;
  }

  predicate NoneEmpty(grants: seq<nat>) {
    forall i | 0 <= i < |grants| :: grants[i] > 0
  }

  /** Enough grants, none of them empty, and one frame more than bytes always suffice. */
  lemma {:induction false} EnoughGrants(script: seq<ReadResult>, trailing: bool, grants: seq<nat>)
    requires ReadsToEnd(script) && NoneEmpty(grants) && |grants| >= |BodyOf(script)|
    ensures BodyGranted(script, grants) && BodyCuts(script, trailing, grants) <= |BodyOf(script)| + 1
    decreases |script|
  {
    var n := |script[0].chunk|;
    ChunkGranted(n, grants);
    if script[0].end == More {
      EnoughGrants(script[1..], trailing, grants[Cuts(n, grants)..]);
    }
  }

  lemma {:induction false} ChunkGranted(n: nat, grants: seq<nat>)
    requires NoneEmpty(grants) && |grants| >= n
    ensures Granted(n, grants)
    decreases n
  {
    if n > 0 {
      ChunkGranted(if grants[0] < n then n - grants[0] else 0, grants[1..]);
    }
  }

  lemma BodyUnfold(script: seq<ReadResult>, i: nat, sent: seq<Byte>)
    requires i < |script| && BodyOf(script) == sent + BodyOf(script[i..])
    ensures
      var r := script[i];
      && sent + r.chunk <= BodyOf(script)
      && (r.end == More ==> BodyOf(script) == sent + r.chunk + BodyOf(script[i + 1..]))
      && (r.end != More ==> BodyOf(script) == sent + r.chunk)
      && ReadsToEnd(script[i..]) == (r.end == EndOfBody || (r.end == More && ReadsToEnd(script[i + 1..])))
  {
    var here, next := script[i..], script[i + 1..];
    assert here[1..] == next && here[0] == script[i];
    Assoc(sent, script[i].chunk, BodyOf(next));
  }

  lemma Assoc(a: seq<Byte>, b: seq<Byte>, c: seq<Byte>)
    ensures a + (b + c) == a + b + c
  {
  }

  /** The frames of one message: a header block, then DATA, then an optional trailer block. */
  datatype Sent = Sent(head: seq<Frame>, data: seq<Frame>, tail: seq<Frame>)

  /** END_STREAM appears on exactly one frame: the HEADERS that opens the last block if the message
      has no body or ends with trailers, the last DATA frame otherwise. */
  ghost predicate EndsOnce(s: Sent) {
    var all := s.head + s.data + s.tail;
    exists k :: 0 <= k < |all| && EndsStream(all[k])
      && (forall j | 0 <= j < |all| && j != k :: !EndsStream(all[j]))
      && (if s.tail != [] then k == |s.head| + |s.data|
          else if s.data != [] then k == |all| - 1
          else k == 0)
  }

  /** What a response needs to go out: a body that reads to its end under its grants, and the frames. */
  predicate ResponseFits(head: nat, hasBody: bool, script: seq<ReadResult>, trailing: bool, tail: nat,
                         grants: seq<nat>, budget: nat)
  {
    && (hasBody ==> BodyGranted(script, grants))
    && BlockFrames(head) + (if hasBody then BodyCuts(script, trailing, grants) else 0)
       + (if trailing then BlockFrames(tail) else 0) <= budget
  }

  /** writeResponse. `trailers` are given by the handler, `late` are found in resp.Trailer once the
      body ended (or at once when there is no body); `trailerBlock` is their encoding. */
  method WriteResponse(head: seq<Byte>, hasBody: bool, script: seq<ReadResult>, trailers: nat, late: nat,
                       trailerBlock: seq<Byte>, grants: seq<nat>, budget: nat)
    returns (ok: bool, s: Sent)
    ensures ok <==> ResponseFits(|head|, hasBody, script, trailers + late > 0, |trailerBlock|, grants, budget)
    ensures ok ==>
      var trailing := trailers + late > 0;
      && IsHeaderBlock(s.head, head, !hasBody && !trailing)
      && (hasBody ==> ReadsToEnd(script) && IsData(s.data, BodyOf(script), !trailing))
      && (!hasBody ==> s.data == [])
      && (if trailing then IsHeaderBlock(s.tail, trailerBlock, true) else s.tail == [])
      && EndsOnce(s)
    ensures !ok ==> Payload(s.data) <= BodyOf(script) && forall i | 0 <= i < |s.data| :: !EndsStream(s.data[i])
    ensures |s.head| + |s.data| + |s.tail| <= budget
  {
    s := Sent([], [], []);
    var count := trailers;
    if !hasBody {
      count := count + late;
    }
    var sent, fs := WriteHeaderBlock(head, !hasBody && count == 0, budget);
    s := s.(head := fs);
    if !sent {
      return false, s;
    }
    if hasBody {
      // resp.Trailer is inspected after the end of the body, before its last chunk is framed
      count := count + late;
      sent, fs := SendBody(script, count > 0, grants, budget - |s.head|);
      s := s.(data := fs);
      if !sent {
        return false, s;
      }
    }
    if count > 0 {
      sent, fs := WriteHeaderBlock(trailerBlock, true, budget - |s.head| - |s.data|);
      s := s.(tail := fs);
      if !sent {
        if hasBody {
          assert s.data[..] == s.data;
        }
        return false, s;
      }
    }
    EndsOnceHolds(s, head, if hasBody then BodyOf(script) else [], trailerBlock, hasBody, count > 0);
    return true, s;
  }

  lemma EndsOnceHolds(s: Sent, head: seq<Byte>, body: seq<Byte>, tail: seq<Byte>, hasBody: bool, trailing: bool)
    requires IsHeaderBlock(s.head, head, !hasBody && !trailing)
    requires if hasBody then IsData(s.data, body, !trailing) else s.data == []
    requires if trailing then IsHeaderBlock(s.tail, tail, true) else s.tail == []
    ensures EndsOnce(s)
  {
    var all := s.head + s.data + s.tail;
    var k := if trailing then |s.head| + |s.data| else if hasBody then |all| - 1 else 0;
    assert EndsStream(all[k]);
  }

  /** writeRequestBody: DATA frames only, END_STREAM on the last. */
  method WriteRequestBody(script: seq<ReadResult>, grants: seq<nat>, budget: nat)
    returns (ok: bool, fs: seq<Frame>)
    ensures ok <==> BodyGranted(script, grants) && BodyCuts(script, false, grants) <= budget
    ensures ok ==> ReadsToEnd(script) && IsData(fs, BodyOf(script), true)
    ensures !ok ==> Payload(fs) <= BodyOf(script) && forall i | 0 <= i < |fs| :: !EndsStream(fs[i])
  {
    ok, fs := SendBody(script, false, grants, budget);
  }

  /** A receiver gets the message back: the header block from the opening frames, the body from the
      DATA frames, whatever the chunking and the grants were. */
  lemma ReceiverRecovers(s: Sent, head: seq<Byte>, body: seq<Byte>, ended: bool, endStream: bool)
    requires IsHeaderBlock(s.head, head, endStream) && IsData(s.data, body, ended)
    requires forall i | 0 <= i < |s.tail| :: !s.tail[i].DataFrame?
    ensures Fragments(s.head) == head
    ensures Payload(s.head + s.data + s.tail) == body
  {
    HeaderBlockHasNoPayload(s.head);
    HeaderBlockHasNoPayload(s.tail);
    PayloadConcat(s.head + s.data, s.tail);
    PayloadConcat(s.head, s.data);
    assert [] + body == body && body + [] == body;
  }
}
