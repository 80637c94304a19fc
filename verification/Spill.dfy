/**
 Spill files (internal/store/spill.go). The directory is a map from file name to contents;
 a name is a flow id, a side and whether it still has the .tmp suffix. Writes and renames may
 fail; removals do not.
 */
module Spill {
  import opened Bytes
  import opened Flows

  type Id = nat

  datatype Side = Req | Resp | Ws

  datatype File = File(id: Id, side: Side, tmp: bool)

  type Files = map<File, seq<Byte>>

  /** A row as the index stores it: spilled bodies are empty and flagged. */
  datatype Record = Record(flow: Flow, resident: nat, reqSpill: bool, respSpill: bool, wsSpill: bool, epoch: nat)

  function Flag(rec: Record, side: Side): bool {
    match side
    case Req => rec.reqSpill
    case Resp => rec.respSpill
    case Ws => rec.wsSpill
  }

  function Live(files: Files): Files {
    map f | f in files && !f.tmp :: files[f]
  }

  // ---------------------------------------------------------------- loading

  function WsConcat(ws: seq<WsFrame>): seq<Byte> {
    if ws == [] then [] else ws[0].payload + WsConcat(ws[1..])
  }

  /** loadSpill's walk over the frames: each takes Size bytes of the blob; a short blob ends it. */
  function SplitFrames(ws: seq<WsFrame>, blob: seq<Byte>): seq<WsFrame> {
    if ws == [] then []
    else
      var n := if ws[0].size == 0 then |ws[0].payload| else ws[0].size;
      if n == 0 then [ws[0]] + SplitFrames(ws[1..], blob)
      else if n > |blob| then [ws[0].(payload := blob)] + ws[1..]
      else [ws[0].(payload := blob[..n])] + SplitFrames(ws[1..], blob[n..])
  }

  function LoadSide(m: Message, spilled: bool, files: Files, f: File): Message {
    if spilled && |m.body| == 0 && m.size > 0 && f in files then m.(body := files[f]) else m
  }

  function LoadWs(ws: seq<WsFrame>, spilled: bool, files: Files, f: File): seq<WsFrame> {
    if spilled && f in files then SplitFrames(ws, files[f]) else ws
  }

  /** What Get hands out. */
  function Load(rec: Record, id: Id, files: Files): Flow {
    rec.flow.(
      request := LoadSide(rec.flow.request, rec.reqSpill, files, File(id, Req, false)),
      response := LoadSide(rec.flow.response, rec.respSpill, files, File(id, Resp, false)),
      ws := LoadWs(rec.flow.ws, rec.wsSpill, files, File(id, Ws, false)))
  }

  /** Splitting the concatenated blob by frame size restores every payload. */
  lemma {:induction false} SplitRestores(ws: seq<WsFrame>, rest: seq<Byte>)
    requires HonestFrames(ws)
    ensures SplitFrames(Cleared(ws), WsConcat(ws) + rest) == ws
    decreases |ws|
  {
    if ws != [] {
      var blob := WsConcat(ws) + rest;
      var head := ws[0].payload;
      SplitRestores(ws[1..], rest);
      assert Cleared(ws)[1..] == Cleared(ws[1..]);
      assert blob == head + (WsConcat(ws[1..]) + rest);
      assert blob[..|head|] == head && blob[|head|..] == WsConcat(ws[1..]) + rest;
      assert ws == [ws[0]] + ws[1..];
    }
  }

  /** Sizes name the payload lengths, up to a last payload that may be overstated. */
  predicate Splittable(ws: seq<WsFrame>) {
    || ws == []
    || (ws[0].size == |ws[0].payload| && Splittable(ws[1..]))
    || (ws[0].size > |ws[0].payload| && WsConcat(ws[1..]) == [])
  }

  lemma {:induction false} NothingToClear(ws: seq<WsFrame>)
    requires WsConcat(ws) == []
    ensures Cleared(ws) == ws
    decreases |ws|
  {
    if ws != [] {
      assert |ws[0].payload| + |WsConcat(ws[1..])| == |WsConcat(ws)|;
      NothingToClear(ws[1..]);
      assert Cleared(ws)[1..] == Cleared(ws[1..]);
      assert ws == [ws[0]] + ws[1..] && Cleared(ws) == [Cleared(ws)[0]] + Cleared(ws)[1..];
    }
  }

  /** What the split makes of the first frame decides whether it restores the whole list. */
  lemma {:induction false} SplitRestoresIff(ws: seq<WsFrame>)
    ensures SplitFrames(Cleared(ws), WsConcat(ws)) == ws <==> Splittable(ws)
    decreases |ws|
  {
    if ws != [] {
      var c, blob, first, rest := Cleared(ws), WsConcat(ws), ws[0], ws[1..];
      assert c[1..] == Cleared(rest) && ws == [first] + rest;
      var out := SplitFrames(c, blob);
      if first.size == |first.payload| {
        SplitRestoresIff(rest);
        assert blob[..first.size] == first.payload && blob[first.size..] == WsConcat(rest);
        assert out == [first] + SplitFrames(Cleared(rest), WsConcat(rest));
        assert out[1..] == SplitFrames(Cleared(rest), WsConcat(rest));
      } else if first.size > |first.payload| && WsConcat(rest) == [] {
        NothingToClear(rest);
        assert blob == first.payload;
        assert out == [first] + rest;
      } else {
        assert |blob| == |first.payload| + |WsConcat(rest)|;
        assert out[0] != first;
      }
    }
  }

  /** With a size that is not the payload's, the split can hand one frame another frame's bytes. */
  lemma DishonestFramesDoNotSplit(a: Byte, b: Byte)
    requires a != b
    ensures
      var ws := [WsFrame([a], 2, false), WsFrame([b], 1, false)];
      SplitFrames(Cleared(ws), WsConcat(ws)) != ws
  {
    var ws := [WsFrame([a], 2, false), WsFrame([b], 1, false)];
    var c := Cleared(ws);
    assert c[0].size == 2 && c[0].payload == [];
    assert ws[1..][1..] == [] && WsConcat(ws[1..]) == [b];
    assert WsConcat(ws) == [a, b];
    assert SplitFrames(c, [a, b])[0].payload == [a, b];
  }

  // ---------------------------------------------------------------- writing

  /** Which sides of a flow have a temporary file. */
  datatype Job = Job(req: bool, resp: bool, ws: bool)

  predicate Big(data: seq<Byte>, spillOn: bool, threshold: nat) {
    spillOn && threshold > 0 && |data| >= threshold
  }

  function JobOf(f: Flow, spillOn: bool, threshold: nat): Job {
    Job(Big(f.request.body, spillOn, threshold),
        Big(f.response.body, spillOn, threshold),
        Big(WsConcat(f.ws), spillOn, threshold))
  }

  /** A flow with the spilled sides emptied. */
  function Emptied(f: Flow, job: Job): Flow {
    f.(request := if job.req then f.request.(body := []) else f.request,
       response := if job.resp then f.response.(body := []) else f.response,
       ws := if job.ws then Cleared(f.ws) else f.ws)
  }

  /** One of the files a job writes is among those that fail. */
  predicate Struck(job: Job, fails: set<Side>) {
    (job.req && Req in fails) || (job.resp && Resp in fails) || (job.ws && Ws in fails)
  }

  /** writeSpillTemps: on failure the temporaries already written are removed again. */
  method WriteTemps(files: Files, id: Id, f: Flow, spillOn: bool, threshold: nat, writeFails: set<Side>)
    returns (fs: Files, ok: bool)
    ensures Live(fs) == Live(files)
    ensures ok ==>
      var job := JobOf(f, spillOn, threshold);
      && (job.req ==> File(id, Req, true) in fs && fs[File(id, Req, true)] == f.request.body)
      && (job.resp ==> File(id, Resp, true) in fs && fs[File(id, Resp, true)] == f.response.body)
      && (job.ws ==> File(id, Ws, true) in fs && fs[File(id, Ws, true)] == WsConcat(f.ws))
    ensures ok <==> !Struck(JobOf(f, spillOn, threshold), writeFails)
  {
    fs := files;
    var job := JobOf(f, spillOn, threshold);
    if job.req {
      if Req in writeFails {
        return fs, false;
      }
      fs := fs[File(id, Req, true) := f.request.body];
    }
    if job.resp {
      if Resp in writeFails {
        fs := RemoveTemps(fs, id, Job(job.req, false, false));
        return fs, false;
      }
      fs := fs[File(id, Resp, true) := f.response.body];
    }
    if job.ws {
      if Ws in writeFails {
        fs := RemoveTemps(fs, id, Job(job.req, job.resp, false));
        return fs, false;
      }
      fs := fs[File(id, Ws, true) := WsConcat(f.ws)];
    }
    return fs, true;
  }

  /** unlinkSpillJob. */
  function RemoveTemps(files: Files, id: Id, job: Job): Files {
    files - ((if job.req then {File(id, Req, true)} else {})
             + (if job.resp then {File(id, Resp, true)} else {})
             + (if job.ws then {File(id, Ws, true)} else {}))
  }

  /** unlinkRecord. */
  function Unlink(files: Files, id: Id, rec: Record): Files {
    files - ((if rec.reqSpill then {File(id, Req, false)} else {})
             + (if rec.respSpill then {File(id, Resp, false)} else {})
             + (if rec.wsSpill then {File(id, Ws, false)} else {}))
  }

  function Rename(files: Files, id: Id, side: Side): (r: Files)
    requires File(id, side, true) in files
    ensures Live(r) == Live(files)[File(id, side, false) := files[File(id, side, true)]]
    ensures forall other | other != side && File(id, other, true) in files ::
      File(id, other, true) in r && r[File(id, other, true)] == files[File(id, other, true)]
  {
    (files - {File(id, side, true)})[File(id, side, false) := files[File(id, side, true)]]
  }

  function RemoveFinal(files: Files, id: Id, side: Side): (r: Files)
    ensures Live(r) == Live(files) - {File(id, side, false)}
  {
    files - {File(id, side, false)}
  }

  lemma RemoveTempsLive(files: Files, id: Id, job: Job)
    ensures Live(RemoveTemps(files, id, job)) == Live(files)
  {
  }

  function Put(live: Files, id: Id, side: Side, want: bool, data: seq<Byte>): Files {
    if want then live[File(id, side, false) := data] else live
  }

  /** The live files after a finished job. */
  function Added(live: Files, id: Id, f: Flow, job: Job): Files {
    Put(Put(Put(live, id, Req, job.req, f.request.body), id, Resp, job.resp, f.response.body),
        id, Ws, job.ws, WsConcat(f.ws))
  }

  /** commitSpill: all renames, or none of them left behind. */
  method Commit(files: Files, id: Id, f: Flow, job: Job, renameFails: set<Side>)
    returns (fs: Files, ok: bool)
    requires job.req ==> File(id, Req, true) in files && files[File(id, Req, true)] == f.request.body
    requires job.resp ==> File(id, Resp, true) in files && files[File(id, Resp, true)] == f.response.body
    requires job.ws ==> File(id, Ws, true) in files && files[File(id, Ws, true)] == WsConcat(f.ws)
    requires forall side :: File(id, side, false) !in Live(files)
    ensures ok ==> Live(fs) == Added(Live(files), id, f, job)
    ensures !ok ==> Live(fs) == Live(files)
    ensures ok <==> !Struck(job, renameFails)
  {
    fs := files;
    ghost var base := Live(files);
    if job.req {
      if Req in renameFails {
        RemoveTempsLive(fs, id, job);
        return RemoveTemps(fs, id, job), false;
      }
      fs := Rename(fs, id, Req);
    }
    ghost var one := Put(base, id, Req, job.req, f.request.body);
    assert Live(fs) == one;
    assert one - {File(id, Req, false)} == base && (!job.req ==> one == base);
    if job.resp {
      if Resp in renameFails {
        if job.req {
          fs := RemoveFinal(fs, id, Req);
        }
        RemoveTempsLive(fs, id, job.(req := false));
        return RemoveTemps(fs, id, job.(req := false)), false;
      }
      fs := Rename(fs, id, Resp);
    }
    ghost var two := Put(one, id, Resp, job.resp, f.response.body);
    assert Live(fs) == two;
    assert two - {File(id, Resp, false)} == one && (!job.resp ==> two == one);
    if job.ws {
      if Ws in renameFails {
        if job.resp {
          fs := RemoveFinal(fs, id, Resp);
        }
        if job.req {
          fs := RemoveFinal(fs, id, Req);
        }
        RemoveTempsLive(fs, id, Job(false, false, true));
        return RemoveTemps(fs, id, Job(false, false, true)), false;
      }
      fs := Rename(fs, id, Ws);
    }
    return fs, true;
  }
}
