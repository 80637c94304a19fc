/**
 The inspecting WebSocket relay (internal/proxy/ws.go): what is captured, and what is forwarded.

 Two pumps, one per direction, share one capture. storeRemain and appendCapturedFrame are its
 critical sections; between them a pump copies bytes while the other pump may append. Writes to
 the destination succeed, a source is the bytes it delivers before it ends, and rule actions
 other than drop and block count as a miss.
 */
module WsRelay {
  import opened Options
  import opened Bytes
  import opened WsCodec
  import Rules

  const WS_MAX_FRAMES := 4096
  const UNCAPPED_STORE := 1048576

  // ---------------------------------------------------------------- the shared capture

  datatype Meta = Meta(direction: string, opcode: Byte, fin: bool, masked: bool, closeCode: nat, action: string)

  /** One captured frame; its Size is the length of its payload. */
  datatype Shot = Shot(meta: Meta, payload: seq<Byte>, truncated: bool)

  datatype Capture = Capture(max: int, shots: seq<Shot>, stored: nat, stopCap: bool, count: nat, truncated: bool)

  /** What one appendCapturedFrame is given: the frame's bytes kept so far, and its declared length. */
  datatype Record = Record(meta: Meta, payload: seq<Byte>, declared: nat)

  function StoreRemain(c: Capture): nat {
    if c.stopCap then 0
    else if c.max <= 0 then UNCAPPED_STORE
    else if c.max - c.stored < 0 then 0 else c.max - c.stored
  }

  /** Only as many of these bytes as the cap leaves room for. */
  function Fitting(c: Capture, payload: seq<Byte>): seq<Byte> {
    if c.max > 0 && |payload| > c.max - c.stored then payload[..Max0(c.max - c.stored)] else payload
  }

  function Max0(n: int): nat {
    if n < 0 then 0 else n
  }

  function Append(c: Capture, r: Record): Capture {
    var seen := c.(count := c.count + 1);
    if c.stopCap || |c.shots| >= WS_MAX_FRAMES || (c.max > 0 && c.max - c.stored <= 0)
    then seen.(truncated := true, stopCap := true)
    else
      var kept := Fitting(c, r.payload);
      var cut := r.declared > |r.payload| || |kept| < |r.payload|;
      seen.(shots := c.shots + [Shot(r.meta, kept, cut)],
            stored := c.stored + |kept|,
            stopCap := cut,
            truncated := c.truncated || cut)
  }

  function AppendAll(c: Capture, rs: seq<Record>): Capture
    decreases |rs|
  {
    if rs == [] then c else Append(AppendAll(c, rs[..|rs| - 1]), rs[|rs| - 1])
  }

  function Total(shots: seq<Shot>): nat
    decreases |shots|
  {
    if shots == [] then 0 else Total(shots[..|shots| - 1]) + |shots[|shots| - 1].payload|
  }

  /** The byte cap, the frame cap and the flags: while nothing was cut, every frame seen is captured
      whole; from the first cut on, nothing more is. */
  ghost predicate CaptureOk(c: Capture) {
    && c.stored == Total(c.shots) && (c.max > 0 ==> c.stored <= c.max) && |c.shots| <= WS_MAX_FRAMES
    && (c.stopCap <==> c.truncated) && |c.shots| <= c.count
    && (!c.stopCap ==> c.count == |c.shots|)
    && (forall i | 0 <= i < |c.shots| :: c.shots[i].truncated ==> c.stopCap && i == |c.shots| - 1)
  }

  lemma TotalSnoc(shots: seq<Shot>, s: Shot)
    ensures Total(shots + [s]) == Total(shots) + |s.payload|
  {
    assert (shots + [s])[..|shots|] == shots;
  }

  lemma AppendOk(c: Capture, r: Record)
    requires CaptureOk(c)
    ensures CaptureOk(Append(c, r)) && Append(c, r).max == c.max
    ensures c.stored <= Append(c, r).stored && (c.stopCap ==> Append(c, r).stopCap)
    ensures c.shots <= Append(c, r).shots
  {
    var kept := Fitting(c, r.payload);
    TotalSnoc(c.shots, Shot(r.meta, kept, r.declared > |r.payload| || |kept| < |r.payload|));
  }

  /** Whatever the two pumps append, in whatever order. */
  lemma {:induction false} AppendAllOk(c: Capture, rs: seq<Record>)
    requires CaptureOk(c)
    ensures CaptureOk(AppendAll(c, rs)) && AppendAll(c, rs).max == c.max
    ensures c.stored <= AppendAll(c, rs).stored && (c.stopCap ==> AppendAll(c, rs).stopCap)
    ensures c.shots <= AppendAll(c, rs).shots
    decreases |rs|
  {
    if rs != [] {
      AppendAllOk(c, rs[..|rs| - 1]);
      AppendOk(AppendAll(c, rs[..|rs| - 1]), rs[|rs| - 1]);
    }
  }

  /** A frame kept only up to what was free earlier is captured like the whole frame, whatever the
      other pump appended meanwhile. */
  lemma PrefixSuffices(c: Capture, others: seq<Record>, meta: Meta, whole: seq<Byte>)
    requires CaptureOk(c) && c.max > 0
    ensures
      var now := AppendAll(c, others);
      Append(now, Record(meta, whole[..Min(StoreRemain(c), |whole|)], |whole|))
        == Append(now, Record(meta, whole, |whole|))
  {
    AppendAllOk(c, others);
    var now := AppendAll(c, others);
    var k := Min(StoreRemain(c), |whole|);
    if !now.stopCap {
      assert now.max - now.stored <= StoreRemain(c);
      if k < |whole| {
        assert whole[..k][..Min(k, now.max - now.stored)] == whole[..Min(k, now.max - now.stored)];
      } else {
        assert whole[..k] == whole;
      }
    }
  }

  // ---------------------------------------------------------------- one frame

  /** fillCloseCode. */
  function CloseCode(opcode: Byte, stored: seq<Byte>): nat {
    if opcode == OPCODE_CLOSE && |stored| >= 2 then var hi: int := stored[0]; 256 * hi + stored[1] else 0
  }

  function MetaOf(h: Header, dir: string, stored: seq<Byte>, action: string): Meta {
    Meta(dir, h.opcode, h.fin, h.masked, CloseCode(h.opcode, stored), action)
  }

  /** The payload a receiver would see. */
  function Whole(src: seq<Byte>, h: Header): seq<Byte>
    requires h.length <= |src|
  {
    Unmasked(src[..h.length], h.masked, h.key)
  }

  /** What a pump has of a payload when it appends: all of it if a rule had it loaded, otherwise as much as
      was free when the tee started. */
  function Stored(whole: seq<Byte>, loaded: bool, remain: nat): seq<Byte> {
    if loaded then whole else whole[..Min(remain, |whole|)]
  }

  function RecordOf(h: Header, dir: string, stored: seq<Byte>, action: string): Record {
    Record(MetaOf(h, dir, stored, action), stored, h.length)
  }

  /** The destination fails within a frame of n bytes: it takes fewer of them. */
  predicate Breaks(room: Option<nat>, n: nat) {
    room.Some? && room.value < n
  }

  /** Header and payload as both paths write them: `src` is what follows the header, and `room` how many
      bytes of the frame the destination takes before a write fails, if one does. */
  method CopyPayload(head: seq<Byte>, src: seq<Byte>, h: Header, loaded: bool, remain: nat, room: Option<nat>)
    returns (out: seq<Byte>, stored: seq<Byte>, ok: bool)
    requires loaded ==> h.length <= |src|
    ensures ok <==> h.length <= |src| && !Breaks(room, |head| + h.length)
    ensures ok ==> out == head + src[..h.length] && stored == Stored(Whole(src, h), loaded, remain)
    ensures !ok ==> out <= head + src[..Min(h.length, |src|)] && (room.None? ==> out == head + src)
  {
    var payload := src[..Min(h.length, |src|)];
    if Breaks(room, |head|) {
      Shorter(head, [], payload, room.value);
      return head[..room.value], [], false;
    }
    var left := if Breaks(room, |head| + h.length) then room.value - |head| else h.length;
    if loaded {
      if left < h.length {
        Shorter(head, src[..left], payload, |head|);
        return head + src[..left], Whole(src, h), false;
      }
      return head + src[..h.length], Whole(src, h), true;
    }
    var body;
    ghost var done;
    stored, body, ok, done := TeePayload(src, h.length, h.masked, h.key, remain, Writes(left, h.length), left % CHUNK);
    WritesFit(left, h.length);
    TeeKeeps(src, h, remain);
    assert src[..|src|] == src;
    Shorter(head, body, payload, |head|);
    return head + body, stored, ok;
  }

  /** The whole writes of a payload of n bytes that fit before `left` bytes are used up. */
  function Writes(left: nat, n: nat): nat {
    if left >= n then n else left / CHUNK
  }

  lemma WritesFit(left: nat, n: nat)
    requires left <= n
    ensures n <= Writes(left, n) * CHUNK <==> left == n
  {
    if left < n {
      assert left / CHUNK * CHUNK <= left;
    }
  }

  lemma Shorter(head: seq<Byte>, body: seq<Byte>, payload: seq<Byte>, n: nat)
    requires body <= payload && n <= |head|
    ensures head[..n] <= head + payload && head + body <= head + payload
  {
  }

  lemma TeeKeeps(src: seq<Byte>, h: Header, storeMax: nat)
    ensures h.length <= |src| ==>
      Kept(src[..h.length], h.masked, h.key, storeMax) == Whole(src, h)[..Min(storeMax, h.length)]
    ensures h.length * CHUNK >= h.length
  {
  }

  /** The two paths capture a frame alike, its payload and its truncation, whether or not a rule had it
      loaded first; their close codes alone can differ. */
  lemma PathsCaptureAlike(c: Capture, others: seq<Record>, src: seq<Byte>, h: Header, meta: Meta)
    requires CaptureOk(c) && h.length <= |src| && h.length <= c.max
    ensures
      var now := AppendAll(c, others);
      var whole := Whole(src, h);
      Append(now, Record(meta, Stored(whole, false, StoreRemain(c)), h.length))
      == Append(now, Record(meta, Stored(whole, true, StoreRemain(c)), h.length))
  {
    if c.max > 0 {
      PrefixSuffices(c, others, meta, Whole(src, h));
    } else {
      assert Whole(src, h)[..Min(StoreRemain(c), h.length)] == Whole(src, h);
    }
  }

  /** The close codes agree unless a close frame spells a code other than 0 and fewer than two bytes
      were free. */
  lemma CloseCodesAgreeIff(c: Capture, src: seq<Byte>, h: Header)
    requires h.length <= |src|
    ensures
      var whole := Whole(src, h);
      CloseCode(h.opcode, Stored(whole, false, StoreRemain(c)))
        == CloseCode(h.opcode, Stored(whole, true, StoreRemain(c)))
      <==> StoreRemain(c) >= 2 || CloseCode(h.opcode, whole) == 0
  {
  }

  /** After one captured byte a cap of two leaves one free: a close frame with code 1000 is then captured
      with its code if a rule had it loaded, and with code 0 otherwise. */
  lemma CloseCodesCanDiffer(meta: Meta)
    ensures
      var c := Append(Capture(2, [], 0, false, 0, false), Record(meta, [65], 1));
      var h := Header(true, false, false, false, OPCODE_CLOSE, false, NO_KEY, 2);
      var whole := Whole([3, 232], h);
      && CaptureOk(c) && StoreRemain(c) == 1 && h.length <= c.max
      && CloseCode(h.opcode, Stored(whole, true, StoreRemain(c))) == 1000
      && CloseCode(h.opcode, Stored(whole, false, StoreRemain(c))) == 0
  {
    var empty := Capture(2, [], 0, false, 0, false);
    AppendOk(empty, Record(meta, [65], 1));
    assert Append(empty, Record(meta, [65], 1)).stored == 1;
    assert [3, 232][..2] == [3, 232];
  }

  // ---------------------------------------------------------------- one direction

  datatype Engine = Engine(on: bool, rules: seq<Rules.Rule>, fits: (Header, Rules.Rule) -> bool)

  function Fits(eng: Engine, h: Header): Rules.Rule -> bool {
    (r: Rules.Rule) => eng.fits(h, r)
  }

  function Hit(eng: Engine, h: Header, payload: Option<seq<Byte>>): Option<Rules.Rule> {
    Rules.Match(eng.on, eng.rules, Rules.WebSocketPhase, Fits(eng, h), payload)
  }

  predicate Needed(eng: Engine, h: Header, max: int) {
    h.length > 0 && Rules.NeedsPayload(eng.on, eng.rules, Fits(eng, h), h.length, max)
  }

  /** What becomes of a frame. `PassAndFail` forwards it and then ends both directions with a protocol
      error; `Reject` ends them without forwarding; `Break` is a frame the destination fails to take. */
  datatype Decision = Pass | PassAndFail | Omit | OmitAndStop | Reject | Break

  function DecisionOf(hit: Option<Rules.Rule>): Decision {
    if hit.None? || hit.value.action == Rules.OtherAction then Pass
    else if hit.value.action == Rules.Drop then Omit else OmitAndStop
  }

  predicate RulesPath(eng: Engine) {
    Rules.HasEnabledWebSocket(eng.on, eng.rules)
  }

  /** Section 5.5.1 of RFC 6455: a close payload is empty or starts with a two-byte code. */
  predicate HalfCode(h: Header) {
    h.opcode == OPCODE_CLOSE && h.length == 1
  }

  /** The fate of a frame, judged with its payload loaded whenever it is small enough. */
  ghost function Decide(eng: Engine, h: Header, whole: seq<Byte>, max: int): Decision {
    if !RulesPath(eng) then (if HalfCode(h) then PassAndFail else Pass)
    else if HalfCode(h) then Reject
    else DecisionOf(Hit(eng, h, Rules.EagerPayload(whole, max)))
  }

  /** What becomes of it once it is written. */
  ghost function Fate(eng: Engine, h: Header, whole: seq<Byte>, max: int, breaks: bool): Decision {
    var d := Decide(eng, h, whole, max);
    if breaks && Sends(d) then Break else d
  }

  predicate Sends(d: Decision) {
    d == Pass || d == PassAndFail
  }

  predicate GoesOn(d: Decision, h: Header) {
    d == Omit || (d == Pass && h.opcode != OPCODE_CLOSE)
  }

  function ActionOf(d: Decision): string {
    if d == Omit then "drop" else if d == OmitAndStop then "block" else ""
  }

  /** What the pump appends for a complete frame: nothing for one that was not written whole, or for a close
      frame with half a code. */
  ghost function Recorded(eng: Engine, dir: string, h: Header, whole: seq<Byte>, max: int, remain: nat,
                          breaks: bool): seq<Record>
  {
    var d := Fate(eng, h, whole, max, breaks);
    if d == PassAndFail || d == Reject || d == Break then []
    else [RecordOf(h, dir, Stored(whole, RulesPath(eng) && Needed(eng, h, max), remain), ActionOf(d))]
  }

  /** With rules on and no rule hit, a frame passes exactly if it is no close frame with half a code; on the
      fast path that frame is forwarded too, so there the two paths differ. */
  lemma MissPassesIff(eng: Engine, h: Header, whole: seq<Byte>, max: int)
    requires RulesPath(eng) && Hit(eng, h, Rules.EagerPayload(whole, max)).None?
    ensures Decide(eng, h, whole, max) == Pass <==> !HalfCode(h)
  {
  }

  /** So a frame no rule hits is sent on both paths or on neither, and continues alike, if and only if it is
      no close frame with half a code. */
  lemma PathsSendAlikeIff(eng: Engine, fast: Engine, h: Header, whole: seq<Byte>, max: int)
    requires RulesPath(eng) && !RulesPath(fast) && Hit(eng, h, Rules.EagerPayload(whole, max)).None?
    ensures Sends(Decide(eng, h, whole, max)) == Sends(Decide(fast, h, whole, max)) <==> !HalfCode(h)
    ensures GoesOn(Decide(eng, h, whole, max), h) == GoesOn(Decide(fast, h, whole, max), h)
  {
    MissPassesIff(eng, h, whole, max);
  }

  /** pumpRules before the verdict: the payload is loaded only if the rules ask for it. */
  lemma LazyVerdict(eng: Engine, h: Header, whole: seq<Byte>, max: int)
    requires Rules.PhasedPayloads(eng.rules) && |whole| == h.length
    ensures Hit(eng, h, if Needed(eng, h, max) then Some(whole) else None)
            == Hit(eng, h, Rules.EagerPayload(whole, max))
  {
    Rules.LazyIsEager(eng.on, eng.rules, Fits(eng, h), whole, max);
  }

  /** What pumping one frame sends, captures and reports. `body` is what follows the header; a frame that
      the source breaks off, or that the destination fails to take, is forwarded in part, and not captured. */
  ghost predicate OneFrame(c: Capture, others: seq<Record>, h: Header, head: seq<Byte>, body: seq<Byte>, eng: Engine,
                           dir: string, room: Option<nat>, out: seq<Byte>, next: Capture, goesOn: bool, failed: bool)
  {
    var now := AppendAll(c, others);
    if |body| < h.length then out <= head + body && !goesOn && next == now
      && (failed <==> RulesPath(eng) && HalfCode(h))
    else
      var breaks := Breaks(room, |head| + h.length);
      var d := Fate(eng, h, Whole(body, h), c.max, breaks);
      && (if d == Break then out <= head + body[..h.length]
          else out == if Sends(d) then head + body[..h.length] else [])
      && next == AppendAll(now, Recorded(eng, dir, h, Whole(body, h), c.max, StoreRemain(c), breaks))
      && goesOn == GoesOn(d, h) && (failed <==> d == PassAndFail || d == Reject)
  }

  /** The rule that decides about a frame: the first that matches it, its payload looked at if it is small enough. */
  function HitOn(eng: Engine, h: Header, whole: seq<Byte>, max: int): Option<Rules.Rule> {
    Rules.Match(eng.on, eng.rules, Rules.WebSocketPhase, Fits(eng, h), if 0 < |whole| <= max then Some(whole) else None)
  }

  predicate Drops(hit: Option<Rules.Rule>) {
    hit.Some? && hit.value.action == Rules.Drop
  }

  predicate Blocks(hit: Option<Rules.Rule>) {
    hit.Some? && hit.value.action == Rules.Block
  }

  /** One frame noted under an action: its head, its length, and the payload or a beginning of it. */
  ghost predicate Noted(now: Capture, next: Capture, h: Header, dir: string, whole: seq<Byte>, action: string) {
    exists r: Record ::
      && next == Append(now, r)
      && r.meta.direction == dir && r.meta.opcode == h.opcode && r.meta.fin == h.fin && r.meta.masked == h.masked
      && r.meta.action == action && r.declared == h.length && r.payload <= whole
  }

  /** What a complete frame that is no close frame with half a code comes to, by the rule that hits it. One that
      drops keeps it from the destination, notes the drop, and the pump goes on; one that blocks notes the block
      and ends the pump; any other, or none, lets it through whole if the write succeeds, and only a close frame
      ends the pump then. Without websocket rules no rule is asked. */
  ghost predicate Verdict(now: Capture, h: Header, head: seq<Byte>, body: seq<Byte>, eng: Engine, dir: string,
                          max: int, room: Option<nat>, out: seq<Byte>, next: Capture, goesOn: bool)
    requires h.length <= |body|
  {
    var whole := Whole(body, h);
    var hit := if RulesPath(eng) then HitOn(eng, h, whole, max) else None;
    if Drops(hit) then out == [] && Noted(now, next, h, dir, whole, "drop") && goesOn
    else if Blocks(hit) then out == [] && Noted(now, next, h, dir, whole, "block") && !goesOn
    else if Breaks(room, |head| + h.length) then out <= head + body[..h.length] && next == now && !goesOn
    else
      && out == head + body[..h.length] && Noted(now, next, h, dir, whole, "")
      && (goesOn <==> h.opcode != OPCODE_CLOSE)
  }

  lemma RecordedIsNoted(now: Capture, h: Header, dir: string, whole: seq<Byte>, loaded: bool, remain: nat,
                        action: string)
    ensures Noted(now, AppendAll(now, [RecordOf(h, dir, Stored(whole, loaded, remain), action)]), h, dir, whole, action)
  {
    var r := RecordOf(h, dir, Stored(whole, loaded, remain), action);
    AppendOne(now, r);
    hide Append, AppendAll, CloseCode;
    assert AppendAll(now, [r]) == Append(now, r);
  }

  lemma FrameVerdict(c: Capture, others: seq<Record>, h: Header, head: seq<Byte>, body: seq<Byte>, eng: Engine,
                     dir: string, room: Option<nat>, out: seq<Byte>, next: Capture, goesOn: bool, failed: bool)
    requires OneFrame(c, others, h, head, body, eng, dir, room, out, next, goesOn, failed)
    requires h.length <= |body| && !HalfCode(h)
    ensures Verdict(AppendAll(c, others), h, head, body, eng, dir, c.max, room, out, next, goesOn) && !failed
  {
    hide AppendAll, RecordOf, Stored, Needed, Noted, Whole, Unmasked, StoreRemain, Breaks, RulesPath, Rules.Match;
    var now, whole := AppendAll(c, others), Whole(body, h);
    WholeLength(body, h);
    var d := Decide(eng, h, whole, c.max);
    RecordedIsNoted(now, h, dir, whole, RulesPath(eng) && Needed(eng, h, c.max), StoreRemain(c), ActionOf(d));
    NothingAppended(now);
  }

  lemma WholeLength(body: seq<Byte>, h: Header)
    requires h.length <= |body|
    ensures |Whole(body, h)| == h.length
  {
  }

  lemma AppendOne(c: Capture, r: Record)
    ensures AppendAll(c, [r]) == Append(c, r) && AppendAll(c, []) == c
  {
    assert [r][..0] == [];
    assert AppendAll(c, [r][..0]) == c;
  }

  /** pumpFast. */
  method PumpFast(c: Capture, others: seq<Record>, h: Header, head: seq<Byte>, body: seq<Byte>, eng: Engine,
                  dir: string, room: Option<nat>)
    returns (out: seq<Byte>, next: Capture, goesOn: bool, failed: bool)
    requires !RulesPath(eng)
    ensures OneFrame(c, others, h, head, body, eng, dir, room, out, next, goesOn, failed)
  {
    var stored, ok;
    out, stored, ok := CopyPayload(head, body, h, false, StoreRemain(c), room);
    next := AppendAll(c, others);
    if !ok {
      return out, next, false, false;
    }
    AppendOne(next, RecordOf(h, dir, stored, ""));
    if h.opcode == OPCODE_CLOSE && h.length == 1 {
      return out, next, false, true;
    }
    next := Append(next, RecordOf(h, dir, stored, ""));
    return out, next, h.opcode != OPCODE_CLOSE, false;
  }

  /** pumpRules, with forwardMiss and applyOmit. */
  method PumpRules(c: Capture, others: seq<Record>, h: Header, head: seq<Byte>, body: seq<Byte>, eng: Engine,
                   dir: string, room: Option<nat>)
    returns (out: seq<Byte>, next: Capture, goesOn: bool, failed: bool)
    requires RulesPath(eng) && Rules.PhasedPayloads(eng.rules)
    ensures OneFrame(c, others, h, head, body, eng, dir, room, out, next, goesOn, failed)
    ensures h.length <= |body| && !(h.opcode == OPCODE_CLOSE && h.length == 1) ==>
      Verdict(AppendAll(c, others), h, head, body, eng, dir, c.max, room, out, next, goesOn) && !failed
  {
    hide OneFrame, Verdict;
    next := AppendAll(c, others);
    if h.opcode == OPCODE_CLOSE && h.length == 1 {
      UnsentFrame(c, others, h, head, body, eng, dir, room);
      return [], next, false, true;
    }
    var needed := Needed(eng, h, c.max);
    if needed && |body| < h.length {
      UnsentFrame(c, others, h, head, body, eng, dir, room);
      return [], next, false, false;
    }
    if |body| >= h.length {
      LazyVerdict(eng, h, Whole(body, h), c.max);
    }
    var d := DecisionOf(Hit(eng, h, if needed then Some(Whole(body, h)) else None));
    var ok;
    out, next, ok := Carry(c, others, h, head, body, dir, d, needed, room);
    goesOn, failed := ok && GoesOn(d, h), false;
    CarriedFrame(c, others, h, head, body, eng, dir, room, d, out, next, ok);
    CarriedVerdict(c, others, h, head, body, eng, dir, room, out, next, goesOn);
    hide *;
  }

  /** A close frame with half a code, and a frame the source broke off, with nothing of them sent. */
  lemma UnsentFrame(c: Capture, others: seq<Record>, h: Header, head: seq<Byte>, body: seq<Byte>, eng: Engine,
                    dir: string, room: Option<nat>)
    requires RulesPath(eng)
    ensures HalfCode(h) ==> OneFrame(c, others, h, head, body, eng, dir, room, [], AppendAll(c, others), false, true)
    ensures !HalfCode(h) && |body| < h.length ==>
      OneFrame(c, others, h, head, body, eng, dir, room, [], AppendAll(c, others), false, false)
  {
    hide Rules.HasEnabledWebSocket, Hit, Needed, Unmasked;
    NothingAppended(AppendAll(c, others));
  }

  lemma CarriedVerdict(c: Capture, others: seq<Record>, h: Header, head: seq<Byte>, body: seq<Byte>, eng: Engine,
                       dir: string, room: Option<nat>, out: seq<Byte>, next: Capture, goesOn: bool)
    requires OneFrame(c, others, h, head, body, eng, dir, room, out, next, goesOn, false)
    ensures h.length <= |body| && !(h.opcode == OPCODE_CLOSE && h.length == 1) ==>
      Verdict(AppendAll(c, others), h, head, body, eng, dir, c.max, room, out, next, goesOn)
  {
    hide OneFrame, Verdict, AppendAll;
    if h.length <= |body| && !HalfCode(h) {
      FrameVerdict(c, others, h, head, body, eng, dir, room, out, next, goesOn, false);
    }
  }

  /** A frame that was judged and carried. */
  lemma CarriedFrame(c: Capture, others: seq<Record>, h: Header, head: seq<Byte>, body: seq<Byte>, eng: Engine,
                     dir: string, room: Option<nat>, d: Decision, out: seq<Byte>, next: Capture, ok: bool)
    requires RulesPath(eng) && !HalfCode(h) && (d == Pass || d == Omit || d == OmitAndStop)
    requires h.length <= |body| ==> d == Decide(eng, h, Whole(body, h), c.max)
    requires ok <==> h.length <= |body| && !(d == Pass && Breaks(room, |head| + h.length))
    requires !ok ==> out <= head + body[..Min(h.length, |body|)] && next == AppendAll(c, others)
    requires ok ==>
      var stored := Stored(Whole(body, h), Needed(eng, h, c.max), StoreRemain(c));
      && out == (if d == Pass then head + body[..h.length] else [])
      && next == AppendAll(AppendAll(c, others), [RecordOf(h, dir, stored, ActionOf(d))])
    ensures OneFrame(c, others, h, head, body, eng, dir, room, out, next, ok && GoesOn(d, h), false)
  {
    hide Decide, Whole, Stored, RecordOf, Needed, RulesPath, StoreRemain, Breaks, HalfCode;
    if |body| < h.length {
      assert body[..|body|] == body;
    } else if !ok {
      NothingAppended(AppendAll(c, others));
    }
  }

  lemma NothingAppended(c: Capture)
    ensures AppendAll(c, []) == c
  {
  }

  /** forwardMiss, or applyOmit, which copies the payload to io.Discard. */
  method Carry(c: Capture, others: seq<Record>, h: Header, head: seq<Byte>, body: seq<Byte>, dir: string, d: Decision,
               loaded: bool, room: Option<nat>)
    returns (out: seq<Byte>, next: Capture, ok: bool)
    requires loaded ==> h.length <= |body|
    ensures ok <==> h.length <= |body| && !(d == Pass && Breaks(room, |head| + h.length))
    ensures !ok ==> out <= head + body[..Min(h.length, |body|)] && next == AppendAll(c, others)
    ensures ok ==>
      var stored := Stored(Whole(body, h), loaded, StoreRemain(c));
      && out == (if d == Pass then head + body[..h.length] else [])
      && next == AppendAll(AppendAll(c, others), [RecordOf(h, dir, stored, ActionOf(d))])
  {
    var stored;
    out, stored, ok := CopyPayload(head, body, h, loaded, StoreRemain(c), if d == Pass then room else None);
    next := AppendAll(c, others);
    if d != Pass {
      out := [];
    }
    if ok {
      AppendOne(next, RecordOf(h, dir, stored, ActionOf(d)));
      next := Append(next, RecordOf(h, dir, stored, ActionOf(d)));
    }
  }

  /** The rest of pump's loop body once a header was read. */
  method PumpFrame(c: Capture, others: seq<Record>, h: Header, head: seq<Byte>, body: seq<Byte>, eng: Engine,
                   dir: string, room: Option<nat>)
    returns (out: seq<Byte>, next: Capture, goesOn: bool, failed: bool)
    requires Rules.PhasedPayloads(eng.rules)
    ensures OneFrame(c, others, h, head, body, eng, dir, room, out, next, goesOn, failed)
    ensures h.length <= |body| && !(h.opcode == OPCODE_CLOSE && h.length == 1) ==>
      Verdict(AppendAll(c, others), h, head, body, eng, dir, c.max, room, out, next, goesOn) && !failed
  {
    if RulesPath(eng) {
      out, next, goesOn, failed := PumpRules(c, others, h, head, body, eng, dir, room);
    } else {
      out, next, goesOn, failed := PumpFast(c, others, h, head, body, eng, dir, room);
    }
    if h.length <= |body| && !HalfCode(h) {
      FrameVerdict(c, others, h, head, body, eng, dir, room, out, next, goesOn, failed);
    }
    hide OneFrame, Verdict;
  }

  // ---------------------------------------------------------------- a whole source

  /** A complete frame as it came: its header, its wire bytes, and its payload unmasked. */
  datatype Piece = Piece(h: Header, wire: seq<Byte>, raw: seq<Byte>)

  /** The payload of a cut frame, unmasked. */
  function Clear(p: Piece): seq<Byte> {
    Unmasked(p.raw, p.h.masked, p.h.key)
  }

  /** The complete frames of a source, in order. */
  ghost function Frames(src: seq<Byte>): seq<Piece>
    decreases |src|
  {
    match ReadHeader(src)
    case Parsed(h, used) =>
      if |src| < used + h.length then []
      else [Piece(h, src[..used + h.length], src[used..used + h.length])] + Frames(src[used + h.length..])
    case _ => []
  }

  /** What follows the complete frames. */
  ghost function Tail(src: seq<Byte>): seq<Byte>
    decreases |src|
  {
    match ReadHeader(src)
    case Parsed(h, used) => if |src| < used + h.length then src else Tail(src[used + h.length..])
    case _ => src
  }

  /** How a source ends: inside a header or between frames, with bytes that are no header, or inside the
      payload of a frame. */
  datatype Ending = Clean | Malformed | Unfinished(h: Header)

  ghost function EndingOf(tail: seq<Byte>): Ending {
    match ReadHeader(tail)
    case Parsed(h, _) => Unfinished(h)
    case ProtocolError => Malformed
    case Short => Clean
  }

  /** What happens around the pump: the records the other pump appends during this pump's i-th frame,
      whether it has reported a protocol error when that frame would start, and how many bytes of that
      frame the destination takes before a write fails, if one does. */
  datatype Peer = Peer(appends: nat -> seq<Record>, failed: nat -> bool, accepts: nat -> Option<nat>)

  predicate BreaksAt(p: Piece, peer: Peer, i: nat) {
    Breaks(peer.accepts(i), |p.wire|)
  }

  ghost function FateAt(fs: seq<Piece>, eng: Engine, max: int, peer: Peer, i: nat): Decision
    requires fs != []
  {
    Fate(eng, fs[0].h, Clear(fs[0]), max, BreaksAt(fs[0], peer, i))
  }

  /** The wire bytes of the frames that pass, up to where the pump stops. */
  ghost function Sent(fs: seq<Piece>, eng: Engine, max: int, peer: Peer, i: nat): seq<Byte>
    decreases |fs|
  {
    if fs == [] || peer.failed(i) then []
    else
      var d := FateAt(fs, eng, max, peer, i);
      (if Sends(d) then fs[0].wire else []) + if GoesOn(d, fs[0].h) then Sent(fs[1..], eng, max, peer, i + 1) else []
  }

  /** The frame whose beginning may follow: one the destination fails to take, or one the source broke off. */
  ghost function Partly(fs: seq<Piece>, tail: seq<Byte>, eng: Engine, max: int, peer: Peer, i: nat): seq<Byte>
    decreases |fs|
  {
    if peer.failed(i) then []
    else if fs == [] then tail
    else
      var d := FateAt(fs, eng, max, peer, i);
      if d == Break then fs[0].wire
      else if GoesOn(d, fs[0].h) then Partly(fs[1..], tail, eng, max, peer, i + 1) else []
  }

  /** The pump stops before the source ends. */
  ghost predicate Stops(fs: seq<Piece>, eng: Engine, max: int, peer: Peer, i: nat)
    decreases |fs|
  {
    peer.failed(i)
    || (fs != [] && (!GoesOn(FateAt(fs, eng, max, peer, i), fs[0].h) || Stops(fs[1..], eng, max, peer, i + 1)))
  }

  /** The pump itself reports a protocol error. */
  ghost predicate Fails(fs: seq<Piece>, end: Ending, eng: Engine, max: int, peer: Peer, i: nat)
    decreases |fs|
  {
    && !peer.failed(i)
    && if fs == [] then end.Malformed? || (end.Unfinished? && RulesPath(eng) && HalfCode(end.h))
       else
         var d := FateAt(fs, eng, max, peer, i);
         d == PassAndFail || d == Reject || (GoesOn(d, fs[0].h) && Fails(fs[1..], end, eng, max, peer, i + 1))
  }

  /** The capture the pump leaves: its own records, one per frame, among those of the other pump. */
  ghost function Captured(c: Capture, fs: seq<Piece>, end: Ending, eng: Engine, dir: string, peer: Peer,
                          i: nat): Capture
    decreases |fs|
  {
    if peer.failed(i) then c
    else if fs == [] then if end.Unfinished? then AppendAll(c, peer.appends(i)) else c
    else
      var own := Recorded(eng, dir, fs[0].h, Clear(fs[0]), c.max, StoreRemain(c), BreaksAt(fs[0], peer, i));
      var next := AppendAll(AppendAll(c, peer.appends(i)), own);
      if GoesOn(FateAt(fs, eng, c.max, peer, i), fs[0].h) then Captured(next, fs[1..], end, eng, dir, peer, i + 1)
      else next
  }

  lemma {:induction false} AppendAllMax(c: Capture, rs: seq<Record>)
    ensures AppendAll(c, rs).max == c.max
    decreases |rs|
  {
    if rs != [] {
      AppendAllMax(c, rs[..|rs| - 1]);
    }
  }

  lemma AppendBothOk(c: Capture, others: seq<Record>, own: seq<Record>)
    requires CaptureOk(c)
    ensures CaptureOk(AppendAll(AppendAll(c, others), own)) && c.shots <= AppendAll(AppendAll(c, others), own).shots
  {
    AppendAllOk(c, others);
    AppendAllOk(AppendAll(c, others), own);
  }

  /** The caps hold in what the pump leaves, whatever the other pump does. */
  lemma {:induction false} CapturedOk(c: Capture, fs: seq<Piece>, end: Ending, eng: Engine, dir: string, peer: Peer,
                                      i: nat)
    requires CaptureOk(c)
    ensures CaptureOk(Captured(c, fs, end, eng, dir, peer, i))
      && c.shots <= Captured(c, fs, end, eng, dir, peer, i).shots
    decreases |fs|
  {
    if fs == [] {
      AppendAllOk(c, peer.appends(i));
    } else {
      var own := Recorded(eng, dir, fs[0].h, Clear(fs[0]), c.max, StoreRemain(c), BreaksAt(fs[0], peer, i));
      AppendBothOk(c, peer.appends(i), own);
      CapturedOk(AppendAll(AppendAll(c, peer.appends(i)), own), fs[1..], end, eng, dir, peer, i + 1);
    }
  }

  lemma Rejoined(src: seq<Byte>, used: nat, n: nat)
    requires used + n <= |src|
    ensures src[..used + n] == src[..used] + src[used..][..n]
    ensures src[used..used + n] == src[used..][..n]
    ensures src[used + n..] == src[used..][n..]
  {
  }

  lemma FramesUnfold(src: seq<Byte>, h: Header, used: nat)
    requires ReadHeader(src) == Parsed(h, used) && used + h.length <= |src|
    ensures Frames(src)
            == [Piece(h, src[..used + h.length], src[used..used + h.length])] + Frames(src[used + h.length..])
  {
    hide ReadHeader, Tail;
  }

  lemma TailUnfolds(src: seq<Byte>, h: Header, used: nat)
    requires ReadHeader(src) == Parsed(h, used) && used + h.length <= |src|
    ensures Tail(src) == Tail(src[used + h.length..])
  {
    hide ReadHeader, Frames;
  }

  lemma FrameUnfolds(src: seq<Byte>, h: Header, used: nat)
    requires ReadHeader(src) == Parsed(h, used)
    ensures 2 <= used <= |src|
    ensures |src| < used + h.length ==> Frames(src) == [] && Tail(src) == src && EndingOf(src) == Unfinished(h)
  {
    hide ReadHeader;
  }

  lemma PieceOf(h: Header, wire: seq<Byte>, wire': seq<Byte>, raw: seq<Byte>, raw': seq<Byte>, rest: seq<Byte>,
                rest': seq<Byte>)
    requires wire == wire' && raw == raw' && rest == rest'
    ensures [Piece(h, wire, raw)] + Frames(rest) == [Piece(h, wire', raw')] + Frames(rest')
    ensures Tail(rest) == Tail(rest')
  {
    hide *;
  }

  lemma WholeFrame(src: seq<Byte>, h: Header, used: nat, body: seq<Byte>)
    requires ReadHeader(src) == Parsed(h, used) && used <= |src| && body == src[used..] && h.length <= |body|
    ensures Frames(src) == [Piece(h, src[..used] + body[..h.length], body[..h.length])] + Frames(body[h.length..])
    ensures Tail(src) == Tail(body[h.length..])
  {
    hide *;
    var n := used + h.length;
    FramesUnfold(src, h, used);
    TailUnfolds(src, h, used);
    Rejoined(src, used, h.length);
    PieceOf(h, src[..n], src[..used] + body[..h.length], src[used..n], body[..h.length], src[n..], body[h.length..]);
  }

  lemma FrontFrame(src: seq<Byte>, h: Header, used: nat)
    requires ReadHeader(src) == Parsed(h, used)
    ensures 2 <= used <= |src| && src[..used] + src[used..] == src
    ensures |src| < used + h.length ==> Frames(src) == [] && Tail(src) == src && EndingOf(src) == Unfinished(h)
    ensures |src| >= used + h.length ==>
      var body := src[used..];
      && Frames(src) == [Piece(h, src[..used] + body[..h.length], body[..h.length])] + Frames(body[h.length..])
      && Tail(src) == Tail(body[h.length..])
  {
    hide *;
    FrameUnfolds(src, h, used);
    if used + h.length <= |src| {
      WholeFrame(src, h, used, src[used..]);
    }
  }

  datatype Next = NoHeader(malformed: bool) | Next(h: Header, head: seq<Byte>, body: seq<Byte>)

  /** The header in front of a source, and the bytes WriteHeader makes of it: the ones it was read from. */
  method NextHeader(src: seq<Byte>) returns (r: Next)
    ensures r.NoHeader? ==> Frames(src) == [] && Tail(src) == src
    ensures r.NoHeader? ==> EndingOf(src) == if r.malformed then Malformed else Clean
    ensures r.Next? ==> |r.head| >= 2 && r.head + r.body == src
    ensures r.Next? && |r.body| < r.h.length ==>
      Frames(src) == [] && Tail(src) == src && EndingOf(src) == Unfinished(r.h)
    ensures r.Next? && |r.body| >= r.h.length ==>
      && Frames(src) == [Piece(r.h, r.head + r.body[..r.h.length], r.body[..r.h.length])] + Frames(r.body[r.h.length..])
      && Tail(src) == Tail(r.body[r.h.length..])
  {
    match ReadHeader(src) {
      case Parsed(h, used) =>
        ReadThenWrite(src);
        FrontFrame(src, h, used);
        r := Next(h, WriteHeader(h).bytes, src[used..]);
      case ProtocolError => r := NoHeader(true);
      case Short => r := NoHeader(false);
    }
  }

  /** pump: over a whole source the destination receives the wire bytes of the frames that pass, in
      order and unchanged, and after them at most the beginning of a frame that the source broke off or the
      destination failed to take; the capture is the one its own records and the other pump's make
      together. It stops early exactly when a frame or a failed write ends it or the other pump has reported
      a protocol error. */
  method Pump(c: Capture, src: seq<Byte>, eng: Engine, dir: string, peer: Peer)
    returns (out: seq<Byte>, last: Capture, failed: bool)
    requires Rules.PhasedPayloads(eng.rules)
    ensures Relayed(Frames(src), Tail(src), eng, c.max, peer, out)
    ensures last == Captured(c, Frames(src), EndingOf(Tail(src)), eng, dir, peer, 0)
    ensures failed <==> Fails(Frames(src), EndingOf(Tail(src)), eng, c.max, peer, 0)
  {
    out, last, failed := [], c, false;
    ghost var fs, tail := Frames(src), Tail(src);
    var left, i := src, 0;
    while !peer.failed(i)
      invariant Pumped(c, fs, tail, eng, dir, peer, out, last, Frames(left), i) && tail == Tail(left) && !failed
      decreases |left|
    {
      var next := NextHeader(left);
      if next.NoHeader? {
        PumpDone(c, fs, tail, eng, dir, peer, out, last, i, []);
        assert out + [] == out;
        return out, last, next.malformed;
      }
      var bytes, goesOn;
      ghost var was := last;
      bytes, last, goesOn, failed :=
        PumpFrame(last, peer.appends(i), next.h, next.head, next.body, eng, dir, peer.accepts(i));
      if |next.body| < next.h.length {
        PumpDone(c, fs, tail, eng, dir, peer, out, was, i, bytes);
        out := out + bytes;
        return;
      }
      ghost var p := Piece(next.h, next.head + next.body[..next.h.length], next.body[..next.h.length]);
      left := next.body[next.h.length..];
      PumpStep(c, fs, tail, eng, dir, peer, out, was, p, Frames(left), i, bytes, last, goesOn, failed);
      out := out + bytes;
      if !goesOn {
        return;
      }
      i := i + 1;
    }
    PumpStopped(c, fs, tail, eng, dir, peer, out, last, Frames(left), i);
  }

  /** The output is what the frames of a source send, and at most part of one more. */
  ghost predicate Relayed(fs: seq<Piece>, tail: seq<Byte>, eng: Engine, max: int, peer: Peer, out: seq<Byte>) {
    var sent := Sent(fs, eng, max, peer, 0);
    sent <= out <= sent + Partly(fs, tail, eng, max, peer, 0)
  }

  ghost predicate Pumped(c: Capture, fs: seq<Piece>, tail: seq<Byte>, eng: Engine, dir: string, peer: Peer,
                         out: seq<Byte>, last: Capture, left: seq<Piece>, i: nat)
  {
    var end := EndingOf(tail);
    && last.max == c.max
    && Sent(fs, eng, c.max, peer, 0) == out + Sent(left, eng, c.max, peer, i)
    && Partly(fs, tail, eng, c.max, peer, 0) == Partly(left, tail, eng, c.max, peer, i)
    && Fails(fs, end, eng, c.max, peer, 0) == Fails(left, end, eng, c.max, peer, i)
    && Captured(c, fs, end, eng, dir, peer, 0) == Captured(last, left, end, eng, dir, peer, i)
  }

  lemma PumpStopped(c: Capture, fs: seq<Piece>, tail: seq<Byte>, eng: Engine, dir: string, peer: Peer,
                    out: seq<Byte>, last: Capture, left: seq<Piece>, i: nat)
    requires Pumped(c, fs, tail, eng, dir, peer, out, last, left, i) && peer.failed(i)
    ensures Relayed(fs, tail, eng, c.max, peer, out)
    ensures last == Captured(c, fs, EndingOf(tail), eng, dir, peer, 0)
    ensures !Fails(fs, EndingOf(tail), eng, c.max, peer, 0)
  {
    hide EndingOf;
  }

  lemma PumpDone(c: Capture, fs: seq<Piece>, tail: seq<Byte>, eng: Engine, dir: string, peer: Peer,
                 out: seq<Byte>, last: Capture, i: nat, bytes: seq<Byte>)
    requires Pumped(c, fs, tail, eng, dir, peer, out, last, [], i) && !peer.failed(i) && bytes <= tail
    ensures Relayed(fs, tail, eng, c.max, peer, out + bytes)
    ensures
      var end := EndingOf(tail);
      && Captured(c, fs, end, eng, dir, peer, 0)
         == (if end.Unfinished? then AppendAll(last, peer.appends(i)) else last)
      && (Fails(fs, end, eng, c.max, peer, 0)
          <==> end.Malformed? || (end.Unfinished? && RulesPath(eng) && HalfCode(end.h)))
  {
    hide EndingOf;
  }

  lemma SentFirst(p: Piece, after: seq<Piece>, tail: seq<Byte>, eng: Engine, max: int, peer: Peer, i: nat)
    requires !peer.failed(i)
    ensures
      var d := Fate(eng, p.h, Clear(p), max, BreaksAt(p, peer, i));
      && Sent([p] + after, eng, max, peer, i)
         == (if Sends(d) then p.wire else []) + (if GoesOn(d, p.h) then Sent(after, eng, max, peer, i + 1) else [])
      && Partly([p] + after, tail, eng, max, peer, i)
         == (if d == Break then p.wire
             else if GoesOn(d, p.h) then Partly(after, tail, eng, max, peer, i + 1) else [])
  {
    assert ([p] + after)[1..] == after;
  }

  lemma CapturedFirst(c: Capture, p: Piece, after: seq<Piece>, end: Ending, eng: Engine, dir: string, peer: Peer,
                      i: nat)
    requires !peer.failed(i)
    ensures
      var d := Fate(eng, p.h, Clear(p), c.max, BreaksAt(p, peer, i));
      var own := Recorded(eng, dir, p.h, Clear(p), c.max, StoreRemain(c), BreaksAt(p, peer, i));
      var next := AppendAll(AppendAll(c, peer.appends(i)), own);
      && next.max == c.max
      && Captured(c, [p] + after, end, eng, dir, peer, i)
         == (if GoesOn(d, p.h) then Captured(next, after, end, eng, dir, peer, i + 1) else next)
      && (Fails([p] + after, end, eng, c.max, peer, i)
          <==> d == PassAndFail || d == Reject || (GoesOn(d, p.h) && Fails(after, end, eng, c.max, peer, i + 1)))
  {
    assert ([p] + after)[1..] == after;
    AppendAllMax(c, peer.appends(i));
    var own := Recorded(eng, dir, p.h, Clear(p), c.max, StoreRemain(c), BreaksAt(p, peer, i));
    AppendAllMax(AppendAll(c, peer.appends(i)), own);
  }

  lemma PumpStep(c: Capture, fs: seq<Piece>, tail: seq<Byte>, eng: Engine, dir: string, peer: Peer, out: seq<Byte>,
                 last: Capture, p: Piece, after: seq<Piece>, i: nat, bytes: seq<Byte>, next: Capture, goesOn: bool,
                 failed: bool)
    requires Pumped(c, fs, tail, eng, dir, peer, out, last, [p] + after, i) && !peer.failed(i)
    requires
      var d := Fate(eng, p.h, Clear(p), last.max, BreaksAt(p, peer, i));
      && (if d == Break then bytes <= p.wire else bytes == if Sends(d) then p.wire else [])
      && next == AppendAll(AppendAll(last, peer.appends(i)),
                           Recorded(eng, dir, p.h, Clear(p), last.max, StoreRemain(last), BreaksAt(p, peer, i)))
      && goesOn == GoesOn(d, p.h) && (failed <==> d == PassAndFail || d == Reject)
    ensures !goesOn ==>
      && Relayed(fs, tail, eng, c.max, peer, out + bytes)
      && next == Captured(c, fs, EndingOf(tail), eng, dir, peer, 0)
      && (failed <==> Fails(fs, EndingOf(tail), eng, c.max, peer, 0))
    ensures goesOn ==> !failed && Pumped(c, fs, tail, eng, dir, peer, out + bytes, next, after, i + 1)
  {
    hide EndingOf, Fate, Recorded, Clear, Sent, Partly, Captured, Fails, AppendAll, BreaksAt, StoreRemain;
    SentFirst(p, after, tail, eng, c.max, peer, i);
    CapturedFirst(last, p, after, EndingOf(tail), eng, dir, peer, i);
    Associative(out, bytes, Sent(after, eng, c.max, peer, i + 1));
  }

  lemma Associative(a: seq<Byte>, b: seq<Byte>, c: seq<Byte>)
    ensures a + (b + c) == a + b + c && b + [] == b && a + b <= a + b + c && a + b + [] == a + b
  {
  }

  // ---------------------------------------------------------------- transparency

  /** The wire bytes of some frames. */
  ghost function Wires(fs: seq<Piece>): seq<Byte> {
    if fs == [] then [] else fs[0].wire + Wires(fs[1..])
  }

  lemma FirstFrame(src: seq<Byte>)
    ensures Frames(src) == [] ==> Tail(src) == src
    ensures Frames(src) != [] ==>
      var n := |Frames(src)[0].wire|;
      && 0 < n <= |src| && Frames(src)[0].wire == src[..n]
      && Frames(src)[1..] == Frames(src[n..]) && Tail(src) == Tail(src[n..])
  {
    hide ReadHeader;
    match ReadHeader(src)
    case Parsed(h, used) =>
      FrameUnfolds(src, h, used);
      if used + h.length <= |src| {
        FramesUnfold(src, h, used);
        TailUnfolds(src, h, used);
        hide Frames, Tail;
        var p := Piece(h, src[..used + h.length], src[used..used + h.length]);
        assert ([p] + Frames(src[used + h.length..]))[1..] == Frames(src[used + h.length..]);
      }
    case _ =>
  }

  /** Cutting a source into frames loses nothing. */
  lemma {:induction false} FramesJoin(src: seq<Byte>)
    ensures Wires(Frames(src)) + Tail(src) == src
    decreases |src|
  {
    hide Frames, Tail, Wires;
    FirstFrame(src);
    if Frames(src) == [] {
      NoWires();
      assert [] + src == src;
    } else {
      var n := |Frames(src)[0].wire|;
      FramesJoin(src[n..]);
      WiresFirst(Frames(src));
      FrontRejoins(src, n, Wires(Frames(src[n..])), Tail(src[n..]));
    }
  }

  lemma NoWires()
    ensures Wires([]) == []
  {
  }

  lemma FrontRejoins(src: seq<Byte>, n: nat, wires: seq<Byte>, tail: seq<Byte>)
    requires n <= |src| && wires + tail == src[n..]
    ensures src[..n] + wires + tail == src
  {
    assert src[..n] + wires + tail == src[..n] + (wires + tail);
  }

  /** Something ends the pump among the next n frames: a close frame, a failed write, or an error of the
      other pump. */
  predicate EndsBy(fs: seq<Piece>, peer: Peer, i: nat)
    decreases |fs|
  {
    || peer.failed(i)
    || (fs != [] && (fs[0].h.opcode == OPCODE_CLOSE || BreaksAt(fs[0], peer, i) || EndsBy(fs[1..], peer, i + 1)))
  }

  /** Without websocket rules every frame passes until the pump ends. */
  lemma {:induction false} FastPathSendsAll(fs: seq<Piece>, tail: seq<Byte>, eng: Engine, max: int, peer: Peer, i: nat)
    requires !RulesPath(eng)
    ensures Sent(fs, eng, max, peer, i) + Partly(fs, tail, eng, max, peer, i) <= Wires(fs) + tail
    ensures !Stops(fs, eng, max, peer, i) ==> Sent(fs, eng, max, peer, i) == Wires(fs)
    ensures Stops(fs, eng, max, peer, i) <==> EndsBy(fs, peer, i)
    decreases |fs|
  {
    if fs == [] {
      assert [] + tail == tail;
    } else {
      FastPathSendsAll(fs[1..], tail, eng, max, peer, i + 1);
      var d := FateAt(fs, eng, max, peer, i);
      assert d == if BreaksAt(fs[0], peer, i) then Break else if HalfCode(fs[0].h) then PassAndFail else Pass;
      hide FateAt, Wires, BreaksAt;
      WiresFirst(fs);
      PrefixesJoin(fs[0].wire, Sent(fs[1..], eng, max, peer, i + 1), Partly(fs[1..], tail, eng, max, peer, i + 1),
                   Wires(fs[1..]), tail);
    }
  }

  lemma PrefixesJoin(wire: seq<Byte>, sent: seq<Byte>, part: seq<Byte>, rest: seq<Byte>, tail: seq<Byte>)
    requires sent + part <= rest + tail
    ensures wire + sent + part <= wire + rest + tail && wire <= wire + rest + tail
    ensures [] + wire == wire && wire + [] + [] == wire && [] + [] + wire == wire
  {
    assert wire + (sent + part) == wire + sent + part && wire + (rest + tail) == wire + rest + tail;
  }

  lemma WiresFirst(fs: seq<Piece>)
    requires fs != []
    ensures Wires(fs) == fs[0].wire + Wires(fs[1..])
  {
  }

  /** So on the fast path the destination always holds a prefix of the source, and all of it if its frames
      are complete, none closes, every write succeeds, and the other pump reports no error. */
  lemma FastPathIsTransparent(src: seq<Byte>, eng: Engine, max: int, peer: Peer, out: seq<Byte>)
    requires !RulesPath(eng) && Relayed(Frames(src), Tail(src), eng, max, peer, out)
    ensures out <= src
    ensures !EndsBy(Frames(src), peer, 0) && Tail(src) == [] ==> out == src
  {
    FramesJoin(src);
    FastPathSendsAll(Frames(src), Tail(src), eng, max, peer, 0);
    hide Frames, Tail, Wires, Sent, Partly, EndsBy, Stops;
  }

  // ---------------------------------------------------------------- under rules

  function HitAt(eng: Engine, p: Piece, max: int): Option<Rules.Rule> {
    HitOn(eng, p.h, Clear(p), max)
  }

  /** The frames that no dropping or blocking rule hits, in order. */
  ghost function Unhit(fs: seq<Piece>, eng: Engine, max: int): seq<Piece>
    decreases |fs|
  {
    if fs == [] then []
    else
      var hit := HitAt(eng, fs[0], max);
      (if Drops(hit) || Blocks(hit) then [] else [fs[0]]) + Unhit(fs[1..], eng, max)
  }

  /** What one frame under rules adds to the output, by the rule that hits it. */
  lemma FateByHit(fs: seq<Piece>, eng: Engine, max: int, peer: Peer, i: nat)
    requires RulesPath(eng) && fs != []
    ensures
      var hit, d := HitAt(eng, fs[0], max), FateAt(fs, eng, max, peer, i);
      && (Drops(hit) || Blocks(hit) ==> !Sends(d) && d != Break)
      && (Blocks(hit) ==> !GoesOn(d, fs[0].h))
      && (Drops(hit) && !HalfCode(fs[0].h) ==> GoesOn(d, fs[0].h))
      && (Sends(d) || d == Break ==> !Drops(hit) && !Blocks(hit))
      && (!Drops(hit) && !Blocks(hit) && !HalfCode(fs[0].h) && !BreaksAt(fs[0], peer, i) ==>
            Sends(d) && (GoesOn(d, fs[0].h) <==> fs[0].h.opcode != OPCODE_CLOSE))
      && (d == Break ==> !GoesOn(d, fs[0].h)) && (GoesOn(d, fs[0].h) && !Sends(d) ==> Drops(hit))
  {
    hide Rules.Match, Clear, BreaksAt;
    HitIsHitOn(eng, fs[0].h, Clear(fs[0]), max);
  }

  lemma HitIsHitOn(eng: Engine, h: Header, whole: seq<Byte>, max: int)
    ensures Hit(eng, h, Rules.EagerPayload(whole, max)) == HitOn(eng, h, whole, max)
  {
  }

  lemma WiresOfUnhit(fs: seq<Piece>, eng: Engine, max: int)
    requires fs != []
    ensures
      var hit := HitAt(eng, fs[0], max);
      Wires(Unhit(fs, eng, max))
        == (if Drops(hit) || Blocks(hit) then [] else fs[0].wire) + Wires(Unhit(fs[1..], eng, max))
  {
    hide HitAt, Drops, Blocks;
    var rest := Unhit(fs[1..], eng, max);
    assert ([fs[0]] + rest)[1..] == rest;
    assert [] + rest == rest;
  }

  /** All that the destination can get from here on. */
  ghost function Outcome(fs: seq<Piece>, tail: seq<Byte>, eng: Engine, max: int, peer: Peer, i: nat): seq<Byte> {
    Sent(fs, eng, max, peer, i) + Partly(fs, tail, eng, max, peer, i)
  }

  lemma OutcomeStep(fs: seq<Piece>, tail: seq<Byte>, eng: Engine, max: int, peer: Peer, i: nat)
    requires RulesPath(eng) && fs != []
    ensures
      var out, rest := Outcome(fs, tail, eng, max, peer, i), Outcome(fs[1..], tail, eng, max, peer, i + 1);
      var hit := HitAt(eng, fs[0], max);
      if Blocks(hit) then out == []
      else if Drops(hit) then out == [] || out == rest
      else out == [] || out == fs[0].wire || out == fs[0].wire + rest
  {
    FateByHit(fs, eng, max, peer, i);
    hide FateAt, HitAt, GoesOn, Sends;
    var sent, part := Sent(fs[1..], eng, max, peer, i + 1), Partly(fs[1..], tail, eng, max, peer, i + 1);
    assert fs[0].wire + (sent + part) == fs[0].wire + sent + part;
  }

  lemma OutcomePrefix(out: seq<Byte>, wire: seq<Byte>, rest: seq<Byte>, more: seq<Byte>)
    requires rest <= more
    requires out == [] || out == wire || out == wire + rest
    ensures out <= wire + more
  {
  }

  /** Whatever else happens, under rules the destination gets a beginning of the frames no dropping or blocking
      rule hits. */
  lemma {:induction false} OnlyUnhitIsSent(fs: seq<Piece>, tail: seq<Byte>, eng: Engine, max: int, peer: Peer, i: nat)
    requires RulesPath(eng)
    ensures Outcome(fs, tail, eng, max, peer, i) <= Wires(Unhit(fs, eng, max)) + tail
    decreases |fs|
  {
    if fs == [] {
      assert [] + tail == tail;
    } else {
      hide Outcome, HitAt, Drops, Blocks, Wires, Unhit;
      OnlyUnhitIsSent(fs[1..], tail, eng, max, peer, i + 1);
      OutcomeStep(fs, tail, eng, max, peer, i);
      WiresOfUnhit(fs, eng, max);
      var more := Wires(Unhit(fs[1..], eng, max));
      var out, rest := Outcome(fs, tail, eng, max, peer, i), Outcome(fs[1..], tail, eng, max, peer, i + 1);
      if Blocks(HitAt(eng, fs[0], max)) || Drops(HitAt(eng, fs[0], max)) {
        assert [] + more == more;
      } else {
        OutcomePrefix(out, fs[0].wire, rest, more + tail);
        Associative(fs[0].wire, more, tail);
      }
    }
  }

  /** A frame that a rule blocks ends the output: of it and of everything behind it nothing is sent, and of what
      is in front of it only frames that no dropping or blocking rule hits. */
  lemma {:induction false} BlockEndsOutput(fs: seq<Piece>, tail: seq<Byte>, eng: Engine, max: int, peer: Peer, i: nat,
                                           k: nat)
    requires RulesPath(eng) && k < |fs| && Blocks(HitAt(eng, fs[k], max))
    ensures Outcome(fs, tail, eng, max, peer, i) <= Wires(Unhit(fs[..k], eng, max))
    decreases k
  {
    hide Outcome, HitAt, Drops, Blocks, Wires, Unhit;
    OutcomeStep(fs, tail, eng, max, peer, i);
    if k > 0 {
      BlockEndsOutput(fs[1..], tail, eng, max, peer, i + 1, k - 1);
      assert fs[..k][1..] == fs[1..][..k - 1];
      WiresOfUnhit(fs[..k], eng, max);
      var more := Wires(Unhit(fs[1..][..k - 1], eng, max));
      assert [] + more == more;
      if !Blocks(HitAt(eng, fs[0], max)) && !Drops(HitAt(eng, fs[0], max)) {
        OutcomePrefix(Outcome(fs, tail, eng, max, peer, i), fs[0].wire, Outcome(fs[1..], tail, eng, max, peer, i + 1),
                      more);
      }
    }
  }

  /** So for what a pump really leaves at the destination. */
  lemma RulesDecideOutput(src: seq<Byte>, eng: Engine, max: int, peer: Peer, out: seq<Byte>, k: nat)
    requires RulesPath(eng) && Relayed(Frames(src), Tail(src), eng, max, peer, out)
    ensures out <= Wires(Unhit(Frames(src), eng, max)) + Tail(src)
    ensures k < |Frames(src)| && Blocks(HitAt(eng, Frames(src)[k], max)) ==>
      out <= Wires(Unhit(Frames(src)[..k], eng, max))
  {
    OnlyUnhitIsSent(Frames(src), Tail(src), eng, max, peer, 0);
    if k < |Frames(src)| && Blocks(HitAt(eng, Frames(src)[k], max)) {
      BlockEndsOutput(Frames(src), Tail(src), eng, max, peer, 0, k);
    }
    hide Frames, Tail, Wires, Sent, Partly, Unhit;
  }

  lemma DropsNeverBlock(eng: Engine, h: Header, whole: seq<Byte>, max: int)
    requires forall r | r in eng.rules :: r.action != Rules.Block
    ensures !Blocks(HitOn(eng, h, whole, max))
  {
  }

  lemma {:induction false} UnhitIsSent(fs: seq<Piece>, tail: seq<Byte>, eng: Engine, max: int, peer: Peer, i: nat)
    requires RulesPath(eng) && !EndsBy(fs, peer, i) && forall r | r in eng.rules :: r.action != Rules.Block
    ensures Sent(fs, eng, max, peer, i) == Wires(Unhit(fs, eng, max))
    ensures Partly(fs, tail, eng, max, peer, i) == tail
    decreases |fs|
  {
    if fs != [] {
      UnhitIsSent(fs[1..], tail, eng, max, peer, i + 1);
      FateByHit(fs, eng, max, peer, i);
      DropsNeverBlock(eng, fs[0].h, Clear(fs[0]), max);
      WiresOfUnhit(fs, eng, max);
      hide FateAt, HitOn, Clear, Drops, Blocks, Wires, Unhit, GoesOn, Sends, RulesPath;
    }
  }

  /** Under rules that never block, on a whole source of complete frames without a close frame, a failed write or an
      error of the other pump, the output is the source without exactly the frames that a dropping rule hits. */
  lemma DropRulesFilter(src: seq<Byte>, eng: Engine, max: int, peer: Peer, out: seq<Byte>)
    requires RulesPath(eng) && Relayed(Frames(src), Tail(src), eng, max, peer, out)
    requires forall r | r in eng.rules :: r.action != Rules.Block
    requires !EndsBy(Frames(src), peer, 0) && Tail(src) == []
    ensures out == Wires(Unhit(Frames(src), eng, max))
  {
    UnhitIsSent(Frames(src), Tail(src), eng, max, peer, 0);
    hide Frames, Tail, Wires, Sent, Partly, Unhit, EndsBy, RulesPath;
  }

  /** The frame on which the paths differ: a close frame with one payload byte goes through whole on the fast
      path and not at all when websocket rules are on and none hits. */
  lemma HalfCodeCloseDiffers(eng: Engine, fast: Engine, max: int, peer: Peer)
    requires RulesPath(eng) && !RulesPath(fast) && !peer.failed(0) && peer.accepts(0).None?
    ensures
      var src := [136, 1, 3];
      && |Frames(src)| == 1 && HalfCode(Frames(src)[0].h) && Tail(src) == []
      && Sent(Frames(src), fast, max, peer, 0) == src && Sent(Frames(src), eng, max, peer, 0) == []
      && Fails(Frames(src), Clean, fast, max, peer, 0) && Fails(Frames(src), Clean, eng, max, peer, 0)
  {
    var src: seq<Byte> := [136, 1, 3];
    var h := Header(true, false, false, false, OPCODE_CLOSE, false, NO_KEY, 1);
    assert ReadHeader(src) == Parsed(h, 2);
    assert src[3..] == [] && src[..3] == src;
    var p := Piece(h, src, src[2..]);
    assert Frames(src) == [p] + [] == [p];
    SentFirst(p, [], [], fast, max, peer, 0);
    SentFirst(p, [], [], eng, max, peer, 0);
  }
}
