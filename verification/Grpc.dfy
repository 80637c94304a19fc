/**
 The gRPC decoder (internal/grpcx/decode.go) and what its trees cost (internal/model/flow.go):
 length-prefixed messages, and the walk that guesses a protobuf tree from the wire.

 `printable` stands for isPrintableUTF8, of which nothing is assumed. The loops are methods, proved
 against the recursive functions of this module.
 */
module Grpc {
  import opened Bytes
  import Varint

  const MAX_NEST_DEPTH := 8
  const FIELD_OVERHEAD := 16

  datatype Fault = NoFault | Malformed | Truncated | TooDeep

  datatype Field = Field(number: nat, wire: nat, uint: nat, text: seq<Byte>, nested: seq<Field>)

  datatype Walked = Walked(fields: seq<Field>, fault: Fault)

  function LittleEndian(b: seq<Byte>): nat {
    if b == [] then 0 else b[0] + 256 * LittleEndian(b[1..])
  }

  // ---------------------------------------------------------------- one field

  /** Where the field at the front of a message ends, and the bytes of a length-delimited one. */
  datatype Extent = Scalar(number: nat, wire: nat, uint: nat, used: nat)
                  | Delimited(number: nat, payload: seq<Byte>, used: nat)
                  | BadField

  function ScalarAt(b: seq<Byte>, number: nat, wire: nat, at: nat): (e: Extent)
    requires at <= |b|
    ensures e.Scalar? ==> at < e.used <= |b| && e.number == number && e.wire == wire && wire != 2
    ensures !e.Delimited?
  {
    if wire == 0 then
      var v := Varint.Read(b[at..]);
      if v.Bad? then BadField else Scalar(number, wire, v.value, at + v.used)
    else
      var n := if wire == 1 then 8 else 4;
      if (wire != 1 && wire != 5) || |b| - at < n then BadField
      else Scalar(number, wire, LittleEndian(b[at..at + n]), at + n)
  }

  function BytesAt(b: seq<Byte>, number: nat, at: nat): (e: Extent)
    requires at <= |b|
    ensures e.Delimited? ==> at + |e.payload| < e.used <= |b| && e.number == number
    ensures !e.Scalar?
  {
    var n := Varint.Read(b[at..]);
    if n.Bad? || n.value > |b| - at - n.used then BadField
    else Delimited(number, b[at + n.used..at + n.used + n.value], at + n.used + n.value)
  }

  function FieldAt(b: seq<Byte>): (e: Extent)
    ensures e.Scalar? ==> 2 <= e.used <= |b|
    ensures e.Delimited? ==> 2 + |e.payload| <= e.used <= |b|
  {
    var tag := Varint.Read(b);
    if tag.Bad? || tag.value / 8 == 0 then BadField
    else if tag.value % 8 == 2 then BytesAt(b, tag.value / 8, tag.used)
    else ScalarAt(b, tag.value / 8, tag.value % 8, tag.used)
  }

  /** Which bytes are a field, and what it holds: a tag with a number above 0 and, by its wire type, a varint, eight or
      four bytes in little-endian order, or as many bytes as a varint says; no other wire type is accepted. */
  lemma FieldExactly(b: seq<Byte>)
    ensures
      var tag := Varint.Read(b);
      var rest := if tag.Number? then b[tag.used..] else [];
      var wire, n := if tag.Number? then tag.value % 8 else 0, Varint.Read(rest);
      && (FieldAt(b).BadField? <==>
            || tag.Bad? || tag.value < 8 || !(wire == 0 || wire == 1 || wire == 2 || wire == 5)
            || (wire == 0 && n.Bad?) || (wire == 1 && |rest| < 8) || (wire == 5 && |rest| < 4)
            || (wire == 2 && (n.Bad? || n.used + n.value > |rest|)))
      && (!FieldAt(b).BadField? ==>
            var e := FieldAt(b);
            && e.number == tag.value / 8
            && (wire == 2 ==>
                  e == Delimited(tag.value / 8, rest[n.used..n.used + n.value], tag.used + n.used + n.value))
            && (wire == 0 ==> e == Scalar(tag.value / 8, 0, n.value, tag.used + n.used))
            && (wire == 1 ==> e == Scalar(tag.value / 8, 1, LittleEndian(rest[..8]), tag.used + 8))
            && (wire == 5 ==> e == Scalar(tag.value / 8, 5, LittleEndian(rest[..4]), tag.used + 4)))
  {
    hide Varint.Read, LittleEndian;
    var tag := Varint.Read(b);
    if tag.Number? {
      var rest := b[tag.used..];
      var n := Varint.Read(rest);
      if n.Number? && n.used + n.value <= |rest| {
        SliceOfRest(b, tag.used, n.used, n.used + n.value);
      }
      if |rest| >= 4 {
        SliceOfRest(b, tag.used, 0, 4);
      }
      if |rest| >= 8 {
        SliceOfRest(b, tag.used, 0, 8);
      }
    }
  }

  lemma SliceOfRest(b: seq<Byte>, i: nat, j: nat, k: nat)
    requires j <= k && i + k <= |b|
    ensures b[i..][j..k] == b[i + j..i + k]
  {
  }

  /** Each further byte weighs 256 times the one before it. */
  lemma {:induction false} LittleEndianSnoc(b: seq<Byte>, x: Byte)
    ensures LittleEndian(b + [x]) == LittleEndian(b) + x * Power256(|b|)
  {
    if b == [] {
      assert [] + [x] == [x] && [x][1..] == [];
    } else {
      assert (b + [x])[1..] == b[1..] + [x];
      LittleEndianSnoc(b[1..], x);
      Weigh(x, Power256(|b| - 1));
    }
  }

  lemma Weigh(x: nat, p: nat)
    ensures 256 * (x * p) == x * (256 * p)
  {
  }

  /** What a length-delimited payload becomes, given what walking it found. */
  function BytesField(number: nat, payload: seq<Byte>, inner: Walked, printable: seq<Byte> -> bool): Field {
    if printable(payload) then Field(number, 2, 0, payload, [])
    else if inner.fault == NoFault then Field(number, 2, 0, [], inner.fields)
    else Field(number, 2, 0, [], [])
  }

  // ---------------------------------------------------------------- the walk

  /** walkMessage: the fields found, and why it stopped. */
  function Walk(b: seq<Byte>, depth: nat, printable: seq<Byte> -> bool): Walked
    decreases |b|
  {
    if depth > MAX_NEST_DEPTH then Walked([], TooDeep)
    else if b == [] then Walked([], NoFault)
    else
      match FieldAt(b)
      case BadField => Walked([], Malformed)
      case Scalar(number, wire, v, used) =>
        var rest := Walk(b[used..], depth, printable);
        Walked([Field(number, wire, v, [], [])] + rest.fields, rest.fault)
      case Delimited(number, payload, used) =>
        var inner := Walk(payload, depth + 1, printable);
        var f := BytesField(number, payload, inner, printable);
        if inner.fault == TooDeep then Walked([f], TooDeep)
        else
          var rest := Walk(b[used..], depth, printable);
          Walked([f] + rest.fields, rest.fault)
  }

  lemma WalkFirst(b: seq<Byte>, depth: nat, printable: seq<Byte> -> bool, inner: Walked)
    requires depth <= MAX_NEST_DEPTH && b != []
    requires FieldAt(b).Delimited? ==> inner == Walk(FieldAt(b).payload, depth + 1, printable)
    ensures
      var e := FieldAt(b);
      var w := Walk(b, depth, printable);
      && (e.BadField? ==> w == Walked([], Malformed))
      && (e.Scalar? ==> w == After([Field(e.number, e.wire, e.uint, [], [])], Walk(b[e.used..], depth, printable)))
      && (e.Delimited? ==>
            var f := BytesField(e.number, e.payload, inner, printable);
            w == if inner.fault == TooDeep then Walked([f], TooDeep)
              else After([f], Walk(b[e.used..], depth, printable)))
  {
  }

  /** The loop of walkMessage. */
  method WalkMessage(b: seq<Byte>, depth: nat, printable: seq<Byte> -> bool) returns (w: Walked)
    ensures w == Walk(b, depth, printable)
    decreases |b|
  {
    if depth > MAX_NEST_DEPTH {
      return Walked([], TooDeep);
    }
    var fields, left := [], b;
    while left != []
      invariant Walk(b, depth, printable) == After(fields, Walk(left, depth, printable)) && |left| <= |b|
      decreases |left|
    {
      var e := FieldAt(left);
      var inner := Walked([], NoFault);
      if e.Delimited? {
        inner := WalkMessage(e.payload, depth + 1, printable);
      }
      WalkFirst(left, depth, printable, inner);
      if e.BadField? {
        return Walked(fields, Malformed);
      }
      var f := if e.Scalar? then Field(e.number, e.wire, e.uint, [], [])
        else BytesField(e.number, e.payload, inner, printable);
      if inner.fault == TooDeep {
        return Walked(fields + [f], TooDeep);
      }
      AfterSnoc(fields, f, Walk(left[e.used..], depth, printable));
      fields, left := fields + [f], left[e.used..];
    }
    return Walked(fields, NoFault);
  }

  function After(fields: seq<Field>, w: Walked): Walked {
    Walked(fields + w.fields, w.fault)
  }

  lemma AfterSnoc(fields: seq<Field>, f: Field, rest: Walked)
    ensures After(fields, After([f], rest)) == After(fields + [f], rest)
  {
    assert fields + ([f] + rest.fields) == fields + [f] + rest.fields;
  }

  // ---------------------------------------------------------------- how large trees get

  function Nodes(fields: seq<Field>): nat {
    if fields == [] then 0 else 1 + Nodes(fields[0].nested) + Nodes(fields[1..])
  }

  function Max(a: nat, b: nat): nat {
    if a < b then b else a
  }

  function Height(fields: seq<Field>): nat {
    if fields == [] then 0 else Max(1 + Height(fields[0].nested), Height(fields[1..]))
  }

  /** protoFieldResident, summed over fields. */
  function TreeCost(fields: seq<Field>): nat {
    if fields == [] then 0
    else FIELD_OVERHEAD + |fields[0].text| + TreeCost(fields[0].nested) + TreeCost(fields[1..])
  }

  lemma TreeFirst(f: Field, rest: seq<Field>)
    ensures Nodes([f] + rest) == 1 + Nodes(f.nested) + Nodes(rest)
    ensures Height([f] + rest) == Max(1 + Height(f.nested), Height(rest))
    ensures TreeCost([f] + rest) == FIELD_OVERHEAD + |f.text| + TreeCost(f.nested) + TreeCost(rest)
  {
    assert ([f] + rest)[1..] == rest;
  }

  /** Two bytes pay for a node, eight times the bytes for all of it, and eight levels are the deepest. */
  ghost predicate Bounded(fields: seq<Field>, bytes: nat, depth: nat) {
    && 2 * Nodes(fields) <= bytes
    && TreeCost(fields) <= 8 * bytes
    && (fields == [] || Height(fields) + depth <= MAX_NEST_DEPTH + 1)
  }

  lemma BoundedFirst(f: Field, rest: seq<Field>, inner: nat, left: nat, depth: nat)
    requires Bounded(f.nested, inner, depth + 1) && Bounded(rest, left, depth) && depth <= MAX_NEST_DEPTH
    requires |f.text| <= inner && (f.text == [] || f.nested == [])
    ensures Bounded([f] + rest, 2 + inner + left, depth)
  {
    TreeFirst(f, rest);
    if f.nested == [] {
      assert TreeCost(f.nested) == 0;
    }
  }

  lemma BoundedMore(fields: seq<Field>, bytes: nat, more: nat, depth: nat)
    requires Bounded(fields, bytes, depth) && bytes <= more
    ensures Bounded(fields, more, depth)
  {
  }

  lemma BytesFieldBounded(number: nat, payload: seq<Byte>, inner: Walked, rest: seq<Field>, left: nat, depth: nat,
                          printable: seq<Byte> -> bool)
    requires Bounded(inner.fields, |payload|, depth + 1) && Bounded(rest, left, depth) && depth <= MAX_NEST_DEPTH
    ensures Bounded([BytesField(number, payload, inner, printable)] + rest, 2 + |payload| + left, depth)
  {
    BoundedFirst(BytesField(number, payload, inner, printable), rest, |payload|, left, depth);
  }

  lemma {:induction false} WalkBounded(b: seq<Byte>, depth: nat, printable: seq<Byte> -> bool)
    ensures Bounded(Walk(b, depth, printable).fields, |b|, depth)
    decreases |b|, 1
  {
    if depth <= MAX_NEST_DEPTH && b != [] {
      if FieldAt(b).Scalar? {
        ScalarBounded(b, depth, printable);
      } else if FieldAt(b).Delimited? {
        DelimitedBounded(b, depth, printable);
      }
    }
  }

  lemma {:induction false} ScalarBounded(b: seq<Byte>, depth: nat, printable: seq<Byte> -> bool)
    requires depth <= MAX_NEST_DEPTH && FieldAt(b).Scalar?
    ensures Bounded(Walk(b, depth, printable).fields, |b|, depth)
    decreases |b|, 0
  {
    var e := FieldAt(b);
    WalkBounded(b[e.used..], depth, printable);
    var f, rest := Field(e.number, e.wire, e.uint, [], []), Walk(b[e.used..], depth, printable).fields;
    BoundedFirst(f, rest, 0, |b| - e.used, depth);
    BoundedMore([f] + rest, 2 + |b| - e.used, |b|, depth);
  }

  lemma {:induction false} DelimitedBounded(b: seq<Byte>, depth: nat, printable: seq<Byte> -> bool)
    requires depth <= MAX_NEST_DEPTH && FieldAt(b).Delimited?
    ensures Bounded(Walk(b, depth, printable).fields, |b|, depth)
    decreases |b|, 0
  {
    var e := FieldAt(b);
    WalkBounded(e.payload, depth + 1, printable);
    WalkBounded(b[e.used..], depth, printable);
    var inner := Walk(e.payload, depth + 1, printable);
    var f := BytesField(e.number, e.payload, inner, printable);
    var rest := if inner.fault == TooDeep then [] else Walk(b[e.used..], depth, printable).fields;
    BytesFieldBounded(e.number, e.payload, inner, rest, |b| - e.used, depth, printable);
    BoundedMore([f] + rest, 2 + |e.payload| + |b| - e.used, |b|, depth);
    assert [f] + [] == [f];
  }

  /** The tree of a message is linear in it, and at most eight levels deep. */
  lemma TreeIsLinear(b: seq<Byte>, printable: seq<Byte> -> bool)
    ensures
      var fields := Walk(b, 1, printable).fields;
      Height(fields) <= MAX_NEST_DEPTH && 2 * Nodes(fields) <= |b| && TreeCost(fields) <= 8 * |b|
  {
    WalkBounded(b, 1, printable);
  }

  // ---------------------------------------------------------------- length-prefixed messages

  datatype Message = Message(compressed: bool, length: nat, fields: seq<Field>)

  datatype Parsed = Parsed(messages: seq<Message>, fault: Fault)

  function MessageOf(compressed: bool, payload: seq<Byte>, printable: seq<Byte> -> bool): Message {
    Message(compressed, |payload|, if compressed then [] else Walk(payload, 1, printable).fields)
  }

  /** The fault a message leaves behind: too deep counts as malformed. */
  function FaultOf(compressed: bool, payload: seq<Byte>, printable: seq<Byte> -> bool): Fault {
    if compressed then NoFault
    else
      var fault := Walk(payload, 1, printable).fault;
      if fault == TooDeep then Malformed else fault
  }

  /** parseFrames. */
  function Parse(body: seq<Byte>, printable: seq<Byte> -> bool): Parsed
    decreases |body|
  {
    if body == [] then Parsed([], NoFault)
    else if |body| < 5 then Parsed([], Truncated)
    else if body[0] > 1 then Parsed([], Malformed)
    else
      var n := BigEndian(body[1..5]);
      if n > |body| - 5 then Parsed([], Truncated)
      else
        var payload := body[5..5 + n];
        var m := MessageOf(body[0] == 1, payload, printable);
        var fault := FaultOf(body[0] == 1, payload, printable);
        if fault != NoFault then Parsed([m], fault)
        else Then([m], Parse(body[5 + n..], printable))
  }

  function Then(ms: seq<Message>, p: Parsed): Parsed {
    Parsed(ms + p.messages, p.fault)
  }

  lemma ThenSnoc(ms: seq<Message>, m: Message, p: Parsed)
    ensures Then(ms, Then([m], p)) == Then(ms + [m], p)
  {
    assert ms + ([m] + p.messages) == ms + [m] + p.messages;
  }

  method ReadMessage(compressed: bool, payload: seq<Byte>, printable: seq<Byte> -> bool)
    returns (m: Message, fault: Fault)
    ensures m == MessageOf(compressed, payload, printable) && fault == FaultOf(compressed, payload, printable)
  {
    m := Message(compressed, |payload|, []);
    if compressed {
      return m, NoFault;
    }
    var w := WalkMessage(payload, 1, printable);
    return m.(fields := w.fields), if w.fault == TooDeep then Malformed else w.fault;
  }

  lemma ParseFirst(body: seq<Byte>, n: nat, printable: seq<Byte> -> bool)
    requires |body| >= 5 && body[0] <= 1 && n == BigEndian(body[1..5]) <= |body| - 5
    ensures
      var m := MessageOf(body[0] == 1, body[5..5 + n], printable);
      var fault := FaultOf(body[0] == 1, body[5..5 + n], printable);
      Parse(body, printable) == if fault != NoFault then Parsed([m], fault)
        else Then([m], Parse(body[5 + n..], printable))
  {
  }

  /** The loop of parseFrames. */
  method ParseFrames(body: seq<Byte>, printable: seq<Byte> -> bool) returns (p: Parsed)
    ensures p == Parse(body, printable)
  {
    var ms, left := [], body;
    while left != []
      invariant Parse(body, printable) == Then(ms, Parse(left, printable))
      decreases |left|
    {
      if |left| < 5 {
        return Parsed(ms, Truncated);
      }
      if left[0] > 1 {
        return Parsed(ms, Malformed);
      }
      var n := BigEndian(left[1..5]);
      if n > |left| - 5 {
        return Parsed(ms, Truncated);
      }
      ParseFirst(left, n, printable);
      var m, fault := ReadMessage(left[0] == 1, left[5..5 + n], printable);
      if fault != NoFault {
        return Parsed(ms + [m], fault);
      }
      ThenSnoc(ms, m, Parse(left[5 + n..], printable));
      ms, left := ms + [m], left[5 + n..];
    }
    return Parsed(ms, NoFault);
  }

  /** grpcMessageResident, summed over messages. */
  function MessagesCost(ms: seq<Message>): nat {
    if ms == [] then 0 else FIELD_OVERHEAD + TreeCost(ms[0].fields) + MessagesCost(ms[1..])
  }

  lemma MessageCost(m: Message, rest: seq<Message>, payload: nat, left: nat)
    requires TreeCost(m.fields) <= 8 * payload && MessagesCost(rest) <= 8 * left
    ensures MessagesCost([m] + rest) <= 8 * (5 + payload + left)
  {
    assert ([m] + rest)[1..] == rest;
  }

  /** Whatever the body, its trees cost at most eight times its length. */
  lemma {:induction false} BodyIsLinear(body: seq<Byte>, printable: seq<Byte> -> bool)
    ensures MessagesCost(Parse(body, printable).messages) <= 8 * |body|
    decreases |body|
  {
    if |body| >= 5 && body[0] <= 1 && BigEndian(body[1..5]) <= |body| - 5 {
      var n := BigEndian(body[1..5]);
      var m := MessageOf(body[0] == 1, body[5..5 + n], printable);
      ParseFirst(body, n, printable);
      TreeIsLinear(body[5..5 + n], printable);
      BodyIsLinear(body[5 + n..], printable);
      MessageCost(m, Parse(body[5 + n..], printable).messages, n, |body| - 5 - n);
      MessageCost(m, [], n, |body| - 5 - n);
      assert [m] + [] == [m];
    }
  }

  /** Bodies parse one after the other. */
  lemma {:induction false} ParseConcat(a: seq<Byte>, b: seq<Byte>, printable: seq<Byte> -> bool)
    requires Parse(a, printable).fault == NoFault
    ensures Parse(a + b, printable) == Then(Parse(a, printable).messages, Parse(b, printable))
    decreases |a|
  {
    if a == [] {
      assert a + b == b;
    } else {
      var n := BigEndian(a[1..5]);
      ParseFirst(a, n, printable);
      FrontKept(a, b, n);
      ParseFirst(a + b, n, printable);
      ParseConcat(a[5 + n..], b, printable);
      ThenAssociative(MessageOf(a[0] == 1, a[5..5 + n], printable), Parse(a[5 + n..], printable).messages,
          Parse(b, printable));
    }
  }

  lemma FrontKept(a: seq<Byte>, b: seq<Byte>, n: nat)
    requires 5 + n <= |a|
    ensures (a + b)[0] == a[0] && (a + b)[1..5] == a[1..5] && (a + b)[5..5 + n] == a[5..5 + n]
    ensures (a + b)[5 + n..] == a[5 + n..] + b
  {
  }

  lemma ThenAssociative(m: Message, ms: seq<Message>, p: Parsed)
    ensures Then([m], Then(ms, p)) == Then([m] + ms, p)
  {
    assert [m] + (ms + p.messages) == [m] + ms + p.messages;
  }

  // ---------------------------------------------------------------- framing

  /** Frame: the length is written in 32 bits, whatever it is. */
  function Frame(compressed: bool, m: seq<Byte>): seq<Byte> {
    [if compressed then 1 else 0] + PutBigEndian(|m|, 4) + m
  }

  lemma FrameHead(compressed: bool, m: seq<Byte>)
    ensures
      var f := Frame(compressed, m);
      && |f| == 5 + |m| && f[0] == (if compressed then 1 else 0) && f[1..5] == PutBigEndian(|m|, 4) && f[5..] == m
  {
  }

  lemma LengthRead(m: seq<Byte>)
    ensures BigEndian(PutBigEndian(|m|, 4)) < TWO32
    ensures |m| < TWO32 ==> BigEndian(PutBigEndian(|m|, 4)) == |m|
  {
    Powers();
    ReadThenPut(PutBigEndian(|m|, 4));
    if |m| < TWO32 {
      PutThenRead(|m|, 4);
    }
  }

  /** One frame parses as its message. */
  lemma FrameParses(compressed: bool, m: seq<Byte>, printable: seq<Byte> -> bool)
    requires |m| < TWO32
    ensures Parse(Frame(compressed, m), printable)
            == Parsed([MessageOf(compressed, m, printable)], FaultOf(compressed, m, printable))
  {
    FrameHead(compressed, m);
    LengthRead(m);
    var f := Frame(compressed, m);
    assert f[5..5 + |m|] == m && f[5 + |m|..] == [];
    ParseFirst(f, |m|, printable);
  }

  /** A compressed frame comes back as one message of its length exactly when that fits 32 bits. */
  lemma CompressedFrameIff(m: seq<Byte>, printable: seq<Byte> -> bool)
    ensures Parse(Frame(true, m), printable) == Parsed([Message(true, |m|, [])], NoFault) <==> |m| < TWO32
  {
    if |m| < TWO32 {
      FrameParses(true, m, printable);
    } else {
      FrameHead(true, m);
      LengthRead(m);
      var f, n := Frame(true, m), BigEndian(PutBigEndian(|m|, 4));
      ParseFirst(f, n, printable);
      assert Parse(f, printable).messages[0] == MessageOf(true, f[5..5 + n], printable);
      assert Parse(f, printable).messages[0].length == n != |m|;
    }
  }

  function Stream(ms: seq<seq<Byte>>): seq<Byte> {
    if ms == [] then [] else Frame(true, ms[0]) + Stream(ms[1..])
  }

  function Opaque(ms: seq<seq<Byte>>): (r: seq<Message>)
    ensures |r| == |ms| && forall i | 0 <= i < |ms| :: r[i] == Message(true, |ms[i]|, [])
  {
    seq(|ms|, i requires 0 <= i < |ms| => Message(true, |ms[i]|, []))
  }

  lemma OpaqueFirst(ms: seq<seq<Byte>>)
    requires ms != []
    ensures Opaque(ms) == [Message(true, |ms[0]|, [])] + Opaque(ms[1..])
  {
  }

  /** A stream of compressed frames parses as one message each. */
  lemma {:induction false} StreamParses(ms: seq<seq<Byte>>, printable: seq<Byte> -> bool)
    requires forall m | m in ms :: |m| < TWO32
    ensures Parse(Stream(ms), printable) == Parsed(Opaque(ms), NoFault)
    decreases |ms|
  {
    if ms != [] {
      assert ms[0] in ms;
      FrameParses(true, ms[0], printable);
      StreamParses(ms[1..], printable);
      ParseConcat(Frame(true, ms[0]), Stream(ms[1..]), printable);
      OpaqueFirst(ms);
    }
  }

  /** A body cut inside a frame reports truncation, and still lists every frame before the cut. */
  lemma CutIsTruncated(a: seq<Byte>, compressed: bool, m: seq<Byte>, k: nat, printable: seq<Byte> -> bool)
    requires Parse(a, printable).fault == NoFault && |m| < TWO32 && 0 < k < 5 + |m|
    ensures Parse(a + Frame(compressed, m)[..k], printable) == Parsed(Parse(a, printable).messages, Truncated)
  {
    FrameHead(compressed, m);
    LengthRead(m);
    var cut := Frame(compressed, m)[..k];
    if k >= 5 {
      assert cut[1..5] == Frame(compressed, m)[1..5];
    }
    assert Parse(cut, printable) == Parsed([], Truncated);
    ParseConcat(a, cut, printable);
  }
}
