/**
 The decoder of internal/grpcx/decode.go against an encoder: a tree written in protobuf wire
 format is what walkMessage finds again.
 */
module ProtoTrees {
  import opened Bytes
  import Varint
  import opened Grpc

  const TWO61: nat := 0x2000_0000_0000_0000

  function PutLittleEndian(n: nat, k: nat): (b: seq<Byte>)
    ensures |b| == k
  {
    if k == 0 then [] else [n % 256] + PutLittleEndian(n / 256, k - 1)
  }

  lemma {:induction false} LittleEndianRoundTrip(n: nat, k: nat)
    requires n < Power256(k)
    ensures LittleEndian(PutLittleEndian(n, k)) == n
    decreases k
  {
    if k > 0 {
      LittleEndianRoundTrip(n / 256, k - 1);
      assert PutLittleEndian(n, k)[1..] == PutLittleEndian(n / 256, k - 1);
    }
  }

  /** The bytes of a length-delimited field. */
  function Content(f: Field): seq<Byte>
    decreases f, 1
  {
    if f.nested != [] then Encode(f.nested) else f.text
  }

  function Value(f: Field): seq<Byte>
    decreases f, 2
  {
    if f.wire == 0 then Varint.Put(f.uint)
    else if f.wire == 1 then PutLittleEndian(f.uint, 8)
    else if f.wire == 5 then PutLittleEndian(f.uint, 4)
    else Varint.Put(|Content(f)|) + Content(f)
  }

  function Encode(fields: seq<Field>): seq<Byte>
    decreases fields
  {
    if fields == [] then []
    else Varint.Put(8 * fields[0].number + fields[0].wire) + (Value(fields[0]) + Encode(fields[1..]))
  }

  predicate FitsScalar(f: Field) {
    && f.text == [] && f.nested == []
    && ((f.wire == 0 && f.uint < TWO64) || (f.wire == 1 && f.uint < TWO64) || (f.wire == 5 && f.uint < TWO32))
  }

  /** A tree the walk can recognise: numbers in range, messages that are not printable and not too deep,
      text that is printable and does not look too deep. */
  ghost predicate Readable(fields: seq<Field>, depth: nat, printable: seq<Byte> -> bool)
    decreases fields
  {
    fields == [] || (
      var f := fields[0];
      && 0 < f.number < TWO61
      && (FitsScalar(f) || (f.wire == 2 && f.uint == 0 && ReadableBytes(f, depth, printable)))
      && Readable(fields[1..], depth, printable))
  }

  ghost predicate ReadableBytes(f: Field, depth: nat, printable: seq<Byte> -> bool)
    decreases f
  {
    && depth < MAX_NEST_DEPTH && |Content(f)| < TWO64
    && if f.nested != [] then f.text == [] && !printable(Content(f)) && Readable(f.nested, depth + 1, printable)
       else (f.text == [] || printable(f.text)) && Walk(f.text, depth + 1, printable).fault != TooDeep
  }

  /** A tag followed by anything is read as its number and wire type. */
  lemma TagRead(number: nat, wire: nat, rest: seq<Byte>)
    requires 0 < number < TWO61 && wire < 8
    ensures
      var tag := Varint.Put(8 * number + wire);
      var b := tag + rest;
      && Varint.Read(b) == Varint.Number(8 * number + wire, |tag|)
      && (8 * number + wire) / 8 == number && (8 * number + wire) % 8 == wire && b[|tag|..] == rest
  {
    Varint.RoundTrip(8 * number + wire, rest);
  }

  lemma ScalarRead(f: Field, rest: seq<Byte>, b: seq<Byte>) returns (used: nat)
    requires FitsScalar(f) && 0 < f.number < TWO61
    requires b == Varint.Put(8 * f.number + f.wire) + (Value(f) + rest)
    ensures used <= |b| && FieldAt(b) == Scalar(f.number, f.wire, f.uint, used) && b[used..] == rest
  {
    var tag := Varint.Put(8 * f.number + f.wire);
    TagRead(f.number, f.wire, Value(f) + rest);
    if f.wire == 0 {
      used := VarintRead(b, f.number, |tag|, f.uint, rest);
    } else {
      used := FixedRead(b, f.number, f.wire, |tag|, f.uint, rest);
    }
  }

  lemma TailSlice(b: seq<Byte>, at: nat, n: nat)
    requires at + n <= |b|
    ensures b[at..at + n] == b[at..][..n] && b[at + n..] == b[at..][n..]
  {
  }

  lemma VarintRead(b: seq<Byte>, number: nat, at: nat, v: nat, rest: seq<Byte>) returns (used: nat)
    requires at <= |b| && b[at..] == Varint.Put(v) + rest && v < TWO64
    ensures used <= |b| && ScalarAt(b, number, 0, at) == Scalar(number, 0, v, used) && b[used..] == rest
  {
    Varint.RoundTrip(v, rest);
    used := at + |Varint.Put(v)|;
    TailSlice(b, at, |Varint.Put(v)|);
  }

  lemma FixedRead(b: seq<Byte>, number: nat, wire: nat, at: nat, v: nat, rest: seq<Byte>) returns (used: nat)
    requires (wire == 1 && v < TWO64) || (wire == 5 && v < TWO32)
    requires at <= |b| && b[at..] == PutLittleEndian(v, if wire == 1 then 8 else 4) + rest
    ensures used <= |b| && ScalarAt(b, number, wire, at) == Scalar(number, wire, v, used) && b[used..] == rest
  {
    var n := if wire == 1 then 8 else 4;
    used := at + n;
    Powers();
    LittleEndianRoundTrip(v, n);
    TailSlice(b, at, n);
  }

  lemma BytesRead(f: Field, rest: seq<Byte>, b: seq<Byte>) returns (used: nat)
    requires f.wire == 2 && 0 < f.number < TWO61 && |Content(f)| < TWO64
    requires b == Varint.Put(8 * f.number + f.wire) + (Value(f) + rest)
    ensures used <= |b| && FieldAt(b) == Delimited(f.number, Content(f), used) && b[used..] == rest
  {
    var tag, c := Varint.Put(8 * f.number + f.wire), Content(f);
    TagRead(f.number, f.wire, Value(f) + rest);
    assert Value(f) + rest == Varint.Put(|c|) + (c + rest);
    used := DelimitedRead(b, f.number, |tag|, c, rest);
  }

  lemma DelimitedRead(b: seq<Byte>, number: nat, at: nat, c: seq<Byte>, rest: seq<Byte>) returns (used: nat)
    requires at <= |b| && b[at..] == Varint.Put(|c|) + (c + rest) && |c| < TWO64
    ensures used <= |b| && BytesAt(b, number, at) == Delimited(number, c, used) && b[used..] == rest
  {
    Varint.RoundTrip(|c|, c + rest);
    var len := |Varint.Put(|c|)|;
    used := at + len + |c|;
    BlockSlice(b, at, Varint.Put(|c|), c, rest);
  }

  lemma BlockSlice(b: seq<Byte>, at: nat, head: seq<Byte>, c: seq<Byte>, rest: seq<Byte>)
    requires at <= |b| && b[at..] == head + (c + rest)
    ensures
      var n := at + |head|;
      |b| == n + |c| + |rest| && b[n..n + |c|] == c && b[n + |c|..] == rest
  {
    TailSlice(b, at, |head|);
    TailSlice(b, at + |head|, |c|);
    assert b[at..][|head|..] == c + rest;
  }

  /** What the walk makes of a readable length-delimited field. */
  lemma {:induction false} BytesFound(f: Field, depth: nat, printable: seq<Byte> -> bool)
    requires f.wire == 2 && f.uint == 0 && ReadableBytes(f, depth, printable)
    ensures
      var inner := Walk(Content(f), depth + 1, printable);
      inner.fault != TooDeep && BytesField(f.number, Content(f), inner, printable) == f
    decreases f, 1
  {
    if f.nested != [] {
      TreeRoundTrip(f.nested, depth + 1, printable);
    } else if f.text == [] {
      assert Walk([], depth + 1, printable) == Walked([], NoFault);
    }
  }

  lemma ReadableFirst(fields: seq<Field>, depth: nat, printable: seq<Byte> -> bool)
    requires fields != [] && Readable(fields, depth, printable)
    ensures
      var f := fields[0];
      && 0 < f.number < TWO61 && Readable(fields[1..], depth, printable)
      && (FitsScalar(f) || (f.wire == 2 && f.uint == 0 && ReadableBytes(f, depth, printable)))
      && Encode(fields) == Varint.Put(8 * f.number + f.wire) + (Value(f) + Encode(fields[1..]))
  {
  }

  lemma FirstJoins(fields: seq<Field>, w: Walked, rest: Walked)
    requires fields != [] && w == After([fields[0]], rest) && rest == Walked(fields[1..], NoFault)
    ensures w == Walked(fields, NoFault)
  {
    assert [fields[0]] + fields[1..] == fields;
  }

  /** One field in front of a tree that round-trips. */
  lemma {:induction false} TreeGrows(fields: seq<Field>, depth: nat, printable: seq<Byte> -> bool)
    requires depth <= MAX_NEST_DEPTH && fields != [] && Readable(fields, depth, printable)
    requires Walk(Encode(fields[1..]), depth, printable) == Walked(fields[1..], NoFault)
    ensures Walk(Encode(fields), depth, printable) == Walked(fields, NoFault)
    decreases fields, 0
  {
    ReadableFirst(fields, depth, printable);
    FirstRoundTrip(fields[0], Encode(fields[1..]), depth, printable);
    FirstJoins(fields, Walk(Encode(fields), depth, printable), Walk(Encode(fields[1..]), depth, printable));
  }

  /** Walking an encoded tree finds the tree. */
  lemma {:induction false} TreeRoundTrip(fields: seq<Field>, depth: nat, printable: seq<Byte> -> bool)
    requires depth <= MAX_NEST_DEPTH && Readable(fields, depth, printable)
    ensures Walk(Encode(fields), depth, printable) == Walked(fields, NoFault)
    decreases fields, 3
  {
    if fields != [] {
      TreeRoundTrip(fields[1..], depth, printable);
      TreeGrows(fields, depth, printable);
    }
  }

  lemma WalkScalar(b: seq<Byte>, f: Field, used: nat, rest: seq<Byte>, depth: nat, printable: seq<Byte> -> bool)
    requires depth <= MAX_NEST_DEPTH && f == Field(f.number, f.wire, f.uint, [], [])
    requires FieldAt(b) == Scalar(f.number, f.wire, f.uint, used) && used <= |b| && b[used..] == rest
    ensures Walk(b, depth, printable) == After([f], Walk(rest, depth, printable))
  {
    WalkFirst(b, depth, printable, Walked([], NoFault));
  }

  lemma WalkDelimited(b: seq<Byte>, f: Field, c: seq<Byte>, used: nat, rest: seq<Byte>, depth: nat,
                      printable: seq<Byte> -> bool, inner: Walked)
    requires depth <= MAX_NEST_DEPTH && inner == Walk(c, depth + 1, printable)
    requires FieldAt(b) == Delimited(f.number, c, used) && used <= |b| && b[used..] == rest
    requires inner.fault != TooDeep && f == BytesField(f.number, c, inner, printable)
    ensures Walk(b, depth, printable) == After([f], Walk(rest, depth, printable))
  {
    WalkFirst(b, depth, printable, inner);
  }

  lemma {:induction false} FirstRoundTrip(f: Field, rest: seq<Byte>, depth: nat, printable: seq<Byte> -> bool)
    requires depth <= MAX_NEST_DEPTH && 0 < f.number < TWO61
    requires FitsScalar(f) || (f.wire == 2 && f.uint == 0 && ReadableBytes(f, depth, printable))
    ensures Walk(Varint.Put(8 * f.number + f.wire) + (Value(f) + rest), depth, printable)
            == After([f], Walk(rest, depth, printable))
    decreases f, 2
  {
    var b := Varint.Put(8 * f.number + f.wire) + (Value(f) + rest);
    if f.wire == 2 {
      var used := BytesRead(f, rest, b);
      BytesFound(f, depth, printable);
      WalkDelimited(b, f, Content(f), used, rest, depth, printable, Walk(Content(f), depth + 1, printable));
    } else {
      var used := ScalarRead(f, rest, b);
      WalkScalar(b, f, used, rest, depth, printable);
    }
  }
}
