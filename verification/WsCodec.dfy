/**
 WebSocket frames (internal/wsx/frame.go, section 5.2 of RFC 6455): the header codec, masking,
 and the chunked tee. Bit tests on a byte are written as quotients and remainders.
 */
module WsCodec {
  import opened Bytes

  type MaskKey = k: seq<Byte> | |k| == 4 witness [0, 0, 0, 0]

  const NO_KEY: MaskKey := [0, 0, 0, 0]
  const MAX_CONTROL_PAYLOAD := 125
  const MAX_UINT16 := 65535
  const TWO63: nat := 0x8000_0000_0000_0000
  const OPCODE_CLOSE: Byte := 8

  type Length = n: int | 0 <= n < 0x1_0000_0000_0000_0000

  datatype Header = Header(fin: bool, rsv1: bool, rsv2: bool, rsv3: bool, opcode: Byte, masked: bool, key: MaskKey,
                           length: Length)

  datatype Parse = Parsed(header: Header, used: nat) | Short | ProtocolError

  datatype Write = Wrote(bytes: seq<Byte>) | Refused

  predicate Control(opcode: Byte) {
    opcode / 8 % 2 == 1
  }

  // ---------------------------------------------------------------- headers

  function Bit(b: bool, weight: nat): nat {
    if b then weight else 0
  }

  function FirstByte(h: Header): Byte {
    Bit(h.fin, 128) + Bit(h.rsv1, 64) + Bit(h.rsv2, 32) + Bit(h.rsv3, 16) + h.opcode % 16
  }

  /** The header a first byte, a mask bit, a length and a key stand for. */
  function HeaderOf(b0: Byte, masked: bool, key: MaskKey, n: Length): Header {
    Header(b0 / 128 == 1, b0 / 64 % 2 == 1, b0 / 32 % 2 == 1, b0 / 16 % 2 == 1, b0 % 16, masked, key, n)
  }

  /** How many bytes follow the first two for the length. */
  function ExtendedBytes(l7: nat): nat {
    if l7 == 126 then 2 else if l7 == 127 then 8 else 0
  }

  /** The length is spelled in the shortest form, and in 63 bits. */
  predicate CanonicalLength(l7: nat, n: nat) {
    (l7 == 126 ==> n > MAX_CONTROL_PAYLOAD) && (l7 == 127 ==> n > MAX_UINT16 && n < TWO63)
  }

  function ReadHeader(s: seq<Byte>): (p: Parse)
    ensures p.Parsed? ==> 2 <= p.used <= |s|
  {
    if |s| < 2 then Short
    else
      var opcode: Byte, fin, masked, l7 := s[0] % 16, s[0] / 128 == 1, s[1] / 128 == 1, s[1] % 128;
      var ext := ExtendedBytes(l7);
      if Control(opcode) && (!fin || l7 > MAX_CONTROL_PAYLOAD) then ProtocolError
      else if |s| < 2 + ext then Short
      else
        var n := if ext == 0 then l7 else BigEndian(s[2..2 + ext]);
        if !CanonicalLength(l7, n) then ProtocolError
        else if Control(opcode) && n > MAX_CONTROL_PAYLOAD then ProtocolError
        else if masked && |s| < 2 + ext + 4 then Short
        else
          BigEndianFits(s, ext);
          var key: MaskKey := if masked then s[2 + ext..2 + ext + 4] else NO_KEY;
          Parsed(HeaderOf(s[0], masked, key, n), 2 + ext + Bit(masked, 4))
  }

  lemma BigEndianFits(s: seq<Byte>, ext: nat)
    requires 2 + ext <= |s| && (ext == 0 || ext == 2 || ext == 8)
    ensures BigEndian(s[2..2 + ext]) < TWO64
  {
    ReadThenPut(s[2..2 + ext]);
    Powers();
  }

  function LengthCode(n: nat): nat {
    if n <= MAX_CONTROL_PAYLOAD then n else if n <= MAX_UINT16 then 126 else 127
  }

  function WriteHeader(h: Header): Write {
    if Control(h.opcode) && (!h.fin || h.length > MAX_CONTROL_PAYLOAD) then Refused
    else
      var l7 := LengthCode(h.length);
      var ext := ExtendedBytes(l7);
      Wrote([FirstByte(h), Bit(h.masked, 128) + l7]
            + (if ext == 0 then [] else PutBigEndian(h.length, ext))
            + (if h.masked then h.key else []))
  }

  // ---------------------------------------------------------------- the codec is canonical

  lemma Halves(x: nat)
    ensures x / 64 == 2 * (x / 128) + x / 64 % 2
    ensures x / 32 == 2 * (x / 64) + x / 32 % 2
    ensures x / 16 == 2 * (x / 32) + x / 16 % 2
  {
    assert x / 128 == x / 64 / 2 && x / 64 == x / 32 / 2 && x / 32 == x / 16 / 2;
  }

  lemma FirstByteRestored(b0: Byte, masked: bool, key: MaskKey, n: Length)
    ensures FirstByte(HeaderOf(b0, masked, key, n)) == b0
  {
    Halves(b0);
  }

  lemma HeaderParts(s: seq<Byte>, ext: nat, tail: nat)
    requires 2 + ext + tail <= |s|
    ensures s[..2 + ext + tail] == [s[0], s[1]] + s[2..2 + ext] + s[2 + ext..2 + ext + tail]
  {
  }

  lemma LengthRestored(s: seq<Byte>, l7: nat, n: nat)
    requires l7 < 128 && 2 + ExtendedBytes(l7) <= |s| && CanonicalLength(l7, n)
    requires n == if ExtendedBytes(l7) == 0 then l7 else BigEndian(s[2..2 + ExtendedBytes(l7)])
    ensures LengthCode(n) == l7
    ensures ExtendedBytes(l7) != 0 ==> PutBigEndian(n, ExtendedBytes(l7)) == s[2..2 + ExtendedBytes(l7)]
  {
    ReadThenPut(s[2..2 + ExtendedBytes(l7)]);
    Powers();
  }

  lemma ParsedParts(s: seq<Byte>)
    requires ReadHeader(s).Parsed?
    ensures
      var h, l7 := ReadHeader(s).header, s[1] % 128;
      var ext := ExtendedBytes(l7);
      && ReadHeader(s).used == 2 + ext + Bit(h.masked, 4) <= |s|
      && h == HeaderOf(s[0], h.masked, h.key, h.length) && s[1] == Bit(h.masked, 128) + l7
      && CanonicalLength(l7, h.length) && h.length == (if ext == 0 then l7 else BigEndian(s[2..2 + ext]))
      && s[2 + ext..ReadHeader(s).used] == (if h.masked then h.key else [])
      && (Control(h.opcode) ==> h.fin && h.length <= MAX_CONTROL_PAYLOAD)
  {
  }

  lemma WriteParts(h: Header, b1: Byte, ext: seq<Byte>, tail: seq<Byte>)
    requires Control(h.opcode) ==> h.fin && h.length <= MAX_CONTROL_PAYLOAD
    requires b1 == Bit(h.masked, 128) + LengthCode(h.length)
    requires
      var k := ExtendedBytes(LengthCode(h.length));
      ext == if k == 0 then [] else PutBigEndian(h.length, k)
    requires tail == if h.masked then h.key else []
    ensures WriteHeader(h) == Wrote([FirstByte(h), b1] + ext + tail)
  {
  }

  /** Whatever header is read, writing it emits exactly the bytes it was read from. */
  lemma ReadThenWrite(s: seq<Byte>)
    requires ReadHeader(s).Parsed?
    ensures WriteHeader(ReadHeader(s).header) == Wrote(s[..ReadHeader(s).used])
  {
    var h := ReadHeader(s).header;
    var l7 := s[1] % 128;
    ParsedParts(s);
    FirstByteRestored(s[0], h.masked, h.key, h.length);
    LengthRestored(s, l7, h.length);
    WriteParts(h, s[1], s[2..2 + ExtendedBytes(l7)], s[2 + ExtendedBytes(l7)..ReadHeader(s).used]);
    HeaderParts(s, ExtendedBytes(l7), Bit(h.masked, 4));
  }

  /** What a header loses on the wire: high opcode bits, and a key nobody uses. */
  function OnWire(h: Header): Header {
    h.(opcode := h.opcode % 16, key := if h.masked then h.key else NO_KEY)
  }

  lemma Nibbles(a: nat, b: nat, c: nat, d: nat, low: nat)
    requires a < 2 && b < 2 && c < 2 && d < 2 && low < 16
    ensures
      var x := 128 * a + 64 * b + 32 * c + 16 * d + low;
      x % 16 == low && x / 16 == 8 * a + 4 * b + 2 * c + d
  {
    var high := 8 * a + 4 * b + 2 * c + d;
    assert 128 * a + 64 * b + 32 * c + 16 * d + low == 16 * high + low;
  }

  lemma HighBits(x: nat, a: nat, b: nat, c: nat, d: nat)
    requires a < 2 && b < 2 && c < 2 && d < 2 && x / 16 == 8 * a + 4 * b + 2 * c + d
    ensures x / 16 % 2 == d && x / 32 % 2 == c && x / 64 % 2 == b && x / 128 == a
  {
    assert x / 32 == x / 16 / 2 == 4 * a + 2 * b + c;
    assert x / 64 == x / 16 / 4 == 2 * a + b;
    assert x / 128 == x / 16 / 8 == a;
  }

  lemma FirstByteParts(h: Header)
    ensures HeaderOf(FirstByte(h), h.masked, h.key, h.length) == h.(opcode := h.opcode % 16)
    ensures FirstByte(h) % 16 == h.opcode % 16 && (FirstByte(h) / 128 == 1 <==> h.fin)
  {
    var a, b, c, d := Bit(h.fin, 1), Bit(h.rsv1, 1), Bit(h.rsv2, 1), Bit(h.rsv3, 1);
    var x := FirstByte(h);
    assert x == 128 * a + 64 * b + 32 * c + 16 * d + h.opcode % 16;
    assert x % 16 == h.opcode % 16 && x / 16 % 2 == d && x / 32 % 2 == c && x / 64 % 2 == b && x / 128 == a by {
      hide *;
      Nibbles(a, b, c, d, h.opcode % 16);
      HighBits(x, a, b, c, d);
    }
  }

  lemma ControlOnWire(opcode: Byte)
    ensures Control(opcode % 16) == Control(opcode)
  {
  }

  lemma SecondByteParts(masked: bool, l7: nat)
    requires l7 < 128
    ensures (Bit(masked, 128) + l7) / 128 == Bit(masked, 1) && (Bit(masked, 128) + l7) % 128 == l7
  {
  }

  lemma LengthOnWire(n: Length)
    ensures
      var l7 := LengthCode(n);
      var ext := ExtendedBytes(l7);
      && l7 < 128 && (ext == 0 ==> n == l7)
      && (ext != 0 ==> BigEndian(PutBigEndian(n, ext)) == n)
      && (CanonicalLength(l7, n) <==> n < TWO63)
  {
    Powers();
    var ext := ExtendedBytes(LengthCode(n));
    if ext != 0 {
      PutThenRead(n, ext);
    }
  }

  lemma WrittenParts(h: Header, rest: seq<Byte>)
    requires WriteHeader(h).Wrote?
    ensures
      var s := WriteHeader(h).bytes + rest;
      var ext := ExtendedBytes(LengthCode(h.length));
      && |WriteHeader(h).bytes| == 2 + ext + Bit(h.masked, 4) <= |s|
      && s[0] == FirstByte(h) && s[1] == Bit(h.masked, 128) + LengthCode(h.length)
      && (ext != 0 ==> s[2..2 + ext] == PutBigEndian(h.length, ext))
      && (h.masked ==> s[2 + ext..2 + ext + 4] == h.key)
  {
  }

  lemma ReadParts(s: seq<Byte>, masked: bool, l7: nat, n: Length, key: MaskKey)
    requires l7 < 128 && 2 + ExtendedBytes(l7) + Bit(masked, 4) <= |s|
    requires s[1] % 128 == l7 && s[1] / 128 == Bit(masked, 1)
    requires n == if ExtendedBytes(l7) == 0 then l7 else BigEndian(s[2..2 + ExtendedBytes(l7)])
    requires key == if masked then s[2 + ExtendedBytes(l7)..2 + ExtendedBytes(l7) + 4] else NO_KEY
    requires Control(s[0] % 16) ==> s[0] / 128 == 1 && l7 <= MAX_CONTROL_PAYLOAD
    ensures ReadHeader(s)
            == if CanonicalLength(l7, n)
               then Parsed(HeaderOf(s[0], masked, key, n), 2 + ExtendedBytes(l7) + Bit(masked, 4))
               else ProtocolError
  {
  }

  /** What is read back from a written header, whatever follows it. */
  lemma WriteThenRead(h: Header, rest: seq<Byte>)
    requires WriteHeader(h).Wrote?
    ensures ReadHeader(WriteHeader(h).bytes + rest)
            == if h.length < TWO63 then Parsed(OnWire(h), |WriteHeader(h).bytes|) else ProtocolError
  {
    WrittenParts(h, rest);
    FirstByteParts(h);
    ControlOnWire(h.opcode);
    SecondByteParts(h.masked, LengthCode(h.length));
    LengthOnWire(h.length);
    ReadParts(WriteHeader(h).bytes + rest, h.masked, LengthCode(h.length), h.length, OnWire(h).key);
  }

  /** A written header is read back as itself exactly when its length fits 63 bits, its opcode four,
      and an unmasked one carries no key. */
  lemma RoundTripIff(h: Header, rest: seq<Byte>)
    requires WriteHeader(h).Wrote?
    ensures
      ReadHeader(WriteHeader(h).bytes + rest) == Parsed(h, |WriteHeader(h).bytes|)
      <==> h.length < TWO63 && h.opcode < 16 && (h.masked || h.key == NO_KEY)
  {
    WriteThenRead(h, rest);
  }

  /** The wire format of section 5.2 of RFC 6455: flags and opcode, mask bit and seven-bit length, two or eight bytes
      of length in network byte order when it does not fit, and the key. Fragmented or oversized control frames are
      not written. */
  lemma WrittenLayout(h: Header)
    ensures WriteHeader(h).Refused? <==> h.opcode / 8 % 2 == 1 && (!h.fin || h.length > 125)
    ensures WriteHeader(h).Wrote? ==>
      var s := WriteHeader(h).bytes;
      var ext := if h.length <= 125 then 0 else if h.length <= 65535 then 2 else 8;
      && |s| == 2 + ext + (if h.masked then 4 else 0)
      && (s[0] / 128 == 1 <==> h.fin) && (s[0] / 64 % 2 == 1 <==> h.rsv1)
      && (s[0] / 32 % 2 == 1 <==> h.rsv2) && (s[0] / 16 % 2 == 1 <==> h.rsv3) && s[0] % 16 == h.opcode % 16
      && (s[1] / 128 == 1 <==> h.masked)
      && s[1] % 128 == (if ext == 0 then h.length else if ext == 2 then 126 else 127)
      && (ext != 0 ==> BigEndian(s[2..2 + ext]) == h.length)
      && (h.masked ==> s[2 + ext..] == h.key)
  {
    if WriteHeader(h).Wrote? {
      WrittenParts(h, []);
      var s := WriteHeader(h).bytes;
      assert s + [] == s;
      FirstByteParts(h);
      SecondByteParts(h.masked, LengthCode(h.length));
      LengthOnWire(h.length);
    }
  }

  /** Which bytes are refused: control frames that are fragmented or longer than 125, and lengths that are not in the
      shortest form or do not fit 63 bits; and which are too few. */
  lemma ReadAnswers(s: seq<Byte>)
    ensures |s| < 2 ==> ReadHeader(s).Short?
    ensures |s| >= 2 ==>
      var control, ext := s[0] % 16 >= 8, if s[1] % 128 == 126 then 2 else if s[1] % 128 == 127 then 8 else 0;
      var n := if |s| < 2 + ext then 0 else BigEndian(s[2..2 + ext]);
      var wrong := || (control && (s[0] < 128 || s[1] % 128 > 125))
                   || (|s| >= 2 + ext && ext == 2 && n <= 125)
                   || (|s| >= 2 + ext && ext == 8 && (n <= 65535 || n >= 0x8000_0000_0000_0000));
      && (ReadHeader(s).ProtocolError? <==> wrong)
      && (ReadHeader(s).Short? <==> !wrong && |s| < 2 + ext + (if s[1] >= 128 then 4 else 0))
  {
  }

  // ---------------------------------------------------------------- masking

  /** Wire bytes against the key, from a position of the payload. */
  function Masked(s: seq<Byte>, key: MaskKey, at: nat): (r: seq<Byte>)
    ensures |r| == |s| && forall i | 0 <= i < |s| :: r[i] == Xor(s[i], key[(at + i) % 4])
  {
    seq(|s|, i requires 0 <= i < |s| => Xor(s[i], key[(at + i) % 4]))
  }

  function Unmasked(s: seq<Byte>, masked: bool, key: MaskKey): seq<Byte> {
    if masked then Masked(s, key, 0) else s
  }

  /** Masking twice with one key restores the payload. */
  lemma MaskedTwice(s: seq<Byte>, key: MaskKey, at: nat)
    ensures Masked(Masked(s, key, at), key, at) == s
  {
    forall i | 0 <= i < |s| ensures Masked(Masked(s, key, at), key, at)[i] == s[i] {
      XorTwice(s[i], key[(at + i) % 4]);
    }
  }

  /** maskInPlace. */
  method MaskInPlace(b: array<Byte>, key: MaskKey)
    modifies b
    ensures b[..] == Masked(old(b[..]), key, 0)
  {
    for i := 0 to b.Length
      invariant forall j | 0 <= j < i :: b[j] == Xor(old(b[j]), key[j % 4])
      invariant forall j | i <= j < b.Length :: b[j] == old(b[j])
    {
      b[i] := Xor(b[i], key[i % 4]);
    }
  }

  // ---------------------------------------------------------------- the tee

  const CHUNK := 32768

  function Min(a: int, b: int): int {
    if a < b then a else b
  }

  /** What a tee that forwarded `out` keeps. */
  function Kept(out: seq<Byte>, masked: bool, key: MaskKey, storeMax: int): seq<Byte> {
    if storeMax <= 0 then [] else Unmasked(out, masked, key)[..Min(storeMax, |out|)]
  }

  method UnmaskPiece(piece: seq<Byte>, masked: bool, key: MaskKey, off: nat) returns (r: seq<Byte>)
    ensures r == UnmaskedAt(piece, masked, key, off)
  {
    r := piece;
    if masked {
      for i := 0 to |piece|
        invariant |r| == |piece|
        invariant forall j | 0 <= j < i :: r[j] == Xor(piece[j], key[(off + j) % 4])
        invariant forall j | i <= j < |piece| :: r[j] == piece[j]
      {
        r := r[i := Xor(r[i], key[(off + i) % 4])];
      }
    }
  }

  /** Bytes from a position of the payload on, unmasked. */
  function UnmaskedAt(s: seq<Byte>, masked: bool, key: MaskKey, at: nat): (r: seq<Byte>)
    ensures |r| == |s|
  {
    if masked then Masked(s, key, at) else s
  }

  lemma UnmaskedJoin(a: seq<Byte>, b: seq<Byte>, masked: bool, key: MaskKey)
    ensures Unmasked(a + b, masked, key) == Unmasked(a, masked, key) + UnmaskedAt(b, masked, key, |a|)
  {
    var x, y := Unmasked(a + b, masked, key), Unmasked(a, masked, key) + UnmaskedAt(b, masked, key, |a|);
    forall i | 0 <= i < |a| + |b| ensures x[i] == y[i] {
    }
  }

  lemma KeptPrefix(src: seq<Byte>, off: nat, masked: bool, key: MaskKey, storeMax: nat)
    requires off <= |src|
    ensures Kept(src[..off], masked, key, storeMax) == Unmasked(src[..Min(storeMax, off)], masked, key)
  {
    var k := Min(storeMax, off);
    JoinAt(src, k, off);
    UnmaskedJoin(src[..k], src[k..off], masked, key);
  }

  lemma JoinAt(src: seq<Byte>, k: nat, off: nat)
    requires k <= off <= |src|
    ensures src[..off] == src[..k] + src[k..off]
  {
  }

  lemma KeptFull(src: seq<Byte>, off: nat, nr: nat, masked: bool, key: MaskKey, storeMax: nat)
    requires off + nr <= |src| && storeMax <= off
    ensures Kept(src[..off + nr], masked, key, storeMax) == Kept(src[..off], masked, key, storeMax)
  {
    KeptPrefix(src, off + nr, masked, key, storeMax);
    KeptPrefix(src, off, masked, key, storeMax);
  }

  lemma KeptJoin(src: seq<Byte>, off: nat, take: nat, masked: bool, key: MaskKey)
    requires off + take <= |src|
    ensures Unmasked(src[..off + take], masked, key)
            == Unmasked(src[..off], masked, key) + UnmaskedAt(src[off..off + take], masked, key, off)
  {
    JoinAt(src, off, off + take);
    UnmaskedJoin(src[..off], src[off..off + take], masked, key);
  }

  /** What is kept after one more chunk. */
  lemma KeptGrows(src: seq<Byte>, off: nat, nr: nat, masked: bool, key: MaskKey, storeMax: int, take: nat)
    requires off + nr <= |src| && storeMax > 0
    requires take == if off >= storeMax then 0 else Min(nr, storeMax - off)
    ensures
      Kept(src[..off + nr], masked, key, storeMax)
      == Kept(src[..off], masked, key, storeMax) + UnmaskedAt(src[off..off + take], masked, key, off)
  {
    if off < storeMax {
      KeptPrefix(src, off + nr, masked, key, storeMax);
      KeptPrefix(src, off, masked, key, storeMax);
      KeptJoin(src, off, take, masked, key);
    } else {
      KeptFull(src, off, nr, masked, key, storeMax);
      assert UnmaskedAt(src[off..off], masked, key, off) == [];
    }
  }

  /** What the loop stores of one chunk. */
  method KeepPiece(stored: seq<Byte>, src: seq<Byte>, off: nat, nr: nat, masked: bool, key: MaskKey, storeMax: int)
    returns (r: seq<Byte>)
    requires off + nr <= |src| && stored == Kept(src[..off], masked, key, storeMax)
    ensures r == Kept(src[..off + nr], masked, key, storeMax)
  {
    r := stored;
    if storeMax > 0 {
      var take := if |stored| < storeMax then Min(nr, storeMax - |stored|) else 0;
      KeptGrows(src, off, nr, masked, key, storeMax, take);
      if |stored| < storeMax {
        var piece := UnmaskPiece(src[off..off + take], masked, key, off);
        r := r + piece;
      }
    }
  }

  /** TeePayload: `src` is what the source delivers before it ends, `budget` how many writes the
      destination takes before one fails, and `part` how much of its chunk the failing write still
      delivers. The wire bytes pass unchanged, chunk by chunk, and what is kept is what unmasking the
      `done` bytes of the complete writes at once would give. */
  method TeePayload(src: seq<Byte>, n: nat, masked: bool, key: MaskKey, storeMax: int, budget: nat, part: nat)
    returns (stored: seq<Byte>, out: seq<Byte>, ok: bool, ghost done: nat)
    ensures done <= |out| <= Min(n, |src|) && out == src[..|out|]
    ensures ok <==> done == n
    ensures ok <==> n <= |src| && n <= budget * CHUNK
    ensures stored == Kept(src[..done], masked, key, storeMax)
    ensures budget * CHUNK >= n ==> done == |out| == Min(n, |src|)
  {
    stored, out, ok, done := [], [], true, 0;
    var off, writes := 0, 0;
    while off < n
      invariant 0 <= off <= Min(n, |src|) && out == src[..off] && |out| == off == done && ok
      invariant stored == Kept(src[..off], masked, key, storeMax)
      invariant writes <= budget && off <= writes * CHUNK && (off == writes * CHUNK || off == n)
      decreases n - off
    {
      var chunk := Min(CHUNK, n - off);
      var nr := Min(chunk, |src| - off);
      if nr > 0 {
        if writes == budget {
          JoinAt(src, off, off + Min(part, nr));
          return stored, out + src[off..off + Min(part, nr)], false, done;
        }
        writes := writes + 1;
        stored := KeepPiece(stored, src, off, nr, masked, key, storeMax);
        JoinAt(src, off, off + nr);
        out := out + src[off..off + nr];
        off := off + nr;
        done := off;
      }
      if nr < chunk {
        return stored, out, false, done;
      }
    }
  }

  // ---------------------------------------------------------------- whole frames

  const DEFAULT_MAX_PAYLOAD := 33554432

  datatype Frame = Frame(fin: bool, rsv1: bool, rsv2: bool, rsv3: bool, opcode: Byte, masked: bool, key: MaskKey,
                         payload: seq<Byte>, closeCode: nat, closeReason: seq<Byte>)

  datatype FrameParse = FrameRead(frame: Frame, used: nat) | FrameShort | FrameProtocol | TooLarge

  function ToFrame(h: Header, payload: seq<Byte>): Frame {
    Frame(h.fin, h.rsv1, h.rsv2, h.rsv3, h.opcode, h.masked, h.key, payload, 0, [])
  }

  /** parseClose: a close payload is empty, or a code with a reason. */
  function WithClose(f: Frame): Frame {
    if f.opcode == OPCODE_CLOSE && |f.payload| >= 2
    then f.(closeCode := BigEndian(f.payload[..2]), closeReason := f.payload[2..])
    else f
  }

  function FrameFrom(s: seq<Byte>, h: Header, used: nat, limit: nat): FrameParse {
    if h.length > limit then TooLarge
    else if |s| < used + h.length then FrameShort
    else if h.opcode == OPCODE_CLOSE && h.length == 1 then FrameProtocol
    else FrameRead(WithClose(ToFrame(h, Unmasked(s[used..used + h.length], h.masked, h.key))), used + h.length)
  }

  function ReadFrame(s: seq<Byte>, max: int): FrameParse {
    match ReadHeader(s)
    case Short => FrameShort
    case ProtocolError => FrameProtocol
    case Parsed(h, used) => FrameFrom(s, h, used, if max <= 0 then DEFAULT_MAX_PAYLOAD else max)
  }

  /** The payload a frame is written with. */
  function WirePayload(f: Frame): seq<Byte> {
    if f.opcode == OPCODE_CLOSE && f.payload == [] && (f.closeCode != 0 || f.closeReason != [])
    then PutBigEndian(f.closeCode, 2) + f.closeReason
    else f.payload
  }

  function WriteFrame(f: Frame): Write
    requires |WirePayload(f)| < TWO63
  {
    var payload := WirePayload(f);
    match WriteHeader(Header(f.fin, f.rsv1, f.rsv2, f.rsv3, f.opcode, f.masked, f.key, |payload|))
    case Refused => Refused
    case Wrote(b) => Wrote(b + Unmasked(payload, f.masked, f.key))
  }

  lemma UnmaskedTwice(s: seq<Byte>, masked: bool, key: MaskKey)
    ensures Unmasked(Unmasked(s, masked, key), masked, key) == s && |Unmasked(s, masked, key)| == |s|
  {
    MaskedTwice(s, key, 0);
  }

  lemma ParsedLength(s: seq<Byte>)
    requires ReadHeader(s).Parsed?
    ensures ReadHeader(s).header.length < TWO63
  {
    var ext := ExtendedBytes(s[1] % 128);
    ReadThenPut(s[2..2 + ext]);
    Powers();
  }

  lemma FrameWritten(h: Header, head: seq<Byte>, wire: seq<Byte>, f: Frame, all: seq<Byte>)
    requires WriteHeader(h) == Wrote(head) && |wire| == h.length < TWO63
    requires f == WithClose(ToFrame(h, Unmasked(wire, h.masked, h.key))) && all == head + wire
    ensures |WirePayload(f)| < TWO63 && WriteFrame(f) == Wrote(all)
  {
    UnmaskedTwice(wire, h.masked, h.key);
    assert WirePayload(f) == f.payload;
    assert h == Header(f.fin, f.rsv1, f.rsv2, f.rsv3, f.opcode, f.masked, f.key, |f.payload|);
  }

  lemma CutAt(s: seq<Byte>, used: nat, n: nat)
    requires used + n <= |s|
    ensures s[..used + n] == s[..used] + s[used..used + n]
  {
  }

  lemma FrameParts(s: seq<Byte>, max: int)
    requires ReadFrame(s, max).FrameRead?
    ensures
      var p, h := ReadFrame(s, max), ReadHeader(s).header;
      && ReadHeader(s).Parsed? && p.used == ReadHeader(s).used + h.length <= |s|
      && p.frame == WithClose(ToFrame(h, Unmasked(s[ReadHeader(s).used..p.used], h.masked, h.key)))
  {
  }

  /** A frame that was read is written as exactly the bytes it was read from. */
  lemma FrameTransparent(s: seq<Byte>, max: int)
    requires ReadFrame(s, max).FrameRead?
    ensures |WirePayload(ReadFrame(s, max).frame)| < TWO63 && ReadFrame(s, max).used <= |s|
    ensures WriteFrame(ReadFrame(s, max).frame) == Wrote(s[..ReadFrame(s, max).used])
  {
    FrameParts(s, max);
    ReadThenWrite(s);
    ParsedLength(s);
    var p, used := ReadFrame(s, max), ReadHeader(s).used;
    CutAt(s, used, ReadHeader(s).header.length);
    FrameWritten(ReadHeader(s).header, s[..used], s[used..p.used], p.frame, s[..p.used]);
  }

  /** A frame in the form parseClose leaves, with a four-bit opcode and no idle key. */
  predicate Normal(f: Frame) {
    && f.opcode < 16 && (f.masked || f.key == NO_KEY)
    && f == WithClose(f.(closeCode := 0, closeReason := []))
    && !(f.opcode == OPCODE_CLOSE && |f.payload| == 1)
  }

  /** A frame read at the front of a source whose header is known. */
  lemma FrameBehind(s: seq<Byte>, h: Header, head: seq<Byte>, wire: seq<Byte>, rest: seq<Byte>, max: int)
    requires s == head + (wire + rest) && ReadHeader(s) == Parsed(h, |head|) && |wire| == h.length
    ensures ReadFrame(s, max) == FrameFrom(s, h, |head|, if max <= 0 then DEFAULT_MAX_PAYLOAD else max)
    ensures |head| + |wire| <= |s| && s[|head|..|head| + |wire|] == wire
  {
  }

  /** Writing a normal frame and reading it back restores it, whatever follows. */
  lemma FrameRoundTrip(f: Frame, max: int, rest: seq<Byte>)
    requires Normal(f) && |f.payload| < TWO63 && |f.payload| <= (if max <= 0 then DEFAULT_MAX_PAYLOAD else max)
    requires WriteFrame(f).Wrote?
    ensures ReadFrame(WriteFrame(f).bytes + rest, max) == FrameRead(f, |WriteFrame(f).bytes|)
  {
    assert WirePayload(f) == f.payload;
    var h := Header(f.fin, f.rsv1, f.rsv2, f.rsv3, f.opcode, f.masked, f.key, |f.payload|);
    var head, wire := WriteHeader(h).bytes, Unmasked(f.payload, f.masked, f.key);
    UnmaskedTwice(f.payload, f.masked, f.key);
    RoundTripIff(h, wire + rest);
    hide ReadHeader, WriteHeader;
    assert WriteFrame(f).bytes + rest == head + (wire + rest);
    FrameBehind(head + (wire + rest), h, head, wire, rest, max);
  }
}
