/** RSM Link frames: the C and the Python codec of the same format. The checksum is the CRC-32C of
 *  section 12.1 of RFC 3720. */
module Frames {
  import opened Bytes
  import opened Crc

  const HEADER_SIZE := 24
  const MIN_FRAME := 28
  const MAX_FRAME := 1_048_576
  const MAX_PAYLOAD := 1_048_548

  const MAGIC: seq<byte> := [0x52, 0x53, 0x4d, 0x4c]

  datatype Frame = Frame(messageType: nat, payload: seq<byte>, requestId: nat, sequence: nat, headerFlags: nat,
    messageFlags: nat)

  // ----- encoding -----

  /** The fields fit the header and the payload the limit. */
  predicate Encodable(f: Frame) {
    && |f.payload| <= MAX_PAYLOAD
    && f.messageType < 0x1_0000 && f.messageFlags < 0x1_0000 && f.headerFlags < 0x100
    && f.requestId <= UINT32_MAX && f.sequence <= UINT32_MAX
  }

  function Header(f: Frame): (s: seq<byte>)
    requires Encodable(f)
    ensures |s| == HEADER_SIZE
  {
    MAGIC + [1, 1, 0, f.headerFlags] + Le16(f.messageType) + Le16(f.messageFlags) + Le32(f.requestId)
      + Le32(f.sequence) + Le32(|f.payload|)
  }

  function Encode(f: Frame): (s: seq<byte>)
    requires Encodable(f)
    ensures |s| == MIN_FRAME + |f.payload|
  {
    var body := Header(f) + f.payload;
    body + Le32(Checksum(CRC32C_POLYNOMIAL, body))
  }

  /** `Frame.encode` of the Python side: None where it raises. */
  method EncodeFrame(f: Frame) returns (r: Option<seq<byte>>)
    ensures r.Some? <==> Encodable(f)
    ensures r.Some? ==> r.value == Encode(f)
  {
    if !Encodable(f) {
      return None;
    }
    var body := Header(f) + f.payload;
    var crc := ComputeCrc(CRC32C_POLYNOMIAL, body);
    r := Some(body + Le32(crc));
  }

  // ----- decoding -----

  datatype Status = OK | INCOMPLETE | BAD_FRAME | VERSION | BAD_CRC | LIMIT

  function FieldsOf(x: seq<byte>): Frame
    requires |x| >= MIN_FRAME
  {
    Frame(U16(x, 8), x[HEADER_SIZE..|x| - 4], U32(x, 12), U32(x, 16), x[7], U16(x, 10))
  }

  /** The checksum that ends the string is that of what precedes it. */
  predicate CrcMatches(x: seq<byte>)
    requires |x| >= 4
  {
    U32(x, |x| - 4) == Checksum(CRC32C_POLYNOMIAL, x[..|x| - 4])
  }

  /** The byte string is one well-formed frame. The minor version, byte 6, is not looked at. */
  predicate FrameOk(x: seq<byte>) {
    && |x| >= MIN_FRAME && x[..4] == MAGIC && x[4] == 1 && x[5] == 1 && x[7] <= 1
    && U32(x, 20) <= MAX_PAYLOAD && |x| == MIN_FRAME + U32(x, 20)
    && CrcMatches(x)
  }

  predicate Versions(x: seq<byte>)
    requires |x| >= MIN_FRAME
  {
    x[4] == 1 && x[5] == 1
  }

  predicate LengthOk(x: seq<byte>)
    requires |x| >= MIN_FRAME
  {
    U32(x, 20) <= MAX_PAYLOAD && |x| == MIN_FRAME + U32(x, 20)
  }

  /** `rsm_link_frame_decode`, with its checks in order. */
  method DecodeC(x: seq<byte>) returns (status: Status, f: Frame)
    ensures status == OK <==> FrameOk(x)
    ensures status == OK ==> f == FieldsOf(x)
    ensures |x| < MIN_FRAME <==> status == INCOMPLETE
    ensures status == BAD_FRAME <==>
            |x| >= MIN_FRAME && (x[..4] != MAGIC || x[7] > 1 || (Versions(x) && !LengthOk(x)))
    ensures status == VERSION <==> |x| >= MIN_FRAME && x[..4] == MAGIC && x[7] <= 1 && !Versions(x)
    ensures status != LIMIT
  {
    hide U16, U32, Checksum;
    f := Frame(0, [], 0, 0, 0, 0);
    if |x| < MIN_FRAME {
      return INCOMPLETE, f;
    }
    if x[..4] != MAGIC || x[7] > 1 {
      return BAD_FRAME, f;
    }
    if x[4] != 1 || x[5] != 1 {
      return VERSION, f;
    }
    var len: int := U32(x, 20);
    if len > MAX_PAYLOAD || |x| != MIN_FRAME + len {
      return BAD_FRAME, f;
    }
    var crc := ComputeCrc(CRC32C_POLYNOMIAL, x[..HEADER_SIZE + len]);
    if U32(x, HEADER_SIZE + len) != crc {
      return BAD_CRC, f;
    }
    f := Frame(U16(x, 8), x[HEADER_SIZE..HEADER_SIZE + len], U32(x, 12), U32(x, 16), x[7], U16(x, 10));
    status := OK;
  }

  /** The members of the MessageType enumeration. */
  predicate KnownType(t: nat) {
    || 1 <= t <= 6 || 16 <= t <= 25 || 32 <= t <= 34 || 48 <= t <= 55 || 64 <= t <= 67 || 80 <= t <= 83
    || 96 <= t <= 102 || t == 126 || t == 127
  }

  /** The Python decoder also asks that a message of an unknown type be optional. */
  predicate AcceptedType(f: Frame) {
    KnownType(f.messageType) || f.headerFlags % 2 == 1
  }

  /** `Frame.decode` of the Python side; None where it raises. */
  method DecodePython(x: seq<byte>) returns (r: Option<Frame>)
    ensures r == Decoded(x)
  {
    if |x| < MIN_FRAME || x[..4] != MAGIC {
      return None;
    }
    if x[4] != 1 || x[5] != 1 || x[7] > 1 {
      return None;
    }
    var n := U32(x, 20);
    if n > MAX_PAYLOAD || |x| != MIN_FRAME + n {
      return None;
    }
    var crc := ComputeCrc(CRC32C_POLYNOMIAL, x[..|x| - 4]);
    if crc != U32(x, |x| - 4) {
      return None;
    }
    var f := FieldsOf(x);
    if !KnownType(f.messageType) && f.headerFlags % 2 == 0 {
      return None;
    }
    r := Some(f);
  }

  function Decoded(x: seq<byte>): Option<Frame> {
    if FrameOk(x) && AcceptedType(FieldsOf(x)) then Some(FieldsOf(x)) else None
  }

  // ----- the C encoder -----

  /** `rsm_link_frame_encode`: it fills the output buffer, or leaves it alone where the payload or
   *  the buffer is out of limits. */
  method EncodeC(f: Frame, out: array<byte>) returns (status: Status, written: nat)
    requires |f.payload| <= MAX_PAYLOAD ==> Encodable(f)
    modifies out
    ensures status == OK || status == LIMIT
    ensures status == OK <==> |f.payload| <= MAX_PAYLOAD && MIN_FRAME + |f.payload| <= out.Length
    ensures status == OK ==>
              written == MIN_FRAME + |f.payload| && out[..written] == Encode(f) && out[written..] == old(out[written..])
    ensures status == LIMIT ==> out[..] == old(out[..])
  {
    written := 0;
    if |f.payload| > MAX_PAYLOAD {
      return LIMIT, 0;
    }
    var total := MIN_FRAME + |f.payload|;
    if total > out.Length {
      return LIMIT, 0;
    }
    ghost var before := out[..];
    hide *;
    NothingWritten(before);
    var header := Header(f);
    Append(out, 0, header, before, []);
    assert [] + header == header;
    Append(out, HEADER_SIZE, f.payload, before, header);
    var end := HEADER_SIZE + |f.payload|;
    ghost var front := header + f.payload;
    WrittenSoFar(out[..], front, before);
    var crc := ComputeCrc(CRC32C_POLYNOMIAL, out[..end]);
    Append(out, end, Le32(crc), before, front);
    WrittenSoFar(out[..], front + Le32(crc), before);
    IsEncoding(f, crc);
    status, written := OK, total;
  }

  lemma {:induction false} IsEncoding(f: Frame, crc: uint32)
    requires Encodable(f) && crc == Checksum(CRC32C_POLYNOMIAL, Header(f) + f.payload)
    ensures Encode(f) == Header(f) + f.payload + Le32(crc)
  {
    hide Header, Checksum, Le32, Encodable;
  }

  /** The string has been written over the front of the buffer. */
  ghost predicate Filled(now: seq<byte>, done: seq<byte>, before: seq<byte>) {
    |done| <= |before| && now == done + before[|done|..]
  }

  lemma {:induction false} NothingWritten(before: seq<byte>)
    ensures Filled(before, [], before)
  {
  }

  lemma {:induction false} WrittenSoFar(now: seq<byte>, done: seq<byte>, before: seq<byte>)
    requires Filled(now, done, before)
    ensures |done| <= |now| == |before| && now[..|done|] == done && now[|done|..] == before[|done|..]
  {
  }

  /** `memcpy` behind what has been written already; before is what the buffer held. */
  method Append(out: array<byte>, at: nat, s: seq<byte>, ghost before: seq<byte>, ghost done: seq<byte>)
    requires at == |done| && at + |s| <= out.Length && Filled(out[..], done, before)
    modifies out
    ensures Filled(out[..], done + s, before)
  {
    WrittenSoFar(out[..], done, before);
    CopyInto(out, at, s);
    assert old(out[at + |s|..]) == before[at + |s|..];
  }

  /** `memcpy`. */
  method CopyInto(out: array<byte>, at: nat, s: seq<byte>)
    requires at + |s| <= out.Length
    modifies out
    ensures out[..] == old(out[..at]) + s + old(out[at + |s|..])
  {
    var k := 0;
    while k < |s|
      invariant 0 <= k <= |s|
      invariant forall j | 0 <= j < out.Length :: out[j] == if at <= j < at + k then s[j - at] else old(out[j])
    {
      out[at + k] := s[k];
      k := k + 1;
    }
  }

  // ----- round trips -----

  lemma {:induction false} HeaderFields(f: Frame, rest: seq<byte>)
    requires Encodable(f)
    ensures var x := Header(f) + rest;
            && x[..4] == MAGIC && x[4] == 1 && x[5] == 1 && x[6] == 0 && x[7] == f.headerFlags
            && U16(x, 8) == f.messageType && U16(x, 10) == f.messageFlags
            && U32(x, 12) == f.requestId && U32(x, 16) == f.sequence && U32(x, 20) == |f.payload|
  {
    var flags: seq<byte> := [1, 1, 0, f.headerFlags];
    var a, b, c, d, e := Le16(f.messageType), Le16(f.messageFlags), Le32(f.requestId), Le32(f.sequence),
        Le32(|f.payload|);
    var x := Header(f) + rest;
    var front := MAGIC + flags;
    assert x == front + a + (b + c + d + e + rest);
    FieldOf(front, a, b + c + d + e + rest);
    assert x == (front + a) + b + (c + d + e + rest);
    FieldOf(front + a, b, c + d + e + rest);
    assert x == (front + a + b) + c + (d + e + rest);
    FieldOf(front + a + b, c, d + e + rest);
    assert x == (front + a + b + c) + d + (e + rest);
    FieldOf(front + a + b + c, d, e + rest);
    assert x == (front + a + b + c + d) + e + rest;
    FieldOf(front + a + b + c + d, e, rest);
    assert x[..4] == MAGIC && x[4] == flags[0] && x[5] == flags[1] && x[6] == flags[2] && x[7] == flags[3];
  }

  /** Decoding inverts encoding: an encoded frame is well formed exactly when it uses no reserved
   *  header flag, and its fields are the frame. */
  lemma {:induction false} DecodeInvertsEncode(f: Frame)
    requires Encodable(f)
    ensures FieldsOf(Encode(f)) == f
    ensures FrameOk(Encode(f)) <==> f.headerFlags <= 1
  {
    hide Checksum, Header, Le32;
    var body := Header(f) + f.payload;
    var stored := Le32(Checksum(CRC32C_POLYNOMIAL, body));
    var x := Encode(f);
    assert x == Header(f) + (f.payload + stored);
    HeaderFields(f, f.payload + stored);
    assert x[HEADER_SIZE..|x| - 4] == f.payload;
    assert x[..|x| - 4] == body;
    assert x == body + stored + [];
    FieldOf(body, stored, []);
  }

  /** Encoding inverts decoding: a well-formed frame of minor version 0 is the encoding of its
   *  fields, so no two byte strings decode to the same frame. */
  lemma {:induction false} EncodeInvertsDecode(x: seq<byte>)
    requires FrameOk(x) && x[6] == 0
    ensures Encodable(FieldsOf(x)) && Encode(FieldsOf(x)) == x
  {
    hide Checksum;
    var f := FieldsOf(x);
    SmallFields(x);
    var rest := x[HEADER_SIZE..];
    HeaderIs(x, f);
    assert x == x[..HEADER_SIZE] + x[HEADER_SIZE..|x| - 4] + x[|x| - 4..];
    assert x[..|x| - 4] == Header(f) + f.payload;
    WordBytes(x, |x| - 4);
  }

  lemma {:induction false} SmallFields(x: seq<byte>)
    requires FrameOk(x)
    ensures Encodable(FieldsOf(x))
  {
  }

  /** A word in a string is its four bytes. */
  lemma {:induction false} WordBytes(x: seq<byte>, at: nat)
    requires at + 4 <= |x|
    ensures x[at..at + 4] == Le32(U32(x, at))
  {
    FieldAt(x, at, 0);
    assert U32(x[at..at + 4], 0) == U32(x, at);
    U32Injective(x[at..at + 4], Le32(U32(x, at)));
  }

  lemma {:induction false} HalfBytes(x: seq<byte>, at: nat)
    requires at + 2 <= |x|
    ensures x[at..at + 2] == Le16(U16(x, at))
  {
  }

  lemma {:induction false} HeaderIs(x: seq<byte>, f: Frame)
    requires FrameOk(x) && x[6] == 0 && f == FieldsOf(x) && Encodable(f)
    ensures x[..HEADER_SIZE] == Header(f)
  {
    HalfBytes(x, 8);
    HalfBytes(x, 10);
    WordBytes(x, 12);
    WordBytes(x, 16);
    WordBytes(x, 20);
    hide Le16, Le32, U16, U32, CrcMatches;
    assert x[..HEADER_SIZE] == x[..4] + x[4..8] + x[8..10] + x[10..12] + x[12..16] + x[16..20] + x[20..24];
    assert x[4..8] == [1, 1, 0, f.headerFlags];
    assert U32(x, 20) == |f.payload|;
  }

  /** Round trip on the Python side: exactly the frames without reserved flags, whose type is known
   *  or optional, come back. */
  lemma {:induction false} PythonRoundTrip(f: Frame)
    requires Encodable(f)
    ensures Decoded(Encode(f)) == Some(f) <==> f.headerFlags <= 1 && AcceptedType(f)
  {
    DecodeInvertsEncode(f);
  }

  // ----- damage -----

  /** Damage to at most four consecutive bytes anywhere in a well-formed frame, the stored checksum
   *  included, is always detected. */
  lemma {:induction false} BurstIsDetected(before: seq<byte>, window: seq<byte>, damaged: seq<byte>, after: seq<byte>)
    requires |window| == |damaged| <= 4 && window != damaged
    requires FrameOk(before + window + after)
    ensures !FrameOk(before + damaged + after)
  {
    var x, y := before + window + after, before + damaged + after;
    RestIsResidue(x);
    if |y| >= 4 {
      RestIsResidue(y);
    }
    BurstChangesResidue(CRC32C_POLYNOMIAL, before, window, damaged, after);
  }

  lemma {:induction false} RestIsResidue(x: seq<byte>)
    requires |x| >= 4
    ensures CrcMatches(x) <==> Feed(0xffff_ffff, CRC32C_POLYNOMIAL, x) == Residue(CRC32C_POLYNOMIAL)
  {
    var n := |x| - 4;
    assert x == x[..n] + x[n..];
    FieldAt(x, n, 0);
    ResidueDecides(CRC32C_POLYNOMIAL, x[..n], x[n..]);
  }
}
