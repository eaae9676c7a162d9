/** Bytes, fixed-width integers and little-endian fields, as the image and the frames use them. */
module Bytes {

  type byte = x: int | 0 <= x < 0x100
  type uint16 = x: int | 0 <= x < 0x1_0000
  type uint32 = x: int | 0 <= x < 0x1_0000_0000
  type uint64 = x: int | 0 <= x < 0x1_0000_0000_0000_0000
  type int32 = x: int | -0x8000_0000 <= x < 0x8000_0000

  const INT32_MAX := 0x7fff_ffff
  const INT32_MIN := -0x8000_0000
  const UINT32_MAX := 0xffff_ffff

  datatype Option<+T> = None | Some(value: T)

  /** `u16` of the C sources, at an offset. */
  function U16(s: seq<byte>, at: nat): (v: uint16)
    requires at + 2 <= |s|
  {
    (s[at] as int) + 0x100 * (s[at + 1] as int)
  }

  /** `u32` of the C sources, at an offset. */
  function U32(s: seq<byte>, at: nat): (v: uint32)
    requires at + 4 <= |s|
  {
    (s[at] as int) + 0x100 * ((s[at + 1] as int) + 0x100 * ((s[at + 2] as int) + 0x100 * (s[at + 3] as int)))
  }

  /** The bits of an unsigned word read as two's complement. */
  function Signed(v: uint32): int32 {
    if v < 0x8000_0000 then v else v - 0x1_0000_0000
  }

  /** The bits of a signed word read as unsigned: the cast `(uint32_t)x`. */
  function Unsigned(v: int32): uint32 {
    if v < 0 then v + 0x1_0000_0000 else v
  }

  /** Two's complement wrap-around to 32 bits. */
  function Wrap32(v: int): int32 {
    var m := v % 0x1_0000_0000;
    if m < 0x8000_0000 then m else m - 0x1_0000_0000
  }

  function Le16(v: uint16): (s: seq<byte>)
    ensures |s| == 2 && U16(s, 0) == v
  {
    [v % 0x100, v / 0x100]
  }

  function Le32(v: uint32): (s: seq<byte>)
    ensures |s| == 4 && U32(s, 0) == v
  {
    [v % 0x100, v / 0x100 % 0x100, v / 0x100 / 0x100 % 0x100, v / 0x100 / 0x100 / 0x100]
  }

  /** A 64-bit field: two words, the low one first. */
  function Le64(v: uint64): (s: seq<byte>)
    ensures |s| == 8 && U64(s, 0) == v
  {
    var low, high := v % 0x1_0000_0000, v / 0x1_0000_0000;
    var s := Le32(low) + Le32(high);
    FieldOf(Le32(low), Le32(high), []);
    assert s == Le32(low) + Le32(high) + [];
    assert s[..4] == Le32(low) && s[4..] == Le32(high);
    assert U32(s, 0) == U32(s[..4], 0) && U32(s, 4) == U32(s[4..], 0);
    s
  }

  function U64(s: seq<byte>, at: nat): (v: uint64)
    requires at + 8 <= |s|
  {
    U32(s, at) + 0x1_0000_0000 * U32(s, at + 4)
  }

  /** A word is determined by its bytes and determines them. */
  lemma {:induction false} U32Injective(s: seq<byte>, t: seq<byte>)
    requires |s| == |t| == 4
    requires U32(s, 0) == U32(t, 0)
    ensures s == t
  {
    Digit(U32(s, 0), U24(s), s[0]);
    Digit(U32(t, 0), U24(t), t[0]);
    Digit(U24(s), U16(s, 2), s[1]);
    Digit(U24(t), U16(t, 2), t[1]);
    Digit(U16(s, 2), s[3], s[2]);
    Digit(U16(t, 2), t[3], t[2]);
  }

  function U24(s: seq<byte>): int
    requires |s| == 4
  {
    (s[1] as int) + 0x100 * U16(s, 2)
  }

  lemma {:induction false} Digit(v: int, rest: int, digit: byte)
    requires v == (digit as int) + 0x100 * rest
    ensures digit == v % 0x100 && rest == v / 0x100
  {
  }

  /** A field of a concatenation is the field of the piece that holds it. */
  lemma {:induction false} FieldOf(before: seq<byte>, field: seq<byte>, after: seq<byte>)
    ensures |field| == 2 ==> U16(before + field + after, |before|) == U16(field, 0)
    ensures |field| == 4 ==> U32(before + field + after, |before|) == U32(field, 0)
  {
    var s := before + field + after;
    assert forall k | 0 <= k < |field| :: s[|before| + k] == field[k];
  }

  /** Reading at an offset is reading the suffix. */
  lemma {:induction false} FieldAt(s: seq<byte>, base: nat, at: nat)
    requires base <= |s|
    ensures base + at + 2 <= |s| ==> U16(s, base + at) == U16(s[base..], at)
    ensures base + at + 4 <= |s| ==> U32(s, base + at) == U32(s[base..], at)
  {
    if base + at + 2 <= |s| {
      assert s[base..][at] == s[base + at] && s[base..][at + 1] == s[base + at + 1];
    }
    if base + at + 4 <= |s| {
      assert s[base..][at + 2] == s[base + at + 2] && s[base..][at + 3] == s[base + at + 3];
    }
  }

  // ----- fields byte by byte -----

  /** Two bytes, the low one first. */
  predicate Half(x: seq<byte>, at: nat, v: int)
    requires at + 2 <= |x|
  {
    v == (x[at] as int) + 256 * (x[at + 1] as int)
  }

  /** Four bytes, the low one first. */
  predicate Word(x: seq<byte>, at: nat, v: int)
    requires at + 4 <= |x|
  {
    v == (x[at] as int) + 256 * (x[at + 1] as int) + 65_536 * (x[at + 2] as int) + 16_777_216 * (x[at + 3] as int)
  }

  lemma {:induction false} WordIs(x: seq<byte>, at: nat, v: int)
    requires at + 4 <= |x|
    ensures Word(x, at, v) <==> U32(x, at) == v
  {
  }

  lemma {:induction false} HalfIs(x: seq<byte>, at: nat, v: int)
    requires at + 2 <= |x|
    ensures Half(x, at, v) <==> U16(x, at) == v
  {
  }
}
