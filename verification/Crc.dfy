/** The reflected 32-bit CRC of the frames and the images, and the errors it cannot miss.
 *
 *  The frames use CRC-32C (the digest of section 12.1 of RFC 3720), the images the CRC-32 of
 *  section 8 of RFC 1952; the two loops differ only in the generator polynomial. Registers are
 *  natural numbers: a right shift is a division, the low bit a remainder. */
module Crc {
  import opened Bytes

  const CRC32C_POLYNOMIAL: uint32 := 0x82f6_3b78
  const CRC32_POLYNOMIAL: uint32 := 0xedb8_8320

  /** A reflected generator of degree 32: its constant term sits in the top bit. */
  predicate Generator(poly: uint32) {
    poly >= 0x8000_0000
  }

  // ----- exclusive or on numbers -----

  function Xor(a: nat, b: nat): nat
    decreases a + b
  {
    if a == 0 && b == 0 then 0 else (if a % 2 == b % 2 then 0 else 1) + 2 * Xor(a / 2, b / 2)
  }

  function Pow2(n: nat): nat {
    if n == 0 then 1 else 2 * Pow2(n - 1)
  }

  function Shl(a: nat, n: nat): nat {
    if n == 0 then a else 2 * Shl(a, n - 1)
  }

  lemma {:induction false} XorZero(a: nat)
    ensures Xor(a, 0) == a
  {
    if a > 0 {
      XorZero(a / 2);
    }
  }

  lemma {:induction false} XorSame(a: nat)
    ensures Xor(a, a) == 0
  {
    if a > 0 {
      XorSame(a / 2);
    }
  }

  lemma {:induction false} XorCommutes(a: nat, b: nat)
    ensures Xor(a, b) == Xor(b, a)
    decreases a + b
  {
    if a > 0 || b > 0 {
      XorCommutes(a / 2, b / 2);
    }
  }

  lemma {:induction false} XorAssociates(a: nat, b: nat, c: nat)
    ensures Xor(Xor(a, b), c) == Xor(a, Xor(b, c))
    decreases a + b + c
  {
    if a > 0 || b > 0 || c > 0 {
      XorAssociates(a / 2, b / 2, c / 2);
      Halves(a, b);
      Halves(b, c);
      Halves(Xor(a, b), c);
      Halves(a, Xor(b, c));
    }
  }

  lemma {:induction false} Halves(a: nat, b: nat)
    ensures Xor(a, b) / 2 == Xor(a / 2, b / 2) && Xor(a, b) % 2 == (if a % 2 == b % 2 then 0 else 1)
  {
  }

  lemma {:induction false} XorCancels(a: nat, b: nat, x: nat)
    requires Xor(x, a) == Xor(x, b)
    ensures a == b
  {
    XorAssociates(x, x, a);
    XorAssociates(x, x, b);
    XorSame(x);
    XorCommutes(0, a);
    XorCommutes(0, b);
    XorZero(a);
    XorZero(b);
  }

  lemma {:induction false} XorBound(a: nat, b: nat, n: nat)
    requires a < Pow2(n) && b < Pow2(n)
    ensures Xor(a, b) < Pow2(n)
  {
    if n == 0 {
      XorSame(0);
    } else {
      XorBound(a / 2, b / 2, n - 1);
      Halves(a, b);
    }
  }

  /** The top bit of an exclusive or with a number that has it is set. */
  lemma {:induction false} XorTop(a: nat, b: nat, n: nat)
    requires a < Pow2(n) <= b < Pow2(n + 1)
    ensures Pow2(n) <= Xor(a, b) < Pow2(n + 1)
  {
    if n == 0 {
      assert a == 0 && b == 1;
      XorCommutes(0, 1);
      XorZero(1);
    } else {
      XorTop(a / 2, b / 2, n - 1);
      Halves(a, b);
    }
  }

  /** Numbers without a common bit: exclusive or is addition. */
  lemma {:induction false} XorDisjoint(a: nat, b: nat, n: nat)
    requires a < Pow2(n)
    ensures Xor(a, Shl(b, n)) == a + Shl(b, n)
  {
    if n == 0 {
      XorCommutes(0, b);
      XorZero(b);
    } else {
      XorDisjoint(a / 2, b, n - 1);
      Halves(a, Shl(b, n));
    }
  }

  lemma {:induction false} EightBits(a: nat)
    ensures Shl(a, 8) == 0x100 * a && Pow2(8) == 0x100
  {
    assert Shl(a, 1) == 2 * a && Pow2(1) == 2;
    assert Shl(a, 2) == 4 * a && Pow2(2) == 4;
    assert Shl(a, 4) == 0x10 * a && Pow2(4) == 0x10;
    assert Shl(a, 6) == 0x40 * a && Pow2(6) == 0x40;
  }

  lemma {:induction false} WordSize()
    ensures Pow2(31) == 0x8000_0000 && Pow2(32) == 0x1_0000_0000
  {
    EightBits(0);
    assert Pow2(12) == 0x1000;
    assert Pow2(16) == 0x1_0000;
    assert Pow2(20) == 0x10_0000;
    assert Pow2(24) == 0x100_0000;
    assert Pow2(28) == 0x1000_0000;
  }

  /** `~c` of an unsigned word. */
  function Not32(c: uint32): uint32 {
    0xffff_ffff - c
  }

  lemma {:induction false} XorOnes(c: nat, n: nat)
    requires c < Pow2(n)
    ensures Xor(c, Pow2(n) - 1) == Pow2(n) - 1 - c
  {
    if n == 0 {
      XorSame(0);
    } else {
      XorOnes(c / 2, n - 1);
      Halves(c, Pow2(n) - 1);
    }
  }

  lemma {:induction false} Complement(c: uint32, w: uint32)
    ensures w == Not32(c) <==> Xor(c, w) == 0xffff_ffff
  {
    WordSize();
    XorOnes(c, 32);
    if Xor(c, w) == 0xffff_ffff {
      XorCancels(w, Not32(c), c) by {
        XorAssociates(c, c, 0xffff_ffff);
        XorSame(c);
        XorCommutes(0, 0xffff_ffff);
        XorZero(0xffff_ffff);
      }
    } else if w == Not32(c) {
      XorAssociates(c, c, 0xffff_ffff);
      XorSame(c);
      XorCommutes(0, 0xffff_ffff);
      XorZero(0xffff_ffff);
    }
  }

  // ----- the register -----

  /** One turn of the inner loop: shift, and subtract the generator if a one fell out. */
  function Step(c: nat, poly: uint32): nat {
    Xor(c / 2, if c % 2 == 1 then poly else 0)
  }

  /** The n turns of the inner loop. */
  function Steps(c: nat, poly: uint32, n: nat): nat {
    if n == 0 then c else Step(Steps(c, poly, n - 1), poly)
  }

  /** The register after a byte string. */
  function Feed(c: nat, poly: uint32, s: seq<byte>): nat
    decreases |s|
  {
    if s == [] then c else Feed(Steps(Xor(c, s[0]), poly, 8), poly, s[1..])
  }

  function Checksum(poly: uint32, s: seq<byte>): uint32 {
    FeedBound(0xffff_ffff, poly, s);
    Not32(Feed(0xffff_ffff, poly, s))
  }

  lemma {:induction false} StepBound(c: nat, poly: uint32)
    requires c <= UINT32_MAX
    ensures Step(c, poly) <= UINT32_MAX
  {
    WordSize();
    XorBound(c / 2, if c % 2 == 1 then poly else 0, 32);
  }

  lemma {:induction false} StepsBound(c: nat, poly: uint32, n: nat)
    requires c <= UINT32_MAX
    ensures Steps(c, poly, n) <= UINT32_MAX
  {
    if n > 0 {
      StepsBound(c, poly, n - 1);
      StepBound(Steps(c, poly, n - 1), poly);
    }
  }

  lemma {:induction false} FeedBound(c: nat, poly: uint32, s: seq<byte>)
    requires c <= UINT32_MAX
    ensures Feed(c, poly, s) <= UINT32_MAX
    decreases |s|
  {
    if s != [] {
      WordSize();
      XorBound(c, s[0], 32);
      StepsBound(Xor(c, s[0]), poly, 8);
      FeedBound(Steps(Xor(c, s[0]), poly, 8), poly, s[1..]);
    }
  }

  /** The nested loop of `rsm_link_crc32c`, of `crc32c` and of the image check. */
  method ComputeCrc(poly: uint32, data: seq<byte>) returns (crc: uint32)
    ensures crc == Checksum(poly, data)
  {
    var c: nat := 0xffff_ffff;
    var i := 0;
    while i < |data|
      invariant 0 <= i <= |data|
      invariant Feed(c, poly, data[i..]) == Feed(0xffff_ffff, poly, data)
    {
      ghost var before := c;
      c := Xor(c, data[i]);
      var b := 0;
      while b < 8
        invariant 0 <= b <= 8
        invariant c == Steps(Xor(before, data[i]), poly, b)
      {
        c := Xor(c / 2, if c % 2 == 1 then poly else 0);
        b := b + 1;
      }
      assert data[i..][0] == data[i] && data[i..][1..] == data[i + 1..];
      i := i + 1;
    }
    assert data[i..] == [];
    FeedBound(0xffff_ffff, poly, data);
    crc := Not32(c);
  }

  // ----- the step is a bijection -----

  lemma {:induction false} StepInjective(c: uint32, d: uint32, poly: uint32)
    requires Generator(poly) && Step(c, poly) == Step(d, poly)
    ensures c == d
  {
    WordSize();
    XorTop(c / 2, poly, 31);
    XorTop(d / 2, poly, 31);
    XorZero(c / 2);
    XorZero(d / 2);
    if c % 2 == 1 && d % 2 == 1 {
      XorCommutes(c / 2, poly);
      XorCommutes(d / 2, poly);
      XorCancels(c / 2, d / 2, poly);
    }
  }

  lemma {:induction false} StepsInjective(c: uint32, d: uint32, poly: uint32, n: nat)
    requires Generator(poly) && Steps(c, poly, n) == Steps(d, poly, n)
    ensures c == d
  {
    if n > 0 {
      StepsBound(c, poly, n - 1);
      StepsBound(d, poly, n - 1);
      StepInjective(Steps(c, poly, n - 1), Steps(d, poly, n - 1), poly);
      StepsInjective(c, d, poly, n - 1);
    }
  }

  /** A common suffix never brings two different registers together. */
  lemma {:induction false} FeedInjective(c: uint32, d: uint32, poly: uint32, s: seq<byte>)
    requires Generator(poly) && Feed(c, poly, s) == Feed(d, poly, s)
    ensures c == d
    decreases |s|
  {
    if s != [] {
      var x, y := Xor(c, s[0]), Xor(d, s[0]);
      WordSize();
      XorBound(c, s[0], 32);
      XorBound(d, s[0], 32);
      StepsBound(x, poly, 8);
      StepsBound(y, poly, 8);
      FeedInjective(Steps(x, poly, 8), Steps(y, poly, 8), poly, s[1..]);
      StepsInjective(x, y, poly, 8);
      XorCommutes(c, s[0]);
      XorCommutes(d, s[0]);
      XorCancels(c, d, s[0]);
    }
  }

  lemma {:induction false} FeedAppend(c: nat, poly: uint32, s: seq<byte>, t: seq<byte>)
    ensures Feed(c, poly, s + t) == Feed(Feed(c, poly, s), poly, t)
    decreases |s|
  {
    if s == [] {
      assert s + t == t;
    } else {
      assert (s + t)[1..] == s[1..] + t;
      FeedAppend(Steps(Xor(c, s[0]), poly, 8), poly, s[1..], t);
    }
  }

  // ----- a byte string acts as one number -----

  /** The little-endian number a byte string spells. */
  function Number(s: seq<byte>): nat {
    if s == [] then 0 else (s[0] as int) + 0x100 * Number(s[1..])
  }

  lemma {:induction false} NumberInjective(s: seq<byte>, t: seq<byte>)
    requires |s| == |t| && Number(s) == Number(t)
    ensures s == t
  {
    if s != [] {
      Digit(Number(s), Number(s[1..]), s[0]);
      Digit(Number(t), Number(t[1..]), t[0]);
      NumberInjective(s[1..], t[1..]);
      assert s == [s[0]] + s[1..] && t == [t[0]] + t[1..];
    }
  }

  lemma {:induction false} NumberOfWord(s: seq<byte>)
    requires |s| <= 4
    ensures Number(s) <= UINT32_MAX
    ensures |s| == 0 ==> Number(s) == 0
    ensures |s| == 1 ==> Number(s) < 0x100
    ensures |s| == 2 ==> Number(s) < 0x1_0000
    ensures |s| == 3 ==> Number(s) < 0x100_0000
    ensures |s| == 4 ==> Number(s) == U32(s, 0)
  {
    if |s| > 0 {
      if |s| > 1 {
        assert s[1..][0] == s[1] && s[1..][1..] == s[2..];
      }
      if |s| > 2 {
        assert s[2..][0] == s[2] && s[2..][1..] == s[3..];
      }
      if |s| > 3 {
        assert s[3..][0] == s[3] && s[3..][1..] == [];
      }
      NumberOfWord(s[1..]);
      assert |s| > 3 ==> Number(s[3..]) == s[3] && Number(s[2..]) == U16(s, 2);
    }
  }

  /** Bits that have not reached the low end are carried along unchanged. */
  lemma {:induction false} StepsCarry(x: nat, z: nat, poly: uint32, n: nat)
    ensures Steps(Xor(x, Shl(z, n)), poly, n) == Xor(Steps(x, poly, n), z)
    decreases n
  {
    if n > 0 {
      DoubleInside(z, n - 1);
      StepsCarry(x, 2 * z, poly, n - 1);
      StepCarry(Steps(x, poly, n - 1), z, poly);
    }
  }

  lemma {:induction false} StepCarry(y: nat, z: nat, poly: uint32)
    ensures Step(Xor(y, 2 * z), poly) == Xor(Step(y, poly), z)
  {
    var g: nat := if y % 2 == 1 then poly else 0;
    Halves(y, 2 * z);
    XorAssociates(y / 2, z, g);
    XorCommutes(z, g);
    XorAssociates(y / 2, g, z);
  }

  lemma {:induction false} DoubleInside(z: nat, n: nat)
    ensures Shl(2 * z, n) == Shl(z, n + 1)
  {
    if n > 0 {
      DoubleInside(z, n - 1);
    }
  }

  lemma {:induction false} StepsAdd(c: nat, poly: uint32, m: nat, n: nat)
    ensures Steps(Steps(c, poly, m), poly, n) == Steps(c, poly, m + n)
  {
    if n > 0 {
      StepsAdd(c, poly, m, n - 1);
    }
  }

  lemma {:induction false} FeedByte(c: nat, poly: uint32, b: byte, rest: nat, n: nat)
    ensures Steps(Xor(c, (b as int) + 0x100 * rest), poly, 8 + n)
            == Steps(Xor(Steps(Xor(c, b), poly, 8), rest), poly, n)
  {
    EightBits(rest);
    XorDisjoint(b, rest, 8);
    XorAssociates(c, b, Shl(rest, 8));
    StepsCarry(Xor(c, b), rest, poly, 8);
    StepsAdd(Xor(c, (b as int) + 0x100 * rest), poly, 8, n);
  }

  /** The register depends on the bytes only through one exclusive or with the number they spell. */
  lemma {:induction false} FeedIsNumber(c: nat, poly: uint32, s: seq<byte>)
    ensures Feed(c, poly, s) == Steps(Xor(c, Number(s)), poly, 8 * |s|)
    decreases |s|
  {
    if s == [] {
      XorZero(c);
    } else {
      FeedByte(c, poly, s[0], Number(s[1..]), 8 * |s[1..]|);
      FeedIsNumber(Steps(Xor(c, s[0]), poly, 8), poly, s[1..]);
    }
  }

  /** Two different strings of the same length, at most four bytes, leave different registers. */
  lemma {:induction false} WindowChangesRegister(c: uint32, poly: uint32, s: seq<byte>, t: seq<byte>)
    requires Generator(poly) && |s| == |t| <= 4 && s != t
    ensures Feed(c, poly, s) != Feed(c, poly, t)
  {
    FeedIsNumber(c, poly, s);
    FeedIsNumber(c, poly, t);
    NumberOfWord(s);
    NumberOfWord(t);
    WordSize();
    XorBound(c, Number(s), 32);
    XorBound(c, Number(t), 32);
    if Feed(c, poly, s) == Feed(c, poly, t) {
      StepsInjective(Xor(c, Number(s)), Xor(c, Number(t)), poly, 8 * |s|);
      XorCancels(Number(s), Number(t), c);
      NumberInjective(s, t);
    }
  }

  /** A burst inside a window of four bytes changes the checksum of a message of any length. */
  lemma {:induction false} BurstChangesChecksum(
      poly: uint32, before: seq<byte>, window: seq<byte>, damaged: seq<byte>, after: seq<byte>)
    requires Generator(poly) && |window| == |damaged| <= 4 && window != damaged
    ensures Checksum(poly, before + window + after) != Checksum(poly, before + damaged + after)
  {
    FeedBound(0xffff_ffff, poly, before);
    var c := Feed(0xffff_ffff, poly, before);
    FeedAppend(0xffff_ffff, poly, before + window, after);
    FeedAppend(0xffff_ffff, poly, before, window);
    FeedAppend(0xffff_ffff, poly, before + damaged, after);
    FeedAppend(0xffff_ffff, poly, before, damaged);
    WindowChangesRegister(c, poly, window, damaged);
    FeedBound(c, poly, window);
    FeedBound(c, poly, damaged);
    if Feed(0xffff_ffff, poly, before + window + after) == Feed(0xffff_ffff, poly, before + damaged + after) {
      FeedInjective(Feed(c, poly, window), Feed(c, poly, damaged), poly, after);
    }
    FeedBound(0xffff_ffff, poly, before + window + after);
    FeedBound(0xffff_ffff, poly, before + damaged + after);
  }

  // ----- a message followed by its own checksum -----

  /** The register every message followed by its stored checksum ends with. */
  function Residue(poly: uint32): nat {
    Steps(0xffff_ffff, poly, 32)
  }

  lemma {:induction false} ResidueDecides(poly: uint32, message: seq<byte>, stored: seq<byte>)
    requires Generator(poly) && |stored| == 4
    ensures U32(stored, 0) == Checksum(poly, message) <==> Feed(0xffff_ffff, poly, message + stored) == Residue(poly)
  {
    FeedBound(0xffff_ffff, poly, message);
    var c := Feed(0xffff_ffff, poly, message);
    FeedAppend(0xffff_ffff, poly, message, stored);
    FeedIsNumber(c, poly, stored);
    NumberOfWord(stored);
    Complement(c, U32(stored, 0));
    WordSize();
    XorBound(c, U32(stored, 0), 32);
    if Feed(0xffff_ffff, poly, message + stored) == Residue(poly) {
      StepsInjective(Xor(c, U32(stored, 0)), 0xffff_ffff, poly, 32);
    }
  }

  /** A burst inside four bytes of a message and its stored checksum, also one that straddles
   *  the two, leaves a pair that no longer matches. */
  lemma {:induction false} BurstChangesResidue(
      poly: uint32, before: seq<byte>, window: seq<byte>, damaged: seq<byte>, after: seq<byte>)
    requires Generator(poly) && |window| == |damaged| <= 4 && window != damaged
    requires Feed(0xffff_ffff, poly, before + window + after) == Residue(poly)
    ensures Feed(0xffff_ffff, poly, before + damaged + after) != Residue(poly)
  {
    BurstChangesChecksum(poly, before, window, damaged, after);
    FeedBound(0xffff_ffff, poly, before + window + after);
    FeedBound(0xffff_ffff, poly, before + damaged + after);
  }
}
