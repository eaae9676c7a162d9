/** The check values of the two checksums: what the loops make of the nine digits 1 to 9. They fix the
 *  generators, the start value and the complement. The registers are followed as machine words. */
module CheckValues {
  import opened Bytes
  import opened Crc

  // ----- words as numbers -----

  predicate Odd(v: bv32) {
    v & 1 == 1
  }

  function Bit(v: bv32): nat {
    if Odd(v) then 1 else 0
  }

  function Half(v: bv32): bv32 {
    v >> 1
  }

  /** The number that the low n bits of a word spell. */
  function Low(v: bv32, n: nat): nat {
    if n == 0 then 0 else Bit(v) + 2 * Low(Half(v), n - 1)
  }

  function Value(v: bv32): nat {
    Low(v, 32)
  }

  lemma {:induction false} XorBits(a: bv32, b: bv32)
    ensures Half(a ^ b) == Half(a) ^ Half(b)
    ensures Odd(a ^ b) <==> Odd(a) != Odd(b)
  {
  }

  lemma {:induction false} XorLast(a: bv32, b: bv32)
    ensures Bit(a ^ b) == if Bit(a) == Bit(b) then 0 else 1
  {
    hide Odd, Half;
    XorBits(a, b);
  }

  lemma {:induction false} Parts(v: bv32, n: nat)
    requires n > 0
    ensures Low(v, n) / 2 == Low(Half(v), n - 1) && Low(v, n) % 2 == Bit(v)
  {
    hide Half;
  }

  lemma {:induction false} Joined(a: nat, b: nat, c: nat)
    requires c / 2 == Xor(a / 2, b / 2) && c % 2 == if a % 2 == b % 2 then 0 else 1
    ensures c == Xor(a, b)
  {
    Halves(a, b);
  }

  lemma {:induction false} NoBits(a: bv32, b: bv32)
    ensures Low(a ^ b, 0) == Xor(Low(a, 0), Low(b, 0))
  {
  }

  lemma {:induction false} XorLow(a: bv32, b: bv32, n: nat)
    ensures Low(a ^ b, n) == Xor(Low(a, n), Low(b, n))
    decreases n
  {
    hide *;
    if n == 0 {
      NoBits(a, b);
    } else {
      XorBits(a, b);
      XorLast(a, b);
      XorLow(Half(a), Half(b), n - 1);
      Parts(a, n);
      Parts(b, n);
      Parts(a ^ b, n);
      Joined(Low(a, n), Low(b, n), Low(a ^ b, n));
    }
  }

  // ----- a half has one bit less -----

  /** Nothing is left of the word after n halvings. */
  predicate Vanishes(v: bv32, n: nat) {
    if n == 0 then v == 0 else Vanishes(Half(v), n - 1)
  }

  lemma {:induction false} LowEnds(v: bv32, n: nat)
    requires Vanishes(v, n)
    ensures Low(v, n + 1) == Low(v, n)
  {
    if n > 0 {
      LowEnds(Half(v), n - 1);
    }
  }

  lemma {:induction false} HalfOrder(v: bv32, m: bv32)
    requires v <= m
    ensures Half(v) <= Half(m)
  {
  }

  lemma {:induction false} SmallerVanishes(v: bv32, m: bv32, n: nat)
    requires v <= m && Vanishes(m, n)
    ensures Vanishes(v, n)
    decreases n
  {
    hide Half;
    if n > 0 {
      HalfOrder(v, m);
      SmallerVanishes(Half(v), Half(m), n - 1);
    }
  }

  lemma {:induction false} LargestVanishes()
    ensures Vanishes(0x7fff_ffff, 31)
  {
    assert Vanishes(0x0000_0001, 1);
    assert Vanishes(0x0000_0003, 2);
    assert Vanishes(0x0000_0007, 3);
    assert Vanishes(0x0000_000f, 4);
    assert Vanishes(0x0000_001f, 5);
    assert Vanishes(0x0000_003f, 6);
    assert Vanishes(0x0000_007f, 7);
    assert Vanishes(0x0000_00ff, 8);
    assert Vanishes(0x0000_01ff, 9);
    assert Vanishes(0x0000_03ff, 10);
    assert Vanishes(0x0000_07ff, 11);
    assert Vanishes(0x0000_0fff, 12);
    assert Vanishes(0x0000_1fff, 13);
    assert Vanishes(0x0000_3fff, 14);
    assert Vanishes(0x0000_7fff, 15);
    assert Vanishes(0x0000_ffff, 16);
    assert Vanishes(0x0001_ffff, 17);
    assert Vanishes(0x0003_ffff, 18);
    assert Vanishes(0x0007_ffff, 19);
    assert Vanishes(0x000f_ffff, 20);
    assert Vanishes(0x001f_ffff, 21);
    assert Vanishes(0x003f_ffff, 22);
    assert Vanishes(0x007f_ffff, 23);
    assert Vanishes(0x00ff_ffff, 24);
    assert Vanishes(0x01ff_ffff, 25);
    assert Vanishes(0x03ff_ffff, 26);
    assert Vanishes(0x07ff_ffff, 27);
    assert Vanishes(0x0fff_ffff, 28);
    assert Vanishes(0x1fff_ffff, 29);
    assert Vanishes(0x3fff_ffff, 30);
  }

  lemma {:induction false} HalfIsSmall(v: bv32)
    ensures Half(v) <= 0x7fff_ffff
  {
  }

  /** Halving the word halves the number. */
  lemma {:induction false} HalfValue(v: bv32)
    ensures Value(Half(v)) == Value(v) / 2 && Value(v) % 2 == Bit(v)
  {
    hide Half, Low;
    HalfIsSmall(v);
    LargestVanishes();
    SmallerVanishes(Half(v), 0x7fff_ffff, 31);
    LowEnds(Half(v), 31);
    Parts(v, 32);
  }

  // ----- the register as a word -----

  /** One turn of the inner loop. */
  function Turn(c: bv32, poly: bv32): bv32 {
    if Odd(c) then Half(c) ^ poly else Half(c)
  }

  function Turns(c: bv32, poly: bv32, n: nat): bv32 {
    if n == 0 then c else Turn(Turns(c, poly, n - 1), poly)
  }

  lemma {:induction false} TurnIsStep(c: bv32, poly: bv32)
    requires Value(poly) <= UINT32_MAX
    ensures Value(Turn(c, poly)) == Step(Value(c), Value(poly))
  {
    hide Half, Odd, Value, Step, Xor;
    HalfValue(c);
    StepIs(Value(c), Value(poly));
    if Odd(c) {
      ValueOfXor(Half(c), poly);
    } else {
      XorZero(Value(Half(c)));
    }
  }

  lemma {:induction false} StepIs(c: nat, poly: uint32)
    ensures Step(c, poly) == Xor(c / 2, if c % 2 == 1 then poly else 0)
  {
  }

  lemma {:induction false} TurnsAreSteps(c: bv32, poly: bv32, n: nat)
    requires Value(poly) <= UINT32_MAX
    ensures Value(Turns(c, poly, n)) == Steps(Value(c), Value(poly), n)
  {
    hide Value, Turn, Step;
    if n > 0 {
      TurnsAreSteps(c, poly, n - 1);
      TurnIsStep(Turns(c, poly, n - 1), poly);
    }
  }

  /** The register after one more byte. */
  function ByteTurns(c: bv32, b: bv32, poly: bv32): bv32 {
    var half := Turn(Turn(Turn(Turn(c ^ b, poly), poly), poly), poly);
    Turn(Turn(Turn(Turn(half, poly), poly), poly), poly)
  }

  lemma {:induction false} EightTurns(c: bv32, b: bv32, poly: bv32)
    ensures ByteTurns(c, b, poly) == Turns(c ^ b, poly, 8)
  {
    hide Turn;
    var x := c ^ b;
    assert Turns(x, poly, 1) == Turn(x, poly);
    assert Turns(x, poly, 2) == Turn(Turn(x, poly), poly);
    assert Turns(x, poly, 4) == Turn(Turn(Turns(x, poly, 2), poly), poly);
    assert Turns(x, poly, 6) == Turn(Turn(Turns(x, poly, 4), poly), poly);
  }

  lemma {:induction false} ByteIsSteps(c: bv32, b: bv32, poly: bv32)
    requires Value(poly) <= UINT32_MAX
    ensures Value(ByteTurns(c, b, poly)) == Steps(Xor(Value(c), Value(b)), Value(poly), 8)
  {
    hide *;
    EightTurns(c, b, poly);
    ValueOfXor(c, b);
    TurnsAreSteps(c ^ b, poly, 8);
  }

  lemma {:induction false} ValueOfXor(a: bv32, b: bv32)
    ensures Value(a ^ b) == Xor(Value(a), Value(b))
  {
    hide Low, Xor;
    XorLow(a, b, 32);
  }

  // ----- the numbers of given words -----

  /** The last digit, base sixteen. */
  function Digit(v: bv32): nat {
    Bit(v) + 2 * Bit(v >> 1) + 4 * Bit(v >> 2) + 8 * Bit(v >> 3)
  }

  lemma {:induction false} Shifts(v: bv32)
    ensures Half(v) == v >> 1 && Half(v >> 1) == v >> 2 && Half(v >> 2) == v >> 3 && Half(v >> 3) == v >> 4
  {
  }

  lemma {:induction false} DigitFirst(v: bv32, n: nat)
    requires n >= 4
    ensures Low(v, n) == Digit(v) + 0x10 * Low(Drop(v), n - 4)
  {
    hide Bit, Half;
    Shifts(v);
    assert Low(v >> 3, n - 3) == Bit(v >> 3) + 2 * Low(v >> 4, n - 4);
    assert Low(v >> 2, n - 2) == Bit(v >> 2) + 2 * Low(v >> 3, n - 3);
    assert Low(v >> 1, n - 1) == Bit(v >> 1) + 2 * Low(v >> 2, n - 2);
  }

  function Drop(v: bv32): bv32 {
    v >> 4
  }

  /** The word with its digits put together again. */
  function Spelled(v: bv32): nat {
    var v1, v2, v3 := Drop(v), Drop(Drop(v)), Drop(Drop(Drop(v)));
    Digit(v) + 0x10 * Digit(v1) + 0x100 * Digit(v2) + 0x1000 * Digit(v3) + 0x1_0000 * Upper(Drop(v3))
  }

  function Upper(v: bv32): nat {
    var v1, v2, v3 := Drop(v), Drop(Drop(v)), Drop(Drop(Drop(v)));
    Digit(v) + 0x10 * Digit(v1) + 0x100 * Digit(v2) + 0x1000 * Digit(v3)
  }

  lemma {:induction false} FourDigits(v: bv32, n: nat)
    requires n >= 16
    ensures Low(v, n) == Upper(v) + 0x1_0000 * Low(Drop(Drop(Drop(Drop(v)))), n - 16)
  {
    hide Digit, Drop, Low;
    DigitFirst(v, n);
    DigitFirst(Drop(v), n - 4);
    DigitFirst(Drop(Drop(v)), n - 8);
    DigitFirst(Drop(Drop(Drop(v))), n - 12);
  }

  lemma {:induction false} ValueSpelled(v: bv32)
    ensures Value(v) == Spelled(v)
  {
    hide Digit, Drop, Low;
    FourDigits(v, 32);
    FourDigits(Drop(Drop(Drop(Drop(v)))), 16);
    NoDigits(Drop(Drop(Drop(Drop(Drop(Drop(Drop(Drop(v)))))))));
  }

  lemma {:induction false} NoDigits(v: bv32)
    ensures Low(v, 0) == 0
  {
  }

  // ----- the nine digits -----

  /** "123456789" */
  function Digits(): (s: seq<byte>)
    ensures |s| == 9 && forall k | 0 <= k < 9 :: s[k] == 0x31 + k
  {
    [0x31, 0x32, 0x33, 0x34, 0x35, 0x36, 0x37, 0x38, 0x39]
  }

  /** The register after the first k digits. */
  predicate Reached(poly: bv32, k: nat, c: bv32)
    requires k <= 9
  {
    Value(poly) <= UINT32_MAX && Feed(0xffff_ffff, Value(poly), Digits()[..k]) == Value(c)
  }

  lemma {:induction false} NextDigit(poly: bv32, k: nat, c: bv32, b: bv32, c1: bv32)
    requires k < 9 && Reached(poly, k, c)
    requires Spelled(b) == 0x31 + k && ByteTurns(c, b, poly) == c1
    ensures Reached(poly, k + 1, c1)
  {
    hide Spelled, ByteTurns, Value, Feed, Steps, Xor, Digits;
    var s := Digits();
    ValueSpelled(b);
    ByteIsSteps(c, b, poly);
    assert s[..k + 1] == s[..k] + [s[k]];
    FeedAppend(0xffff_ffff, Value(poly), s[..k], [s[k]]);
    FeedOne(Value(c), Value(poly), s[k]);
  }

  lemma {:induction false} FeedOne(c: nat, poly: uint32, b: byte)
    ensures Feed(c, poly, [b]) == Steps(Xor(c, b), poly, 8)
  {
    hide Steps, Xor;
    assert [b][1..] == [];
  }

  lemma {:induction false} Starts(poly: bv32)
    requires Spelled(poly) <= UINT32_MAX
    ensures Reached(poly, 0, 0xffff_ffff)
  {
    hide Value;
    ValueSpelled(poly);
    assert Digits()[..0] == [];
    ValueSpelled(0xffff_ffff);
  }

  /** The checksum is the complement of the last register. */
  lemma {:induction false} Ends(poly: bv32, c: bv32)
    requires Reached(poly, 9, c)
    ensures Spelled(poly) <= UINT32_MAX && Spelled(c) + Checksum(Spelled(poly), Digits()) == 0xffff_ffff
  {
    hide Value, Feed, Spelled;
    ValueSpelled(poly);
    ValueSpelled(c);
    assert Digits()[..9] == Digits();
  }

  lemma {:induction false} Crc32cHalfway()
    ensures Reached(0x82f6_3b78, 5, 0xe72e_dcca)
  {
    hide Reached, Digits;
    Starts(0x82f6_3b78);
    NextDigit(0x82f6_3b78, 0, 0xffff_ffff, 0x31, 0x6f0a_661c);
    NextDigit(0x82f6_3b78, 1, 0x6f0a_661c, 0x32, 0x8caa_3b9f);
    NextDigit(0x82f6_3b78, 2, 0x8caa_3b9f, 0x33, 0xef84_d04d);
    NextDigit(0x82f6_3b78, 3, 0xef84_d04d, 0x34, 0x09c5_0b11);
    NextDigit(0x82f6_3b78, 4, 0x09c5_0b11, 0x35, 0xe72e_dcca);
  }

  lemma {:induction false} Crc32cRegister()
    ensures Reached(0x82f6_3b78, 9, 0x1cf9_6d7c)
  {
    hide Reached, Digits;
    Crc32cHalfway();
    NextDigit(0x82f6_3b78, 5, 0xe72e_dcca, 0x36, 0xbeca_8e79);
    NextDigit(0x82f6_3b78, 6, 0xbeca_8e79, 0x37, 0xedbd_6815);
    NextDigit(0x82f6_3b78, 7, 0xedbd_6815, 0x38, 0x9f78_7f65);
    NextDigit(0x82f6_3b78, 8, 0x9f78_7f65, 0x39, 0x1cf9_6d7c);
  }

  /** The CRC-32C of section 12.1 of RFC 3720. */
  lemma {:induction false} Crc32cCheckValue()
    ensures Checksum(CRC32C_POLYNOMIAL, Digits()) == 0xe306_9283
  {
    hide Checksum, Reached, Digits;
    Crc32cRegister();
    Ends(0x82f6_3b78, 0x1cf9_6d7c);
    assert Spelled(0x82f6_3b78) == CRC32C_POLYNOMIAL;
  }

  lemma {:induction false} Crc32Halfway()
    ensures Reached(0xedb8_8320, 5, 0x340a_c5e3)
  {
    hide Reached, Digits;
    Starts(0xedb8_8320);
    NextDigit(0xedb8_8320, 0, 0xffff_ffff, 0x31, 0x7c23_1048);
    NextDigit(0xedb8_8320, 1, 0x7c23_1048, 0x32, 0xb0ac_bb32);
    NextDigit(0xedb8_8320, 2, 0xb0ac_bb32, 0x33, 0x77b7_9c2d);
    NextDigit(0xedb8_8320, 3, 0x77b7_9c2d, 0x34, 0x641c_1f5c);
    NextDigit(0xedb8_8320, 4, 0x641c_1f5c, 0x35, 0x340a_c5e3);
  }

  lemma {:induction false} Crc32Register()
    ensures Reached(0xedb8_8320, 9, 0x340b_c6d9)
  {
    hide Reached, Digits;
    Crc32Halfway();
    NextDigit(0xedb8_8320, 5, 0x340a_c5e3, 0x36, 0xf68d_2c9e);
    NextDigit(0xedb8_8320, 6, 0xf68d_2c9e, 0x37, 0xaffc_9660);
    NextDigit(0xedb8_8320, 7, 0xaffc_9660, 0x38, 0x651f_2550);
    NextDigit(0xedb8_8320, 8, 0x651f_2550, 0x39, 0x340b_c6d9);
  }

  /** The CRC-32 of section 8 of RFC 1952. */
  lemma {:induction false} Crc32CheckValue()
    ensures Checksum(CRC32_POLYNOMIAL, Digits()) == 0xcbf4_3926
  {
    hide Checksum, Reached, Digits;
    Crc32Register();
    Ends(0xedb8_8320, 0x340b_c6d9);
    assert Spelled(0xedb8_8320) == CRC32_POLYNOMIAL;
  }
}
