/** The instruction stream: what the compiler writes and the runtime reads. */
module Instructions {
  import opened Bytes

  const OP_XIC: byte := 1
  const OP_XIO: byte := 2
  const OP_OTE: byte := 3
  const OP_OTL: byte := 4
  const OP_OTU: byte := 5
  const OP_ONS: byte := 6
  const OP_TON: byte := 16
  const OP_CTU: byte := 17
  const OP_CTD: byte := 18
  const OP_RES: byte := 19
  const OP_EQ: byte := 32
  const OP_NE: byte := 33
  const OP_GT: byte := 34
  const OP_GE: byte := 35
  const OP_LT: byte := 36
  const OP_LE: byte := 37
  const OP_MOV: byte := 48
  const OP_CLR: byte := 49
  const OP_ADD: byte := 50
  const OP_SUB: byte := 51
  const OP_MUL: byte := 52
  const OP_DIV: byte := 53
  const OP_NEG: byte := 54
  const OP_ABS: byte := 55
  const OP_BRANCH_BEGIN: byte := 240
  const OP_LANE_BEGIN: byte := 241
  const OP_LANE_END: byte := 242
  const OP_BRANCH_END: byte := 243

  /** kind 1 names a tag (raw is its number), kind 2 is a literal (raw is its bits). */
  datatype Operand = Operand(kind: byte, typ: byte, member: byte, raw: nat)

  datatype Instr = Instr(op: byte, id: nat, slot: int, args: seq<Operand>)

  predicate IsControl(op: byte) {
    OP_BRANCH_BEGIN <= op <= OP_BRANCH_END
  }

  /** Instructions that own a state slot. */
  predicate IsStateful(op: byte) {
    op == OP_TON || op == OP_CTU || op == OP_CTD
  }

  // ----- reading -----

  function ReadOperand(s: seq<byte>, at: nat): Operand
    requires at + 8 <= |s|
  {
    Operand(s[at], s[at + 1], s[at + 2], U32(s, at + 4))
  }

  /** A whole record starts the string. */
  predicate Fits(s: seq<byte>) {
    |s| >= 12 && 12 + 8 * (s[1] as int) <= |s|
  }

  function ReadInstr(s: seq<byte>): (i: Instr)
    requires Fits(s)
    ensures |i.args| == s[1] && i.op == s[0]
  {
    Instr(s[0], U32(s, 4), Signed(U32(s, 8)),
      seq(s[1] as int, k requires 0 <= k < s[1] as int => ReadOperand(s, 12 + 8 * k)))
  }

  function Size(i: Instr): nat {
    12 + 8 * |i.args|
  }

  function Sizes(instrs: seq<Instr>): nat {
    if instrs == [] then 0 else Size(instrs[0]) + Sizes(instrs[1..])
  }

  /** The records of a byte string, if it is exactly a string of whole records. */
  function Parse(s: seq<byte>): (r: Option<seq<Instr>>)
    ensures r.Some? ==> Sizes(r.value) == |s| && |r.value| <= |s|
    decreases |s|
  {
    if s == [] then Some([])
    else if !Fits(s) then None
    else
      var i := ReadInstr(s);
      match Parse(s[Size(i)..])
      case None => None
      case Some(rest) =>
        assert ([i] + rest)[1..] == rest;
        Some([i] + rest)
  }

  /** Reading one record at an offset of the code, as the interpreter does through its pointer. */
  method Fetch(code: seq<byte>, at: nat, end: nat) returns (i: Instr)
    requires at <= end <= |code| && Fits(code[at..end])
    ensures i == ReadInstr(code[at..end])
  {
    ghost var s := code[at..end];
    FieldAt(code[..end], at, 4);
    FieldAt(code[..end], at, 8);
    assert code[..end][at..] == s;
    var count := code[at + 1] as int;
    var args: seq<Operand> := [];
    var k := 0;
    while k < count
      invariant 0 <= k <= count && |args| == k
      invariant forall j | 0 <= j < k :: args[j] == ReadOperand(s, 12 + 8 * j)
    {
      FieldAt(code[..end], at, 12 + 8 * k + 4);
      args := args + [Operand(code[at + 12 + 8 * k], code[at + 13 + 8 * k], code[at + 14 + 8 * k],
        U32(code[..end], at + 12 + 8 * k + 4))];
      k := k + 1;
    }
    i := Instr(code[at], U32(code[..end], at + 4), Signed(U32(code[..end], at + 8)), args);
    assert i.args == ReadInstr(s).args;
  }

  // ----- writing -----

  /** What `struct.pack` accepts; outside this range it raises. */
  predicate Packs(i: Instr) {
    && |i.args| < 0x100
    && i.id <= UINT32_MAX
    && INT32_MIN <= i.slot <= INT32_MAX
    && OperandsPack(i.args)
  }

  predicate OperandsPack(args: seq<Operand>) {
    forall o | o in args :: o.raw <= UINT32_MAX
  }

  function EncodeOperand(o: Operand): (s: seq<byte>)
    requires o.raw <= UINT32_MAX
    ensures |s| == 8
  {
    [o.kind, o.typ, o.member, 0] + Le32(o.raw)
  }

  function EncodeOperands(args: seq<Operand>): (s: seq<byte>)
    requires OperandsPack(args)
    ensures |s| == 8 * |args|
  {
    if args == [] then [] else EncodeOperand(args[0]) + EncodeOperands(args[1..])
  }

  function Encode(i: Instr): (s: seq<byte>)
    requires Packs(i)
    ensures |s| == Size(i)
  {
    [i.op, |i.args|, 0, 0] + Le32(i.id) + Le32(Unsigned(i.slot)) + EncodeOperands(i.args)
  }

  predicate Encodable(instrs: seq<Instr>) {
    forall i | i in instrs :: Packs(i)
  }

  function EncodeAll(instrs: seq<Instr>): (s: seq<byte>)
    requires Encodable(instrs)
    ensures |s| == Sizes(instrs)
  {
    if instrs == [] then [] else Encode(instrs[0]) + EncodeAll(instrs[1..])
  }

  lemma {:induction false} EncodeAllAppend(a: seq<Instr>, b: seq<Instr>)
    requires Encodable(a) && Encodable(b)
    ensures Encodable(a + b) && EncodeAll(a + b) == EncodeAll(a) + EncodeAll(b)
    decreases |a|
  {
    hide Encode, Packs;
    if a == [] {
      assert a + b == b;
    } else {
      assert (a + b)[0] == a[0] && (a + b)[1..] == a[1..] + b;
      EncodeAllAppend(a[1..], b);
    }
  }

  // ----- reading what was written -----

  lemma {:induction false} OperandAt(args: seq<Operand>, k: nat, before: seq<byte>, after: seq<byte>)
    requires k < |args| && OperandsPack(args)
    ensures |before + EncodeOperands(args) + after| >= |before| + 8 * k + 8
    ensures ReadOperand(before + EncodeOperands(args) + after, |before| + 8 * k) == args[k]
  {
    var head, tail := EncodeOperand(args[0]), EncodeOperands(args[1..]);
    if k == 0 {
      var s := before + EncodeOperands(args) + after;
      var flags: seq<byte> := [args[0].kind, args[0].typ, args[0].member, 0];
      assert s == (before + flags) + Le32(args[0].raw) + (tail + after);
      FieldOf(before + flags, Le32(args[0].raw), tail + after);
      assert s[|before|] == flags[0] && s[|before| + 1] == flags[1] && s[|before| + 2] == flags[2];
    } else {
      OperandAt(args[1..], k - 1, before + head, after);
      assert before + head + tail + after == before + (head + tail) + after;
    }
  }

  lemma {:induction false} ReadEncoded(i: Instr, after: seq<byte>)
    requires Packs(i)
    ensures Fits(Encode(i) + after) && ReadInstr(Encode(i) + after) == i
  {
    var head: seq<byte> := [i.op, |i.args|, 0, 0];
    var id, slot, args := Le32(i.id), Le32(Unsigned(i.slot)), EncodeOperands(i.args);
    var s := Encode(i) + after;
    assert s == head + id + (slot + args + after);
    FieldOf(head, id, slot + args + after);
    assert s == (head + id) + slot + (args + after);
    FieldOf(head + id, slot, args + after);
    assert s == (head + id + slot) + args + after;
    assert s[0] == head[0] && s[1] == head[1];
    forall k | 0 <= k < |i.args|
      ensures ReadInstr(s).args[k] == i.args[k]
    {
      OperandAt(i.args, k, head + id + slot, after);
    }
    assert ReadInstr(s).args == i.args;
  }

  lemma {:induction false} ParseOne(i: Instr, after: seq<byte>)
    requires Packs(i) && Parse(after).Some?
    ensures Parse(Encode(i) + after) == Some([i] + Parse(after).value)
  {
    ReadEncoded(i, after);
    assert (Encode(i) + after)[Size(i)..] == after;
  }

  /** Decoding inverts encoding, also in front of more code. */
  lemma {:induction false} ParseEncoded(instrs: seq<Instr>, after: seq<byte>)
    requires Encodable(instrs)
    requires Parse(after).Some?
    ensures Parse(EncodeAll(instrs) + after) == Some(instrs + Parse(after).value)
    decreases |instrs|
  {
    hide Encode, Parse, Packs;
    if instrs == [] {
      assert EncodeAll(instrs) + after == after;
      assert instrs + Parse(after).value == Parse(after).value;
    } else {
      var rest := EncodeAll(instrs[1..]);
      assert EncodeAll(instrs) + after == Encode(instrs[0]) + (rest + after);
      ParseEncoded(instrs[1..], after);
      ParseOne(instrs[0], rest + after);
      assert [instrs[0]] + (instrs[1..] + Parse(after).value) == instrs + Parse(after).value;
    }
  }

  /** A whole stream decodes to the instructions it was made from. */
  lemma {:induction false} ParseStream(instrs: seq<Instr>)
    requires Encodable(instrs)
    ensures Parse(EncodeAll(instrs)) == Some(instrs)
  {
    ParseEncoded(instrs, []);
    assert EncodeAll(instrs) + [] == EncodeAll(instrs) && instrs + [] == instrs;
  }

  // ----- splitting a parsed stream at a record boundary -----

  lemma {:induction false} SizesAppend(a: seq<Instr>, b: seq<Instr>)
    ensures Sizes(a + b) == Sizes(a) + Sizes(b)
    decreases |a|
  {
    if a == [] {
      assert a + b == b;
    } else {
      assert (a + b)[0] == a[0] && (a + b)[1..] == a[1..] + b;
      SizesAppend(a[1..], b);
    }
  }

  lemma {:induction false} ParseSplit(s: seq<byte>, n: nat)
    requires Parse(s).Some? && n <= |Parse(s).value|
    ensures Sizes(Parse(s).value[..n]) <= |s|
    ensures Parse(s[..Sizes(Parse(s).value[..n])]) == Some(Parse(s).value[..n])
    ensures Parse(s[Sizes(Parse(s).value[..n])..]) == Some(Parse(s).value[n..])
    decreases n
  {
    var instrs := Parse(s).value;
    if n == 0 {
      assert s[0..] == s && instrs[0..] == instrs;
    } else {
      var size := Size(instrs[0]);
      var tail := s[size..];
      ParseSplit(tail, n - 1);
      assert instrs[..n][0] == instrs[0] && instrs[..n][1..] == instrs[1..][..n - 1]
             && instrs[n..] == instrs[1..][n - 1..];
      var m := Sizes(instrs[..n]);
      assert m == size + Sizes(instrs[1..][..n - 1]);
      assert s[m..] == tail[m - size..];
      assert s[..m][size..] == tail[..m - size];
      SameRecord(s, m);
      assert [instrs[0]] + instrs[1..][..n - 1] == instrs[..n];
    }
  }

  /** A record read from a longer string is the record read from the prefix that holds it. */
  lemma {:induction false} SameRecord(s: seq<byte>, m: nat)
    requires Fits(s) && 12 + 8 * (s[1] as int) <= m <= |s|
    ensures Fits(s[..m]) && ReadInstr(s[..m]) == ReadInstr(s)
  {
    assert ReadInstr(s[..m]).args == ReadInstr(s).args;
  }

  lemma {:induction false} HeadRecord(s: seq<byte>)
    requires Parse(s).Some? && Parse(s).value != []
    ensures s != [] && Fits(s) && ReadInstr(s) == Parse(s).value[0]
  {
  }

  /** The record at a boundary of a parsed stream. */
  lemma {:induction false} RecordAt(s: seq<byte>, n: nat)
    requires Parse(s).Some? && n < |Parse(s).value|
    ensures var q := Sizes(Parse(s).value[..n]);
            && q < |s| && Fits(s[q..]) && ReadInstr(s[q..]) == Parse(s).value[n]
            && q + Size(Parse(s).value[n]) == Sizes(Parse(s).value[..n + 1]) <= |s|
  {
    hide Parse, ReadInstr, Fits;
    var instrs := Parse(s).value;
    ParseSplit(s, n);
    assert instrs[n..][0] == instrs[n];
    HeadRecord(s[Sizes(instrs[..n])..]);
    ParseSplit(s, n + 1);
    assert instrs[..n + 1] == instrs[..n] + [instrs[n]];
    SizesAppend(instrs[..n], [instrs[n]]);
    assert Sizes([instrs[n]]) == Size(instrs[n]) + Sizes([instrs[n]][1..]);
  }

  /** An offset inside a parsed stream is the offset of one of its records. */
  lemma {:induction false} NotAtEnd(s: seq<byte>, n: nat)
    requires Parse(s).Some? && n <= |Parse(s).value| && Sizes(Parse(s).value[..n]) < |s|
    ensures n < |Parse(s).value|
    ensures var q := Sizes(Parse(s).value[..n]);
            && Fits(s[q..]) && ReadInstr(s[q..]) == Parse(s).value[n]
            && q + Size(Parse(s).value[n]) == Sizes(Parse(s).value[..n + 1]) <= |s|
  {
    hide Parse, ReadInstr, Fits;
    var instrs := Parse(s).value;
    StreamSize(s);
    SizesOfAll(instrs, n);
    RecordAt(s, n);
  }

  lemma {:induction false} SizesOfNone(instrs: seq<Instr>)
    ensures Sizes(instrs[..0]) == 0
  {
  }

  lemma {:induction false} SizesOfAll(instrs: seq<Instr>, n: nat)
    requires n <= |instrs|
    ensures n == |instrs| ==> Sizes(instrs[..n]) == Sizes(instrs)
  {
    if n == |instrs| {
      assert instrs[..n] == instrs;
    }
  }

  lemma {:induction false} AtEnd(s: seq<byte>, n: nat)
    requires Parse(s).Some? && n <= |Parse(s).value| && Sizes(Parse(s).value[..n]) >= |s|
    ensures n == |Parse(s).value|
  {
    hide Parse, ReadInstr, Fits;
    if n < |Parse(s).value| {
      RecordAt(s, n);
    }
  }

  lemma {:induction false} StreamSize(s: seq<byte>)
    requires Parse(s).Some?
    ensures Sizes(Parse(s).value) == |s|
  {
  }
}
