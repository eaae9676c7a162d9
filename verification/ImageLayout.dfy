/** The bytes of the program image, one by one: what the builder writes, and what the validator looks at. */
module ImageLayout {
  import opened Bytes
  import opened Crc
  import opened Instructions
  import opened Semantics
  import opened Source
  import opened Compiled
  import opened ImageFormat
  import opened ImageBuilder

  // ----- numbers -----

  /** The numbers of the format. */
  lemma {:induction false} FormatNumbers(t: DataType, s: Storage, m: Member)
    ensures DataTypeCode(t) == match t case BOOL => 1 case DINT => 2 case REAL => 3 case TIMER => 4 case COUNTER => 5
    ensures StorageCode(s) == match s case INTERNAL => 0 case INPUT => 1 case OUTPUT => 2
    ensures MemberCode(None) == 0
    ensures MemberCode(Some(m)) ==
            match m case PRE => 1 case ACC => 2 case EN => 3 case TT => 4 case DN => 5 case CU => 6 case CD => 7
            case OV => 8 case UN => 9
  {
  }

  /** The numbers of the instructions. */
  lemma {:induction false} OpcodeNumbers()
    ensures Opcode(XIC) == 1 && Opcode(XIO) == 2 && Opcode(OTE) == 3 && Opcode(OTL) == 4 && Opcode(OTU) == 5
    ensures Opcode(ONS) == 6 && Opcode(TON) == 16 && Opcode(CTU) == 17 && Opcode(CTD) == 18 && Opcode(RES) == 19
    ensures Opcode(EQ) == 32 && Opcode(NE) == 33 && Opcode(GT) == 34 && Opcode(GE) == 35 && Opcode(LT) == 36
    ensures Opcode(LE) == 37 && Opcode(MOV) == 48 && Opcode(CLR) == 49 && Opcode(ADD) == 50 && Opcode(SUB) == 51
    ensures Opcode(MUL) == 52 && Opcode(DIV) == 53 && Opcode(NEG) == 54 && Opcode(ABS) == 55
  {
  }

  // ----- records -----

  /** Byte 0 is the opcode, byte 1 the number of operands, then the number of the record and its slot, -1
   *  for none, and eight bytes for each operand: kind, type, member and value. */
  predicate IsRecord(s: seq<byte>, i: Instr) {
    && INT32_MIN <= i.slot <= INT32_MAX && |s| == 12 + 8 * |i.args|
    && s[0] == i.op && s[1] == |i.args| && s[2] == 0 && s[3] == 0
    && Word(s, 4, i.id) && Word(s, 8, Complement(i.slot))
    && forall k | 0 <= k < |i.args| :: IsOperand(s, 12 + 8 * k, i.args[k])
  }

  predicate IsOperand(s: seq<byte>, at: nat, o: Operand) {
    && at + 8 <= |s|
    && s[at] == o.kind && s[at + 1] == o.typ && s[at + 2] == o.member && s[at + 3] == 0 && Word(s, at + 4, o.raw)
  }

  lemma {:induction false} OperandIsWritten(before: seq<byte>, args: seq<Operand>, k: nat)
    requires k < |args| && OperandsPack(args)
    ensures IsOperand(before + EncodeOperands(args), |before| + 8 * k, args[k])
    decreases k
  {
    var head, tail := EncodeOperand(args[0]), EncodeOperands(args[1..]);
    var s := before + EncodeOperands(args);
    if k == 0 {
      var flags: seq<byte> := [args[0].kind, args[0].typ, args[0].member, 0];
      assert s == (before + flags) + Le32(args[0].raw) + tail;
      FieldOf(before + flags, Le32(args[0].raw), tail);
      assert s[|before|] == flags[0] && s[|before| + 1] == flags[1] && s[|before| + 2] == flags[2]
             && s[|before| + 3] == flags[3];
    } else {
      OperandIsWritten(before + head, args[1..], k - 1);
      assert before + head + tail == s;
    }
  }

  /** Encoding writes that record. */
  lemma {:induction false} RecordIsWritten(i: Instr)
    requires Packs(i)
    ensures IsRecord(Encode(i), i)
  {
    hide Le32, EncodeOperands, IsOperand, U32, Word;
    var head: seq<byte> := [i.op, |i.args|, 0, 0];
    var id, slot := Le32(i.id), Le32(Unsigned(i.slot));
    var front := head + id + slot;
    assert Encode(i) == front + EncodeOperands(i.args);
    assert Encode(i) == head + id + (slot + EncodeOperands(i.args));
    FieldOf(head, id, slot + EncodeOperands(i.args));
    FieldOf(head + id, slot, EncodeOperands(i.args));
    WordIs(Encode(i), 4, i.id);
    WordIs(Encode(i), 8, Unsigned(i.slot));
    forall k | 0 <= k < |i.args|
      ensures IsOperand(Encode(i), 12 + 8 * k, i.args[k])
    {
      OperandIsWritten(front, i.args, k);
    }
  }

  /** The operand of a tag has kind 1 and its number; that of a literal kind 2 and its bits. */
  lemma {:induction false} OperandNumbers(t: DataType, id: nat, m: Option<Member>, b: bool, v: int32, bits: uint32)
    ensures AssembleOperand(IRTagOperand(t, id, m)) == Operand(1, DataTypeCode(t), MemberCode(m), id)
    ensures AssembleOperand(IRLiteral(BoolLit(b))) == Operand(2, 1, 0, if b then 1 else 0)
    ensures AssembleOperand(IRLiteral(DintLit(v))) == Operand(2, 2, 0, Complement(v))
    ensures AssembleOperand(IRLiteral(RealLit(bits))) == Operand(2, 3, 0, bits)
  {
  }

  // ----- tables -----

  /** A negative number as its two's complement. */
  function Complement(n: int32): int {
    if n < 0 then n + 4_294_967_296 else n
  }

  /** The words of a tag record: the starting value, and the starting accumulator. */
  predicate StartsAs(s: seq<byte>, at: nat, d: Data)
    requires at + 8 <= |s|
  {
    match d
    case BoolD(b) => Word(s, at, if b then 1 else 0) && Word(s, at + 4, 0)
    case DintD(n) => Word(s, at, Complement(n)) && Word(s, at + 4, 0)
    case RealD(bits) => Word(s, at, bits) && Word(s, at + 4, 0)
    case TimerD(pre, acc, _, _, _) => Word(s, at, Complement(pre)) && Word(s, at + 4, Complement(acc))
    case CounterD(pre, acc, _, _, _, _, _) => Word(s, at, Complement(pre)) && Word(s, at + 4, Complement(acc))
  }

  const ZEROS: seq<byte> := [0, 0, 0, 0, 0, 0, 0, 0]

  /** Twenty bytes: type, storage, whether it is retentive, a zero, two words and eight zeros. */
  predicate IsTag(row: seq<byte>, t: IRTag, d: Data) {
    && |row| == 20
    && row[0] == DataTypeCode(t.dataType) && row[1] == StorageCode(t.storage)
    && row[2] == (if t.retentive then 1 else 0) && row[3] == 0
    && StartsAs(row, 4, d) && row[12..] == ZEROS
  }

  lemma {:induction false} TagIsWritten(t: IRTag, d: Data)
    ensures IsTag(TagBytes(t, d), t, d)
  {
    var row := TagBytes(t, d);
    var head: seq<byte> := [DataTypeCode(t.dataType), StorageCode(t.storage), if t.retentive then 1 else 0, 0];
    var a, b := Le32(Words(d).0), Le32(Words(d).1);
    hide Le32, U32, Word;
    assert row == head + a + (b + ZEROS);
    FieldOf(head, a, b + ZEROS);
    assert row == (head + a) + b + ZEROS;
    FieldOf(head + a, b, ZEROS);
    WordIs(row, 4, Words(d).0);
    WordIs(row, 8, Words(d).1);
  }

  /** The tag section: the number of tags, then their records. */
  predicate IsTagSection(s: seq<byte>, f: Floats, tags: seq<IRTag>)
    requires TagsPack(f, tags)
  {
    && |s| == 4 + 20 * |tags| && Word(s, 0, |tags|)
    && forall k | 0 <= k < |tags| :: IsTag(s[4 + 20 * k..24 + 20 * k], tags[k], InitialData(f, tags[k]).value)
  }

  lemma {:induction false} TagsAreWritten(f: Floats, tags: seq<IRTag>)
    requires TagsPack(f, tags)
    ensures IsTagSection(TagSection(f, tags), f, tags)
  {
    hide TagBytes, Le32, U32, Word, IsTag, InitialData;
    var rows, s := TagRows(f, tags), TagSection(f, tags);
    EqualWidth(rows, 20);
    CountFirst(|tags|, Concat(rows));
    WordIs(s, 0, |tags|);
    forall k | 0 <= k < |tags|
      ensures IsTag(s[4 + 20 * k..24 + 20 * k], tags[k], InitialData(f, tags[k]).value)
    {
      RowAt(rows, 20, k);
      assert s[4 + 20 * k..24 + 20 * k] == rows[k];
      TagIsWritten(tags[k], InitialData(f, tags[k]).value);
    }
  }

  /** Twelve bytes: routine, first record and number of records. */
  predicate IsRung(s: seq<byte>, at: nat, r: IRRung) {
    at + 12 <= |s| && Word(s, at, r.routine) && Word(s, at + 4, r.start) && Word(s, at + 8, r.count)
  }

  predicate IsRungSection(s: seq<byte>, rungs: seq<IRRung>) {
    && |s| == 4 + 12 * |rungs| && Word(s, 0, |rungs|)
    && forall k | 0 <= k < |rungs| :: IsRung(s, 4 + 12 * k, rungs[k])
  }

  lemma {:induction false} RungsAreWritten(rungs: seq<IRRung>)
    requires RungsPack(rungs)
    ensures IsRungSection(RungSection(rungs), rungs)
  {
    hide RungBytes, Le32, U32, Word;
    var rows, s := RungRows(rungs), RungSection(rungs);
    EqualWidth(rows, 12);
    CountFirst(|rungs|, Concat(rows));
    WordIs(s, 0, |rungs|);
    forall k | 0 <= k < |rungs|
      ensures IsRung(s, 4 + 12 * k, rungs[k])
    {
      RowAt(rows, 12, k);
      assert s[4 + k * 12..16 + k * 12] == rows[k];
      RungRow(s, k, rungs[k]);
      WordIs(s, 4 + 12 * k, rungs[k].routine);
      WordIs(s, 8 + 12 * k, rungs[k].start);
      WordIs(s, 12 + 12 * k, rungs[k].count);
    }
  }

  // ----- the image -----

  /** "RSM1", version 2, header size 72, total size, profile 1, ABI 2, sixteen sections, the identifier and
   *  the digest of the project, and the CRC-32 of the image with zeros in its place; then sixteen
   *  descriptors of number, offset and size, and the sections one behind the other. */
  predicate IsImage(x: seq<byte>, payloads: seq<seq<byte>>, uid: seq<byte>, digest: seq<byte>) {
    && |payloads| == 16 && |uid| == 16 && |digest| == 32 && 392 <= |x|
    && x[0] == 0x52 && x[1] == 0x53 && x[2] == 0x4d && x[3] == 0x31
    && Half(x, 4, 2) && Half(x, 6, 72) && Word(x, 8, |x|) && Word(x, 12, 1) && Half(x, 16, 2) && Half(x, 18, 16)
    && x[20..36] == uid && x[36..68] == digest
    && Word(x, 68, Checksum(0xedb8_8320, x[..68] + [0, 0, 0, 0] + x[72..]))
    && (forall k | 0 <= k < 16 ::
          IsDescriptor(x[72 + 20 * k..92 + 20 * k], k + 1, 392 + |Concat(payloads[..k])|, |payloads[k]|))
    && x[392..] == Concat(payloads)
  }

  predicate IsDescriptor(row: seq<byte>, id: nat, start: nat, size: nat) {
    && |row| == 20
    && Half(row, 0, id) && row[2] == 0 && row[3] == 0 && Word(row, 4, start) && Word(row, 8, size) && row[12..] == ZEROS
  }

  lemma {:induction false} DescriptorIsWritten(id: uint16, start: uint32, size: uint32)
    ensures IsDescriptor(DescriptorBytes(id, start, size), id, start, size)
  {
    var row, gap: seq<byte> := DescriptorBytes(id, start, size), [0, 0];
    var a, b, c := Le16(id), Le32(start), Le32(size);
    hide Le16, Le32, U16, U32, Word, Half;
    assert row == [] + a + (gap + b + c + ZEROS);
    FieldOf([], a, gap + b + c + ZEROS);
    assert row == (a + gap) + b + (c + ZEROS);
    FieldOf(a + gap, b, c + ZEROS);
    assert row == (a + gap + b) + c + ZEROS;
    FieldOf(a + gap + b, c, ZEROS);
    HalfIs(row, 0, id);
    WordIs(row, 4, start);
    WordIs(row, 8, size);
    assert row[2] == gap[0] && row[3] == gap[1];
  }

  lemma {:induction false} FrontIsWritten(total: uint32, rest: seq<byte>)
    ensures var x := Front(total) + rest;
            && x[0] == 0x52 && x[1] == 0x53 && x[2] == 0x4d && x[3] == 0x31
            && Half(x, 4, 2) && Half(x, 6, 72) && Word(x, 8, total) && Word(x, 12, 1) && Half(x, 16, 2)
              && Half(x, 18, 16)
  {
    var head: seq<byte> := MAGIC + [2, 0, 72, 0];
    var tail: seq<byte> := [1, 0, 0, 0, 2, 0, 16, 0];
    var x := Front(total) + rest;
    assert x == head + Le32(total) + (tail + rest);
    FieldOf(head, Le32(total), tail + rest);
    WordIs(x, 8, total);
    assert forall j | 0 <= j < 8 :: x[j] == head[j];
    assert forall j | 0 <= j < 8 :: x[12 + j] == tail[j];
  }

  /** Building writes that image. */
  lemma {:induction false} ImageIsWritten(payloads: seq<seq<byte>>, uid: seq<byte>, digest: seq<byte>)
    requires Sized(payloads) && |uid| == 16 && |digest| == 32
    ensures IsImage(ImageOf(payloads, uid, digest), payloads, uid, digest)
  {
    var crc := Checksum(CRC32_POLYNOMIAL, WithCrc(payloads, uid, digest, 0));
    WithCrcSize(payloads, uid, digest, crc);
    PartsAreWritten(payloads, uid, digest, crc);
    ChecksumIsWritten(payloads, uid, digest, crc);
    forall k | 0 <= k < 16
      ensures IsDescriptor(
                WithCrc(payloads, uid, digest, crc)[72 + 20 * k..92 + 20 * k], k + 1, 392 + |Concat(payloads[..k])|,
                  |payloads[k]|)
    {
      RowIsWritten(payloads, uid, digest, crc, k);
    }
    hide WithCrc, Concat, Checksum, Half, Word, IsDescriptor;
  }

  lemma {:induction false} Slices(a: seq<byte>, b: seq<byte>, c: seq<byte>, d: seq<byte>, e: seq<byte>, rest: seq<byte>)
    requires |a| == 20 && |b| == 16 && |c| == 32 && |d| == 4 && |e| == 320
    ensures var x := a + b + c + d + e + rest;
            && x == a + x[20..] && x[20..36] == b && x[36..68] == c && x[72..392] == e && x[392..] == rest
  {
  }

  lemma {:induction false} WholeImage(payloads: seq<seq<byte>>, uid: seq<byte>, digest: seq<byte>, crc: uint32)
    requires Sized(payloads) && |uid| == 16 && |digest| == 32
    ensures |Concat(DirectoryRows(payloads, 16))| == 320
    ensures WithCrc(payloads, uid, digest, crc) ==
            Front(Total(payloads)) + uid + digest + Le32(crc) + Concat(DirectoryRows(payloads, 16)) + Concat(payloads)
  {
    EqualWidth(DirectoryRows(payloads, 16), 20);
  }

  lemma {:induction false} PartsAreWritten(payloads: seq<seq<byte>>, uid: seq<byte>, digest: seq<byte>, crc: uint32)
    requires Sized(payloads) && |uid| == 16 && |digest| == 32
    ensures var x, total := WithCrc(payloads, uid, digest, crc), Total(payloads);
            && |x| >= 392 && x[0] == 0x52 && x[1] == 0x53 && x[2] == 0x4d && x[3] == 0x31
            && Half(x, 4, 2) && Half(x, 6, 72) && Word(x, 8, total) && Word(x, 12, 1) && Half(x, 16, 2)
              && Half(x, 18, 16)
            && x[20..36] == uid && x[36..68] == digest && x[392..] == Concat(payloads)
  {
    hide WithCrc, Front, Concat, Le32, Half, Word, DirectoryRows;
    var x, rows := WithCrc(payloads, uid, digest, crc), Concat(DirectoryRows(payloads, 16));
    WholeImage(payloads, uid, digest, crc);
    Slices(Front(Total(payloads)), uid, digest, Le32(crc), rows, Concat(payloads));
    FrontIsWritten(Total(payloads), x[20..]);
  }

  lemma {:induction false} RowIsWritten(
      payloads: seq<seq<byte>>, uid: seq<byte>, digest: seq<byte>, crc: uint32, k: nat)
    requires Sized(payloads) && |uid| == 16 && |digest| == 32 && k < 16
    ensures var x := WithCrc(payloads, uid, digest, crc);
            92 + 20 * k <= |x|
            && IsDescriptor(x[72 + 20 * k..92 + 20 * k], k + 1, 392 + |Concat(payloads[..k])|, |payloads[k]|)
  {
    var x, rows := WithCrc(payloads, uid, digest, crc), DirectoryRows(payloads, 16);
    RowAt(rows, 20, k);
    StartsFit(payloads, k);
    DescriptorIsWritten(k + 1, Start(payloads, k), |payloads[k]|);
    assert rows[k] == DescriptorBytes(k + 1, Start(payloads, k), |payloads[k]|);
    hide Concat, IsDescriptor, DescriptorBytes, WithCrc, DirectoryRows, Front, Le32;
    WholeImage(payloads, uid, digest, crc);
    Slices(Front(Total(payloads)), uid, digest, Le32(crc), Concat(rows), Concat(payloads));
    assert x[72 + 20 * k..92 + 20 * k] == x[72..392][k * 20..k * 20 + 20];
  }

  lemma {:induction false} ChecksumIsWritten(payloads: seq<seq<byte>>, uid: seq<byte>, digest: seq<byte>, crc: uint32)
    requires Sized(payloads) && |uid| == 16 && |digest| == 32
    ensures var x := WithCrc(payloads, uid, digest, crc);
            |x| >= 72 && x[..68] + [0, 0, 0, 0] + x[72..] == WithCrc(payloads, uid, digest, 0) && Word(x, 68, crc)
  {
    PatchCrc(payloads, uid, digest, crc, 0);
    var front, rest := Front(Total(payloads)) + uid + digest,
        Concat(DirectoryRows(payloads, SECTION_COUNT)) + Concat(payloads);
    var x := WithCrc(payloads, uid, digest, crc);
    assert x == front + Le32(crc) + rest;
    FieldOf(front, Le32(crc), rest);
    WordIs(x, 68, crc);
    assert Le32(0) == [0, 0, 0, 0];
  }

  /** The stream is section 8, the tags are section 15 and the rungs section 16; the others are texts. */
  lemma {:induction false} SectionNumbers(texts: seq<seq<byte>>, c: Content)
    requires |texts| == 13
    ensures Payloads(texts, c) == texts[..7] + [c.code] + texts[7..] + [c.tags, c.rungs]
  {
  }

  // ----- the header as the validator reads it -----

  predicate Magic(x: seq<byte>)
    requires |x| >= 72
  {
    x[0] == 0x52 && x[1] == 0x53 && x[2] == 0x4d && x[3] == 0x31
  }

  /** The answer to a header: the first of these checks that fails. */
  lemma {:induction false} HeaderIsRead(x: seq<byte>)
    ensures |x| < 72 ==> HeaderStatus(x) == BAD_IMAGE
    ensures |x| >= 72 ==>
            HeaderStatus(x) ==
              if !Magic(x) then BAD_IMAGE
              else if x[4] != 2 then UNSUPPORTED_VERSION
              else if !Half(x, 6, 72) || !Word(x, 8, |x|) then BAD_IMAGE
              else if !Word(x, 12, 1) then UNSUPPORTED_PROFILE
              else if !Half(x, 16, 2) then UNSUPPORTED_ABI
              else if !Half(x, 18, 16) || |x| < 392 then BAD_IMAGE
              else IMAGE_OK
  {
    if |x| >= 72 {
      assert x[..4] == [x[0], x[1], x[2], x[3]];
    }
  }
}
