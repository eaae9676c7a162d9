/** `build`: the image made from the intermediate form, and why the runtime reads back what the
 *  compiler wrote. */
module ImageBuilder {
  import opened Bytes
  import opened Crc
  import opened Instructions
  import opened Admission
  import opened Semantics
  import opened Machine
  import opened Safety
  import opened Source
  import opened Lowering
  import opened Validation
  import opened Compiled
  import opened ImageFormat

  // ----- pieces of a concatenation -----

  function Concat(pieces: seq<seq<byte>>): seq<byte> {
    if pieces == [] then [] else pieces[0] + Concat(pieces[1..])
  }

  lemma {:induction false} NoPieces()
    ensures Concat([]) == []
  {
  }

  lemma {:induction false} ConcatSnoc(pieces: seq<seq<byte>>, last: seq<byte>)
    ensures Concat(pieces + [last]) == Concat(pieces) + last
    decreases |pieces|
  {
    if pieces == [] {
      assert pieces + [last] == [last] && [last][1..] == [];
      assert last + [] == last && [] + last == last;
    } else {
      assert (pieces + [last])[1..] == pieces[1..] + [last];
      ConcatSnoc(pieces[1..], last);
    }
  }

  /** A piece stands in the concatenation after the pieces before it. */
  lemma {:induction false} PieceAt(pieces: seq<seq<byte>>, k: nat)
    requires k < |pieces|
    ensures var at := |Concat(pieces[..k])|;
            && at + |pieces[k]| == |Concat(pieces[..k + 1])| <= |Concat(pieces)|
            && Concat(pieces)[at..at + |pieces[k]|] == pieces[k]
    decreases k
  {
    assert pieces[..k + 1] == pieces[..k] + [pieces[k]];
    ConcatSnoc(pieces[..k], pieces[k]);
    ConcatSplit(pieces, k);
    ConcatSplit(pieces, k + 1);
    var at := |Concat(pieces[..k])|;
    assert Concat(pieces)[at..at + |pieces[k]|] == Concat(pieces[..k + 1])[at..];
  }

  lemma {:induction false} ConcatSplit(pieces: seq<seq<byte>>, k: nat)
    requires k <= |pieces|
    ensures Concat(pieces) == Concat(pieces[..k]) + Concat(pieces[k..])
    decreases k
  {
    if k == 0 {
      assert pieces[..0] == [] && pieces[0..] == pieces;
    } else {
      assert pieces[..k][1..] == pieces[1..][..k - 1] && pieces[k..] == pieces[1..][k - 1..];
      ConcatSplit(pieces[1..], k - 1);
    }
  }

  lemma {:induction false} EqualWidth(pieces: seq<seq<byte>>, width: nat)
    requires forall k | 0 <= k < |pieces| :: |pieces[k]| == width
    ensures |Concat(pieces)| == |pieces| * width
    decreases |pieces|
  {
    if pieces != [] {
      EqualWidth(pieces[1..], width);
      assert |pieces| * width == width + (|pieces| - 1) * width;
    }
  }

  /** A record of a table of records of one width. */
  lemma {:induction false} RowAt(pieces: seq<seq<byte>>, width: nat, k: nat)
    requires k < |pieces| && forall j | 0 <= j < |pieces| :: |pieces[j]| == width
    ensures k * width + width <= |Concat(pieces)|
    ensures Concat(pieces)[k * width..k * width + width] == pieces[k]
  {
    PieceAt(pieces, k);
    EqualWidth(pieces[..k], width);
  }

  // ----- tag records -----

  /** Conversions between numbers and binary32: a number as a float (None where packing raises), a
   *  float truncated (None where that raises), and whether a float is zero. */
  datatype Floats = Floats(ofInt: int -> Option<uint32>, truncate: uint32 -> Option<int>, isZero: uint32 -> bool)

  predicate Falsy(f: Floats, v: Option<Literal>) {
    match v
    case None => true
    case Some(l) =>
      match l
      case BoolLit(b) => !b
      case DintLit(n) => n == 0
      case RealLit(bits) => f.isZero(bits)
      case WideReal => false
  }

  /** `int(v or 0)`, as far as it may fit a field: a WideReal does not. */
  function IntOf(f: Floats, v: Option<Literal>): Option<int> {
    if Falsy(f, v) then Some(0)
    else
      match v.value
      case BoolLit(_) => Some(1)
      case DintLit(n) => Some(n)
      case RealLit(bits) => f.truncate(bits)
      case WideReal => None
  }

  /** `float(v or 0)`, packed. */
  function FloatOf(f: Floats, v: Option<Literal>): Option<uint32> {
    if Falsy(f, v) then Some(0)
    else
      match v.value
      case BoolLit(_) => f.ofInt(1)
      case DintLit(n) => f.ofInt(n)
      case RealLit(bits) => Some(bits)
      case WideReal => None
  }

  /** The value a tag starts with, or None where its record cannot be packed. */
  function InitialData(f: Floats, t: IRTag): Option<Data> {
    if t.dataType == BOOL then Some(BoolD(!Falsy(f, t.initial)))
    else if t.dataType == REAL then
      match FloatOf(f, t.initial)
      case None => None
      case Some(bits) => Some(RealD(bits))
    else
      match IntOf(f, t.initial)
      case None => None
      case Some(n) =>
        if !(INT32_MIN <= n <= INT32_MAX) then None
        else if t.dataType == DINT then Some(DintD(n))
        else if t.dataType == DataType.TIMER then Some(TimerD(n, 0, false, false, false))
        else Some(CounterD(n, 0, false, false, false, false, false))
  }

  predicate TagsPack(f: Floats, tags: seq<IRTag>) {
    |tags| <= UINT32_MAX && forall k | 0 <= k < |tags| :: InitialData(f, tags[k]).Some?
  }

  /** The tags the runtime starts with. */
  function InitialTags(f: Floats, tags: seq<IRTag>): (r: seq<Tag>)
    requires TagsPack(f, tags)
  {
    seq(|tags|, k requires 0 <= k < |tags| => Tag(StorageCode(tags[k].storage), InitialData(f, tags[k]).value))
  }

  /** The two words of a tag record. */
  function Words(d: Data): (uint32, uint32) {
    match d
    case BoolD(b) => (if b then 1 else 0, 0)
    case DintD(n) => (Unsigned(n), 0)
    case RealD(bits) => (bits, 0)
    case TimerD(pre, acc, _, _, _) => (Unsigned(pre), Unsigned(acc))
    case CounterD(pre, acc, _, _, _, _, _) => (Unsigned(pre), Unsigned(acc))
  }

  function TagBytes(t: IRTag, d: Data): (s: seq<byte>)
    ensures |s| == 20
  {
    [DataTypeCode(t.dataType), StorageCode(t.storage), if t.retentive then 1 else 0, 0]
    + Le32(Words(d).0) + Le32(Words(d).1) + [0, 0, 0, 0, 0, 0, 0, 0]
  }

  function TagRows(f: Floats, tags: seq<IRTag>): seq<seq<byte>>
    requires TagsPack(f, tags)
  {
    seq(|tags|, k requires 0 <= k < |tags| => TagBytes(tags[k], InitialData(f, tags[k]).value))
  }

  function TagSection(f: Floats, tags: seq<IRTag>): seq<byte>
    requires TagsPack(f, tags)
  {
    Le32(|tags|) + Concat(TagRows(f, tags))
  }

  /** `runtime_tags`; None where packing raises. */
  method RuntimeTags(f: Floats, tags: seq<IRTag>) returns (out: Option<seq<byte>>)
    ensures out.Some? <==> TagsPack(f, tags)
    ensures out.Some? ==> out.value == TagSection(f, tags)
  {
    hide U32, TagBytes, InitialData, Concat;
    if |tags| > UINT32_MAX {
      return None;
    }
    NoPieces();
    var bytes := Le32(|tags|);
    ghost var rows: seq<seq<byte>> := [];
    var n := 0;
    while n < |tags|
      invariant 0 <= n <= |tags| && |rows| == n && bytes == Le32(|tags|) + Concat(rows)
      invariant forall k | 0 <= k < n ::
                  InitialData(f, tags[k]).Some? && rows[k] == TagBytes(tags[k], InitialData(f, tags[k]).value)
    {
      var t := tags[n];
      var d := InitialData(f, t);
      if d.None? {
        return None;
      }
      ConcatSnoc(rows, TagBytes(t, d.value));
      assert Le32(|tags|) + Concat(rows) + TagBytes(t, d.value) == Le32(|tags|) + (Concat(rows) + TagBytes(t, d.value));
      rows := rows + [TagBytes(t, d.value)];
      bytes := bytes + TagBytes(t, d.value);
      n := n + 1;
    }
    assert rows == TagRows(f, tags);
    out := Some(bytes);
  }

  lemma {:induction false} TagRow(t: seq<byte>, k: nat, tag: IRTag, d: Data)
    requires 24 + k * 20 <= |t| && t[4 + k * 20..24 + k * 20] == TagBytes(tag, d)
    ensures t[4 + k * 20] == DataTypeCode(tag.dataType) && t[5 + k * 20] == StorageCode(tag.storage)
            && t[7 + k * 20] == 0
    ensures U32(t, 8 + k * 20) == Words(d).0 && U32(t, 12 + k * 20) == Words(d).1
  {
    var row, at := TagBytes(tag, d), 4 + k * 20;
    var head: seq<byte> := [DataTypeCode(tag.dataType), StorageCode(tag.storage), if tag.retentive then 1 else 0, 0];
    var zeros: seq<byte> := [0, 0, 0, 0, 0, 0, 0, 0];
    assert row == head + Le32(Words(d).0) + (Le32(Words(d).1) + zeros);
    FieldOf(head, Le32(Words(d).0), Le32(Words(d).1) + zeros);
    assert row == (head + Le32(Words(d).0)) + Le32(Words(d).1) + zeros;
    FieldOf(head + Le32(Words(d).0), Le32(Words(d).1), zeros);
    assert forall j | 0 <= j < 20 :: t[at + j] == row[j];
    assert t[at] == head[0] && t[at + 1] == head[1] && t[at + 3] == head[3];
  }

  /** The runtime reads the tags back, each with the value it starts with. */
  lemma {:induction false} TagsRoundTrip(f: Floats, tags: seq<IRTag>)
    requires TagsPack(f, tags)
    ensures var t := TagSection(f, tags);
            TagsOk(t) && TagsOf(t) == InitialTags(f, tags) && DeclsOf(t) == Decls(tags)
  {
    hide U32, TagBytes;
    var rows := TagRows(f, tags);
    var t := TagSection(f, tags);
    EqualWidth(rows, 20);
    CountFirst(|tags|, Concat(rows));
    assert TableOk(t, 20);
    forall k | 0 <= k < |tags|
      ensures DeclOk(DeclAt(t, k)) && t[7 + k * 20] == 0
      ensures TagsOf(t)[k] == InitialTags(f, tags)[k] && DeclsOf(t)[k] == Decls(tags)[k]
    {
      RowAt(rows, 20, k);
      assert t[4 + k * 20..24 + k * 20] == rows[k];
      TagRow(t, k, tags[k], InitialData(f, tags[k]).value);
      RowData(f, t, k, tags[k]);
    }
  }

  lemma {:induction false} CountFirst(n: uint32, rest: seq<byte>)
    ensures U32(Le32(n) + rest, 0) == n
  {
    assert Le32(n) + rest == [] + Le32(n) + rest;
    FieldOf([], Le32(n), rest);
  }

  lemma {:induction false} RowData(f: Floats, t: seq<byte>, k: nat, tag: IRTag)
    requires 24 + k * 20 <= |t| && InitialData(f, tag).Some?
    requires t[4 + k * 20] == DataTypeCode(tag.dataType)
    requires U32(t, 8 + k * 20) == Words(InitialData(f, tag).value).0
             && U32(t, 12 + k * 20) == Words(InitialData(f, tag).value).1
    ensures DataAt(t, k) == InitialData(f, tag).value
  {
    hide U32;
  }

  // ----- rung records -----

  predicate RungsPack(rungs: seq<IRRung>) {
    |rungs| <= UINT32_MAX && forall k | 0 <= k < |rungs| ::
          rungs[k].routine <= UINT32_MAX && rungs[k].start <= UINT32_MAX && rungs[k].count <= UINT32_MAX
  }

  function RecordsOf(rungs: seq<IRRung>): seq<RungRecord>
    requires RungsPack(rungs)
  {
    seq(|rungs|, k requires 0 <= k < |rungs| => RungRecord(rungs[k].routine, rungs[k].start, rungs[k].count))
  }

  function RungBytes(r: IRRung): (s: seq<byte>)
    requires r.routine <= UINT32_MAX && r.start <= UINT32_MAX && r.count <= UINT32_MAX
    ensures |s| == 12
  {
    Le32(r.routine) + Le32(r.start) + Le32(r.count)
  }

  function RungRows(rungs: seq<IRRung>): seq<seq<byte>>
    requires RungsPack(rungs)
  {
    seq(|rungs|, k requires 0 <= k < |rungs| => RungBytes(rungs[k]))
  }

  function RungSection(rungs: seq<IRRung>): seq<byte>
    requires RungsPack(rungs)
  {
    Le32(|rungs|) + Concat(RungRows(rungs))
  }

  method RuntimeRungs(rungs: seq<IRRung>) returns (out: Option<seq<byte>>)
    ensures out.Some? <==> RungsPack(rungs)
    ensures out.Some? ==> out.value == RungSection(rungs)
  {
    hide U32, RungBytes, Concat;
    if |rungs| > UINT32_MAX {
      return None;
    }
    NoPieces();
    var bytes := Le32(|rungs|);
    ghost var rows: seq<seq<byte>> := [];
    var n := 0;
    while n < |rungs|
      invariant 0 <= n <= |rungs| && |rows| == n && bytes == Le32(|rungs|) + Concat(rows)
      invariant forall k | 0 <= k < n ::
                  rungs[k].routine <= UINT32_MAX && rungs[k].start <= UINT32_MAX && rungs[k].count <= UINT32_MAX
      invariant forall k | 0 <= k < n :: rows[k] == RungBytes(rungs[k])
    {
      var r := rungs[n];
      if r.routine > UINT32_MAX || r.start > UINT32_MAX || r.count > UINT32_MAX {
        return None;
      }
      ConcatSnoc(rows, RungBytes(r));
      assert Le32(|rungs|) + Concat(rows) + RungBytes(r) == Le32(|rungs|) + (Concat(rows) + RungBytes(r));
      rows := rows + [RungBytes(r)];
      bytes := bytes + RungBytes(r);
      n := n + 1;
    }
    assert rows == RungRows(rungs);
    out := Some(bytes);
  }

  lemma {:induction false} RungRow(t: seq<byte>, k: nat, r: IRRung)
    requires r.routine <= UINT32_MAX && r.start <= UINT32_MAX && r.count <= UINT32_MAX
    requires 16 + k * 12 <= |t| && t[4 + k * 12..16 + k * 12] == RungBytes(r)
    ensures RungAt(t, k) == RungRecord(r.routine, r.start, r.count)
  {
    var a, b, c := Le32(r.routine), Le32(r.start), Le32(r.count);
    assert RungBytes(r) == [] + a + (b + c) && RungBytes(r) == a + b + c && RungBytes(r) == (a + b) + c + [];
    FieldOf([], a, b + c);
    FieldOf(a, b, c);
    FieldOf(a + b, c, []);
    assert forall j | 0 <= j < 12 :: t[4 + k * 12 + j] == RungBytes(r)[j];
  }

  /** The runtime reads the rungs back. */
  lemma {:induction false} RungsRoundTrip(rungs: seq<IRRung>)
    requires RungsPack(rungs)
    ensures var t := RungSection(rungs); TableOk(t, 12) && RungsOf(t) == RecordsOf(rungs)
  {
    hide U32, RungBytes;
    var rows := RungRows(rungs);
    var t := RungSection(rungs);
    EqualWidth(rows, 12);
    CountFirst(|rungs|, Concat(rows));
    assert TableOk(t, 12);
    forall k | 0 <= k < |rungs|
      ensures RungsOf(t)[k] == RecordsOf(rungs)[k]
    {
      RowAt(rows, 12, k);
      assert t[4 + k * 12..16 + k * 12] == rows[k];
      RungRow(t, k, rungs[k]);
    }
  }

  // ----- the whole image -----

  /** The sixteen payloads in the order of their numbers; all but the stream, the runtime tags and
   *  the runtime rungs are texts the runtime does not read. */
  function Payloads(texts: seq<seq<byte>>, c: Content): (p: seq<seq<byte>>)
    requires |texts| == SECTION_COUNT - 3
    ensures |p| == SECTION_COUNT
    ensures p[INSTRUCTION_STREAM - 1] == c.code && p[RUNTIME_TAGS - 1] == c.tags && p[RUNTIME_RUNGS - 1] == c.rungs
  {
    texts[..INSTRUCTION_STREAM - 1] + [c.code] + texts[INSTRUCTION_STREAM - 1..] + [c.tags, c.rungs]
  }

  function Start(payloads: seq<seq<byte>>, k: nat): nat
    requires k <= |payloads|
  {
    DIRECTORY_END + |Concat(payloads[..k])|
  }

  function Total(payloads: seq<seq<byte>>): nat {
    DIRECTORY_END + |Concat(payloads)|
  }

  function DescriptorBytes(id: uint16, at: uint32, size: uint32): (s: seq<byte>)
    ensures |s| == DESCRIPTOR_SIZE
  {
    Le16(id) + [0, 0] + Le32(at) + Le32(size) + [0, 0, 0, 0, 0, 0, 0, 0]
  }

  /** What fits the fields of the descriptors. */
  predicate Sized(payloads: seq<seq<byte>>) {
    |payloads| == SECTION_COUNT && Total(payloads) <= UINT32_MAX
  }

  lemma {:induction false} StartsFit(payloads: seq<seq<byte>>, k: nat)
    requires k < |payloads|
    ensures Start(payloads, k) + |payloads[k]| == Start(payloads, k + 1) <= Total(payloads)
  {
    PieceAt(payloads, k);
  }

  function DescriptorOf(payloads: seq<seq<byte>>, k: nat): (s: seq<byte>)
    requires Sized(payloads) && k < |payloads|
    ensures |s| == DESCRIPTOR_SIZE
  {
    StartsFit(payloads, k);
    DescriptorBytes(k + 1, Start(payloads, k), |payloads[k]|)
  }

  function DirectoryRows(payloads: seq<seq<byte>>, count: nat): seq<seq<byte>>
    requires Sized(payloads) && count <= |payloads|
  {
    seq(count, k requires 0 <= k < count => DescriptorOf(payloads, k))
  }

  /** Magic, version, header size, total, profile, ABI and section count. */
  function Front(total: uint32): (s: seq<byte>)
    ensures |s| == 20
  {
    MAGIC + [2, 0, 72, 0] + Le32(total) + [1, 0, 0, 0, 2, 0, 16, 0]
  }

  function Header(total: uint32, uid: seq<byte>, digest: seq<byte>, crc: uint32): (s: seq<byte>)
    requires |uid| == 16 && |digest| == 32
    ensures |s| == HEADER_SIZE && s[..20] == Front(total) && s[CRC_AT..] == Le32(crc)
  {
    Front(total) + uid + digest + Le32(crc)
  }

  function WithCrc(payloads: seq<seq<byte>>, uid: seq<byte>, digest: seq<byte>, crc: uint32): (x: seq<byte>)
    requires Sized(payloads) && |uid| == 16 && |digest| == 32
  {
    Header(Total(payloads), uid, digest, crc) + Concat(DirectoryRows(payloads, SECTION_COUNT)) + Concat(payloads)
  }

  /** The image of these payloads: the checksum is that of the image with a zero checksum. */
  function ImageOf(payloads: seq<seq<byte>>, uid: seq<byte>, digest: seq<byte>): seq<byte>
    requires Sized(payloads) && |uid| == 16 && |digest| == 32
  {
    WithCrc(payloads, uid, digest, Checksum(CRC32_POLYNOMIAL, WithCrc(payloads, uid, digest, 0)))
  }

  lemma {:induction false} WithCrcSize(payloads: seq<seq<byte>>, uid: seq<byte>, digest: seq<byte>, crc: uint32)
    requires Sized(payloads) && |uid| == 16 && |digest| == 32
    ensures |WithCrc(payloads, uid, digest, crc)| == Total(payloads)
  {
    EqualWidth(DirectoryRows(payloads, SECTION_COUNT), DESCRIPTOR_SIZE);
  }

  /** Patching the checksum of an image. */
  lemma {:induction false} PatchCrc(
      payloads: seq<seq<byte>>, uid: seq<byte>, digest: seq<byte>, old0: uint32, crc: uint32)
    requires Sized(payloads) && |uid| == 16 && |digest| == 32
    ensures var x := WithCrc(payloads, uid, digest, old0);
            |x| >= HEADER_SIZE && x[..CRC_AT] + Le32(crc) + x[HEADER_SIZE..] == WithCrc(payloads, uid, digest, crc)
  {
  }

  predicate Assembles(f: Floats, ir: IRProgram) {
    (forall i | i in ir.instructions :: Encodes(i)) && TagsPack(f, ir.tags) && RungsPack(ir.rungs)
  }

  lemma {:induction false} EncodesEncodable(ins: seq<IRInstr>)
    requires forall i | i in ins :: Encodes(i)
    ensures Encodable(AssembleAll(ins))
  {
    hide Packs, Assemble;
    forall i | i in AssembleAll(ins)
      ensures Packs(i)
    {
      var k :| 0 <= k < |ins| && AssembleAll(ins)[k] == i;
      assert Encodes(ins[k]);
    }
  }

  /** The sections the runtime reads. */
  function Sections(f: Floats, ir: IRProgram): (c: Content)
    requires Assembles(f, ir)
    ensures Holds(f, ir, c)
  {
    EncodesEncodable(ir.instructions);
    Content(TagSection(f, ir.tags), EncodeAll(AssembleAll(ir.instructions)), RungSection(ir.rungs))
  }

  /** Everything packs, and the image is addressed by 32 bits. */
  predicate Buildable(f: Floats, ir: IRProgram, texts: seq<seq<byte>>)
    requires |texts| == SECTION_COUNT - 3
  {
    Assembles(f, ir) && Sized(Payloads(texts, Sections(f, ir)))
  }

  /** The sections of a program, or None where packing raises. */
  method Assembled(f: Floats, ir: IRProgram) returns (c: Option<Content>)
    ensures c.Some? <==> Assembles(f, ir)
    ensures c.Some? ==> Holds(f, ir, c.value)
  {
    var code := EncodeStream(ir.instructions);
    var tags := RuntimeTags(f, ir.tags);
    var rungs := RuntimeRungs(ir.rungs);
    if code.None? || tags.None? || rungs.None? {
      return None;
    }
    c := Some(Content(tags.value, code.value, rungs.value));
  }

  /** The sections are those of the program. */
  predicate Holds(f: Floats, ir: IRProgram, c: Content) {
    && TagsPack(f, ir.tags) && RungsPack(ir.rungs) && Encodable(AssembleAll(ir.instructions))
    && c == Content(TagSection(f, ir.tags), EncodeAll(AssembleAll(ir.instructions)), RungSection(ir.rungs))
  }

  /** Reading the sections gives back every record of the stream, every tag with its initial value,
   *  and every rung. */
  lemma {:induction false} HeldSectionsRead(f: Floats, ir: IRProgram, c: Content)
    requires Holds(f, ir, c)
    ensures Parse(c.code) == Some(AssembleAll(ir.instructions))
    ensures TagsOk(c.tags) && TagsOf(c.tags) == InitialTags(f, ir.tags) && DeclsOf(c.tags) == Decls(ir.tags)
    ensures TableOk(c.rungs, 12) && RungsOf(c.rungs) == RecordsOf(ir.rungs)
  {
    hide TagSection, RungSection, EncodeAll, TagsOk;
    ParseStream(AssembleAll(ir.instructions));
    TagsRoundTrip(f, ir.tags);
    RungsRoundTrip(ir.rungs);
  }

  /** What `build` produced. */
  predicate Built(
      f: Floats, ir: IRProgram, texts: seq<seq<byte>>, uid: seq<byte>, digest: seq<byte>, x: seq<byte>, c: Content)
    requires |texts| == SECTION_COUNT - 3 && |uid| == 16 && |digest| == 32
  {
    Holds(f, ir, c) && Sized(Payloads(texts, c)) && x == ImageOf(Payloads(texts, c), uid, digest)
  }

  /** The image of a program that can be built. */
  function ImageFor(f: Floats, ir: IRProgram, texts: seq<seq<byte>>, uid: seq<byte>, digest: seq<byte>): (x: seq<byte>)
    requires |texts| == SECTION_COUNT - 3 && |uid| == 16 && |digest| == 32 && Buildable(f, ir, texts)
    ensures Built(f, ir, texts, uid, digest, x, Sections(f, ir))
  {
    ImageOf(Payloads(texts, Sections(f, ir)), uid, digest)
  }

  /** `build`; None where packing raises. The texts and the digest are given. */
  method Build(
      f: Floats, ir: IRProgram, texts: seq<seq<byte>>, uid: seq<byte>, digest: seq<byte>)
      returns (raw: Option<seq<byte>>)
    requires |texts| == SECTION_COUNT - 3 && |uid| == 16 && |digest| == 32
    ensures raw.Some? <==> Buildable(f, ir, texts)
    ensures raw.Some? ==> raw.value == ImageFor(f, ir, texts, uid, digest)
  {
    hide Assembles, Header, DescriptorBytes, Checksum;
    var content := Assembled(f, ir);
    if content.None? {
      return None;
    }
    assert content.value == Sections(f, ir);
    var payloads := Payloads(texts, content.value);
    var body := BuildBody(payloads);
    if body.None? {
      return None;
    }
    var zeroed := Header(Total(payloads), uid, digest, 0) + body.value;
    assert zeroed == WithCrc(payloads, uid, digest, 0);
    var crc := ComputeCrc(CRC32_POLYNOMIAL, zeroed);
    PatchCrc(payloads, uid, digest, 0, crc);
    raw := Some(zeroed[..CRC_AT] + Le32(crc) + zeroed[HEADER_SIZE..]);
  }

  /** The descriptors and the payloads, laid out one after the other. */
  method BuildBody(payloads: seq<seq<byte>>) returns (body: Option<seq<byte>>)
    requires |payloads| == SECTION_COUNT
    ensures body.Some? <==> Sized(payloads)
    ensures body.Some? ==> body.value == Concat(DirectoryRows(payloads, SECTION_COUNT)) + Concat(payloads)
  {
    hide DescriptorBytes, Concat;
    var offset := DIRECTORY_END;
    var desc: seq<byte>, payload: seq<byte> := [], [];
    var n := 0;
    NothingYet(payloads);
    while n < SECTION_COUNT
      invariant 0 <= n <= SECTION_COUNT && offset == Start(payloads, n) && payload == Concat(payloads[..n])
      invariant Sized(payloads) ==> desc == Concat(DirectoryRows(payloads, n))
    {
      var b := payloads[n];
      StartsFit(payloads, n);
      if offset > UINT32_MAX || |b| > UINT32_MAX {
        return None;
      }
      assert payloads[..n + 1] == payloads[..n] + [b];
      ConcatSnoc(payloads[..n], b);
      if Sized(payloads) {
        assert DirectoryRows(payloads, n + 1) == DirectoryRows(payloads, n) + [DescriptorOf(payloads, n)];
        ConcatSnoc(DirectoryRows(payloads, n), DescriptorOf(payloads, n));
      }
      desc := desc + DescriptorBytes(n + 1, offset, |b|);
      payload := payload + b;
      offset := offset + |b|;
      n := n + 1;
    }
    assert payloads[..n] == payloads;
    if offset > UINT32_MAX {
      return None;
    }
    body := Some(desc + payload);
  }

  lemma {:induction false} NothingYet(payloads: seq<seq<byte>>)
    ensures Start(payloads, 0) == DIRECTORY_END && Concat(payloads[..0]) == []
    ensures Sized(payloads) ==> Concat(DirectoryRows(payloads, 0)) == []
  {
  }
}
