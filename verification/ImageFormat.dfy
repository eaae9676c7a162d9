/** The program image: a header, sixteen section descriptors and the sections; what the validator
 *  of the runtime demands of it, and what an accepted image is worth. */
module ImageFormat {
  import opened Bytes
  import opened Crc
  import opened Instructions
  import opened Brackets
  import opened Admission
  import opened Semantics
  import opened Soundness
  import opened Machine
  import opened Safety

  const HEADER_SIZE := 72
  const DESCRIPTOR_SIZE := 20
  const SECTION_COUNT := 16
  const DIRECTORY_END := 392
  const CRC_AT := 68

  const INSTRUCTION_STREAM := 8
  const RUNTIME_TAGS := 15
  const RUNTIME_RUNGS := 16

  const MAGIC: seq<byte> := [0x52, 0x53, 0x4d, 0x31]
  const NO_ROUTINE: uint32 := 0xffff_ffff

  datatype ImageStatus =
    | IMAGE_OK | BAD_IMAGE | BAD_CRC
    | UNSUPPORTED_VERSION | UNSUPPORTED_PROFILE | UNSUPPORTED_ABI | UNSUPPORTED_OPCODE

  // ----- the directory -----

  datatype Section = Section(id: uint16, at: uint32, size: uint32)

  function DescriptorAt(x: seq<byte>, k: nat): Section
    requires HEADER_SIZE + DESCRIPTOR_SIZE * (k + 1) <= |x|
  {
    var d := HEADER_SIZE + DESCRIPTOR_SIZE * k;
    Section(U16(x, d), U32(x, d + 4), U32(x, d + 8))
  }

  function Descriptors(x: seq<byte>, count: nat): seq<Section>
    requires HEADER_SIZE + DESCRIPTOR_SIZE * count <= |x|
  {
    seq(count, k requires 0 <= k < count => DescriptorAt(x, k))
  }

  predicate Inside(s: Section, n: nat) {
    s.at <= n && s.size <= n - s.at
  }

  predicate Overlap(s: Section, t: Section) {
    s.at < t.at + t.size && t.at < s.at + s.size
  }

  predicate Apart(s: Section, t: Section) {
    s.id != t.id && !Overlap(s, t)
  }

  predicate SectionOk(s: Section, n: nat) {
    1 <= s.id <= SECTION_COUNT && s.at >= DIRECTORY_END && Inside(s, n)
  }

  predicate DirectoryOk(ds: seq<Section>, n: nat) {
    && |ds| == SECTION_COUNT
    && forall k | 0 <= k < |ds| :: SectionOk(ds[k], n) && forall j | 0 <= j < k :: Apart(ds[k], ds[j])
  }

  /** The search of `sections` through the descriptors: it stops at the first one out of bounds. */
  function Lookup(ds: seq<Section>, x: seq<byte>, wanted: nat): Option<seq<byte>> {
    if ds == [] || !Inside(ds[0], |x|) then None
    else if ds[0].id == wanted then Some(x[ds[0].at..ds[0].at + ds[0].size])
    else Lookup(ds[1..], x, wanted)
  }

  /** `sections`. */
  function SectionOf(x: seq<byte>, wanted: nat): Option<seq<byte>> {
    if |x| < HEADER_SIZE || HEADER_SIZE + DESCRIPTOR_SIZE * U16(x, 18) > |x| then None
    else Lookup(Descriptors(x, U16(x, 18)), x, wanted)
  }

  function UpTo(n: nat): (s: set<int>)
    ensures |s| == n && forall w :: w in s <==> 1 <= w <= n
  {
    if n == 0 then {} else UpTo(n - 1) + {n}
  }

  lemma {:induction false} AllPresent(ids: seq<int>, n: nat)
    requires |ids| == n && (forall k | 0 <= k < n :: 1 <= ids[k] <= n)
             && forall j, k | 0 <= j < k < n :: ids[j] != ids[k]
    ensures forall w | 1 <= w <= n :: w in ids
  {
    var have := set w | w in ids;
    var all := UpTo(n);
    DistinctSize(ids);
    assert have <= all && all == have + (all - have);
    assert |all - have| == 0;
    forall w | 1 <= w <= n
      ensures w in ids
    {
      assert w in all && w in have;
    }
  }

  lemma {:induction false} DistinctSize(ids: seq<int>)
    requires forall j, k | 0 <= j < k < |ids| :: ids[j] != ids[k]
    ensures |set w | w in ids| == |ids|
    decreases |ids|
  {
    if ids != [] {
      DistinctSize(ids[1..]);
      assert (set w | w in ids) == {ids[0]} + set w | w in ids[1..];
    }
  }

  /** Sixteen accepted descriptors are a permutation of the sixteen section numbers. */
  lemma {:induction false} EverySectionIsThere(ds: seq<Section>, n: nat, wanted: nat)
    requires DirectoryOk(ds, n) && 1 <= wanted <= SECTION_COUNT
    ensures exists k :: 0 <= k < |ds| && ds[k].id == wanted
  {
    var ids := seq(|ds|, k requires 0 <= k < |ds| => ds[k].id as int);
    forall j, k | 0 <= j < k < |ids|
      ensures ids[j] != ids[k]
    {
      assert Apart(ds[k], ds[j]);
    }
    AllPresent(ids, SECTION_COUNT);
    assert wanted in ids;
    var k :| 0 <= k < |ids| && ids[k] == wanted;
    assert ds[k].id == wanted;
  }

  /** The search finds the section of a number wherever its descriptor stands. */
  lemma {:induction false} LookupFinds(ds: seq<Section>, x: seq<byte>, k: nat)
    requires k < |ds| && Inside(ds[k], |x|) && (forall j | 0 <= j < k :: Inside(ds[j], |x|))
             && forall j | 0 <= j < k :: ds[j].id != ds[k].id
    ensures Lookup(ds, x, ds[k].id) == Some(x[ds[k].at..ds[k].at + ds[k].size])
    decreases k
  {
    if k > 0 {
      LookupFinds(ds[1..], x, k - 1);
    }
  }

  /** In an accepted directory every section is found, and found at its own descriptor. */
  lemma {:induction false} SectionsAreFound(ds: seq<Section>, x: seq<byte>, wanted: nat)
    requires DirectoryOk(ds, |x|) && 1 <= wanted <= SECTION_COUNT
    ensures Lookup(ds, x, wanted).Some?
    ensures forall k | 0 <= k < |ds|
            && ds[k].id == wanted :: Lookup(ds, x, wanted).value == x[ds[k].at..ds[k].at + ds[k].size]
  {
    EverySectionIsThere(ds, |x|, wanted);
    forall k | 0 <= k < |ds| && ds[k].id == wanted
      ensures Lookup(ds, x, wanted) == Some(x[ds[k].at..ds[k].at + ds[k].size])
    {
      assert forall j | 0 <= j < k :: Apart(ds[k], ds[j]);
      LookupFinds(ds, x, k);
    }
  }

  // ----- header and checksum -----

  /** The checks of the header, in the order in which they are made. */
  function HeaderStatus(x: seq<byte>): ImageStatus {
    if |x| < HEADER_SIZE || x[..4] != MAGIC then BAD_IMAGE
    else if x[4] != 2 then UNSUPPORTED_VERSION
    else if U16(x, 6) != HEADER_SIZE || U32(x, 8) != |x| then BAD_IMAGE
    else if U32(x, 12) != 1 then UNSUPPORTED_PROFILE
    else if U16(x, 16) != 2 then UNSUPPORTED_ABI
    else if U16(x, 18) != SECTION_COUNT || |x| < DIRECTORY_END then BAD_IMAGE
    else IMAGE_OK
  }

  /** The bytes under the checksum: the stored checksum itself counts as zero. */
  function Covered(x: seq<byte>): seq<byte>
    requires |x| >= HEADER_SIZE
  {
    x[..CRC_AT] + [0, 0, 0, 0] + x[HEADER_SIZE..]
  }

  predicate CrcOk(x: seq<byte>)
    requires |x| >= HEADER_SIZE
  {
    U32(x, CRC_AT) == Checksum(CRC32_POLYNOMIAL, Covered(x))
  }

  // ----- the tables -----

  /** A count followed by that many records. */
  predicate TableOk(t: seq<byte>, width: nat) {
    |t| >= 4 && |t| == 4 + U32(t, 0) * width
  }

  function DeclAt(t: seq<byte>, k: nat): Decl
    requires 24 + k * 20 <= |t|
  {
    Decl(t[4 + k * 20], t[5 + k * 20])
  }

  predicate TagsOk(t: seq<byte>) {
    TableOk(t, 20) && forall k | 0 <= k < U32(t, 0) :: DeclOk(DeclAt(t, k)) && t[7 + k * 20] == 0
  }

  function DeclsOf(t: seq<byte>): (decls: seq<Decl>)
    requires TableOk(t, 20)
    ensures |decls| == U32(t, 0)
  {
    seq(U32(t, 0) as int, k requires 0 <= k < U32(t, 0) as int => DeclAt(t, k))
  }

  /** The initial value of a tag, as `load_image` reads it. */
  function DataAt(t: seq<byte>, k: nat): Data
    requires 24 + k * 20 <= |t|
  {
    var at := 4 + k * 20;
    if t[at] == 1 then BoolD(U32(t, at + 4) != 0)
    else if t[at] == 2 then DintD(Signed(U32(t, at + 4)))
    else if t[at] == 3 then RealD(U32(t, at + 4))
    else if t[at] == 4 then TimerD(Signed(U32(t, at + 4)), Signed(U32(t, at + 8)), false, false, false)
    else CounterD(Signed(U32(t, at + 4)), Signed(U32(t, at + 8)), false, false, false, false, false)
  }

  function TagsOf(t: seq<byte>): (tags: seq<Tag>)
    requires TableOk(t, 20)
    ensures |tags| == U32(t, 0)
  {
    seq(U32(t, 0) as int, k requires 0 <= k < U32(t, 0) as int => Tag(t[5 + k * 20], DataAt(t, k)))
  }

  datatype RungRecord = RungRecord(routine: uint32, start: uint32, count: uint32)

  function RungAt(t: seq<byte>, k: nat): RungRecord
    requires 16 + k * 12 <= |t|
  {
    RungRecord(U32(t, 4 + k * 12), U32(t, 8 + k * 12), U32(t, 12 + k * 12))
  }

  function RungsOf(t: seq<byte>): (rungs: seq<RungRecord>)
    requires TableOk(t, 12)
    ensures |rungs| == U32(t, 0)
  {
    seq(U32(t, 0) as int, k requires 0 <= k < U32(t, 0) as int => RungAt(t, k))
  }

  function CountsOf(rungs: seq<RungRecord>): seq<nat> {
    seq(|rungs|, k requires 0 <= k < |rungs| => rungs[k].count)
  }

  /** The routine of a rung is the routine of the one before it or the next; the first is 0. */
  predicate RoutineFollows(previous: Option<uint32>, routine: uint32) {
    routine != NO_ROUTINE && (match previous case None => routine == 0 case Some(q) => routine == q || routine == q + 1)
  }

  /** The records from here on tile the instructions from `expected` to the end. */
  predicate RungRecordsOk(rungs: seq<RungRecord>, previous: Option<uint32>, expected: nat, instructions: nat)
    decreases |rungs|
  {
    if rungs == [] then expected == instructions
    else
      var r := rungs[0];
      && RoutineFollows(previous, r.routine)
      && r.start == expected && 0 < r.count && expected + r.count <= instructions
      && RungRecordsOk(rungs[1..], Some(r.routine), expected + r.count, instructions)
  }

  // ----- what is accepted -----

  /** The three sections the runtime reads. */
  datatype Content = Content(tags: seq<byte>, code: seq<byte>, rungs: seq<byte>)

  function ContentOf(x: seq<byte>): Option<Content> {
    var tags, code, rungs := SectionOf(x, RUNTIME_TAGS), SectionOf(x, INSTRUCTION_STREAM), SectionOf(x, RUNTIME_RUNGS);
    if tags.Some? && code.Some? && rungs.Some? then Some(Content(tags.value, code.value, rungs.value)) else None
  }

  predicate StreamBytesOk(decls: seq<Decl>, code: seq<byte>) {
    Parse(code).Some? && StreamOk(decls, Parse(code).value)
  }

  predicate RungBytesOk(rungs: seq<byte>, code: seq<Instr>) {
    && TableOk(rungs, 12)
    && RungRecordsOk(RungsOf(rungs), None, 0, |code|)
    && RungsClose(code, CountsOf(RungsOf(rungs)))
  }

  predicate ContentOk(c: Content) {
    && TagsOk(c.tags)
    && StreamBytesOk(DeclsOf(c.tags), c.code)
    && RungBytesOk(c.rungs, Parse(c.code).value)
  }

  predicate DirectoryOfOk(x: seq<byte>)
    requires |x| >= DIRECTORY_END
  {
    DirectoryOk(Descriptors(x, SECTION_COUNT), |x|)
  }

  /** What `rsm_runtime_validate_image` accepts. */
  predicate ImageOk(x: seq<byte>) {
    && HeaderStatus(x) == IMAGE_OK
    && DirectoryOfOk(x)
    && CrcOk(x)
    && ContentOf(x).Some? && ContentOk(ContentOf(x).value)
  }

  /** The program an accepted image holds. */
  function ProgramOf(c: Content): Program
    requires TableOk(c.tags, 20) && Parse(c.code).Some? && TableOk(c.rungs, 12)
  {
    Program(DeclsOf(c.tags), Parse(c.code).value, CountsOf(RungsOf(c.rungs)))
  }

  lemma {:induction false} ContentIsThere(x: seq<byte>)
    requires HeaderStatus(x) == IMAGE_OK && DirectoryOfOk(x)
    ensures ContentOf(x).Some?
  {
    hide Lookup;
    var ds := Descriptors(x, SECTION_COUNT);
    SectionsAreFound(ds, x, RUNTIME_TAGS);
    SectionsAreFound(ds, x, INSTRUCTION_STREAM);
    SectionsAreFound(ds, x, RUNTIME_RUNGS);
  }

  lemma {:induction false} CountsArePositive(
      rungs: seq<RungRecord>, previous: Option<uint32>, expected: nat, instructions: nat)
    requires RungRecordsOk(rungs, previous, expected, instructions)
    ensures forall n | n in CountsOf(rungs) :: n > 0
    decreases |rungs|
  {
    if rungs != [] {
      CountsArePositive(rungs[1..], Some(rungs[0].routine), expected + rungs[0].count, instructions);
      assert CountsOf(rungs) == [rungs[0].count as nat] + CountsOf(rungs[1..]);
    }
  }

  /** The image check implies the program check on which soundness rests. */
  lemma {:induction false} AcceptedContentIsProgramOk(c: Content)
    requires ContentOk(c)
    ensures ProgramOk(ProgramOf(c))
  {
    hide StreamOk, RungsClose, Parse;
    CountsArePositive(RungsOf(c.rungs), None, 0, |Parse(c.code).value|);
    forall d | d in DeclsOf(c.tags)
      ensures DeclOk(d)
    {
      var k :| 0 <= k < U32(c.tags, 0) && DeclsOf(c.tags)[k] == d;
    }
  }

  lemma {:induction false} SlotsInRange(decls: seq<Decl>, code: seq<Instr>)
    requires forall i | i in code :: InstrOk(decls, i) && i.slot <= INT32_MAX
    ensures forall k | 0 <= k < |Slots(code)| :: 0 <= Slots(code)[k] <= UINT32_MAX
    decreases |code|
  {
    if code != [] {
      assert code[0] in code && InstrOk(decls, code[0]);
      SlotsInRange(decls, code[1..]);
    }
  }

  lemma {:induction false} ParsedSlots(s: seq<byte>)
    requires Parse(s).Some?
    ensures forall i | i in Parse(s).value :: INT32_MIN <= i.slot <= INT32_MAX
    decreases |s|
  {
    if s != [] {
      ParsedSlots(s[Size(ReadInstr(s))..]);
    }
  }

  lemma {:induction false} ProgramSlots(c: Content)
    requires ContentOk(c)
    ensures var p := ProgramOf(c); forall k | 0 <= k < |Slots(p.code)| :: 0 <= Slots(p.code)[k] <= UINT32_MAX
  {
    hide Slots, Parse, InstrOk, RungBytesOk;
    ParsedSlots(c.code);
    SlotsInRange(DeclsOf(c.tags), Parse(c.code).value);
  }

  lemma {:induction false} FreshHasSlots(slots: seq<int>)
    requires forall k | 0 <= k < |slots| :: 0 <= slots[k] <= UINT32_MAX
    ensures HasSlots(FreshStates(slots), slots)
  {
  }

  lemma {:induction false} TableIsTyped(t: seq<byte>)
    requires TagsOk(t)
    ensures WellTyped(DeclsOf(t), Store(TagsOf(t), seq(|TagsOf(t)|, _ => None), []))
  {
    forall k | 0 <= k < |DeclsOf(t)|
      ensures TypeCode(TagsOf(t)[k].data) == DeclsOf(t)[k].typ
    {
      assert DeclOk(DeclAt(t, k));
    }
  }

  /** A loaded image starts in the invariant. */
  lemma {:induction false} LoadedIsSound(c: Content)
    requires ContentOk(c)
    ensures var p := ProgramOf(c);
            && (forall k | 0 <= k < |Slots(p.code)| :: 0 <= Slots(p.code)[k] <= UINT32_MAX)
            && Invariant(p, Initial(p, TagsOf(c.tags)))
  {
    var p := ProgramOf(c);
    AcceptedContentIsProgramOk(c);
    ProgramSlots(c);
    RungsFillCode(p);
    FreshHasSlots(Slots(p.code));
    TableIsTyped(c.tags);
    hide ContentOk, ProgramOk, Slots, DeclsOf, TagsOf, HasSlots, FreshStates, AtBoundary;
  }

  lemma {:induction false} RungsFillCode(p: Program)
    requires ProgramOk(p)
    ensures AtBoundary(p.counts, |p.code|)
  {
    RungsFill(p.code, p.counts);
  }

  /** Whatever the host does with a loaded image, only the allowed faults are ever recorded. */
  lemma {:induction false} LoadedImagesStaySound(x: seq<byte>, reals: RealOps, calls: seq<Call>)
    requires ImageOk(x)
    ensures var c := ContentOf(x).value;
            var p := ProgramOf(c);
            && (forall k | 0 <= k < |Slots(p.code)| :: 0 <= Slots(p.code)[k] <= UINT32_MAX)
            && CoilsHaveOperands(p.code) && Shape(p, Initial(p, TagsOf(c.tags)))
            && Invariant(p, Calls(p, reals, Initial(p, TagsOf(c.tags)), calls))
  {
    var c := ContentOf(x).value;
    LoadedIsSound(c);
    AcceptedContentIsProgramOk(c);
    AcceptedCoilsHaveOperands(ProgramOf(c));
    hide Calls, ContentOk;
    AcceptedProgramsStaySound(ProgramOf(c), reals, Initial(ProgramOf(c), TagsOf(c.tags)), calls);
  }

  // ----- damage -----

  /** Damage to at most four consecutive bytes after the stored checksum is always detected. */
  lemma {:induction false} BurstAfterIsDetected(
      before: seq<byte>, window: seq<byte>, damaged: seq<byte>, after: seq<byte>)
    requires |before| >= HEADER_SIZE && |window| == |damaged| <= 4 && window != damaged
    requires CrcOk(before + window + after)
    ensures !CrcOk(before + damaged + after)
  {
    var x, y := before + window + after, before + damaged + after;
    var head := Covered(before);
    assert Covered(x) == head + window + after && Covered(y) == head + damaged + after;
    assert U32(x, CRC_AT) == U32(y, CRC_AT);
    BurstChangesChecksum(CRC32_POLYNOMIAL, head, window, damaged, after);
  }

  /** And so is damage before it. */
  lemma {:induction false} BurstBeforeIsDetected(
      before: seq<byte>, window: seq<byte>, damaged: seq<byte>, after: seq<byte>)
    requires |before| + |window| <= CRC_AT && |before + window + after| >= HEADER_SIZE
    requires |window| == |damaged| <= 4 && window != damaged
    requires CrcOk(before + window + after)
    ensures !CrcOk(before + damaged + after)
  {
    var x, y := before + window + after, before + damaged + after;
    var gap := CRC_AT - |before| - |window|;
    var rest := after[..gap] + [0, 0, 0, 0] + after[gap + 4..];
    assert Covered(x) == before + window + rest && Covered(y) == before + damaged + rest;
    assert U32(x, CRC_AT) == U32(y, CRC_AT);
    BurstChangesChecksum(CRC32_POLYNOMIAL, before, window, damaged, rest);
  }

  /** And so is any damage to the stored checksum alone. */
  lemma {:induction false} StoredCrcDamageIsDetected(x: seq<byte>, y: seq<byte>)
    requires |x| == |y| >= HEADER_SIZE && x[..CRC_AT] == y[..CRC_AT] && x[HEADER_SIZE..] == y[HEADER_SIZE..] && x != y
    requires CrcOk(x)
    ensures !CrcOk(y)
  {
    assert Covered(x) == Covered(y);
    if U32(x, CRC_AT) == U32(y, CRC_AT) {
      SameCrcSameImage(x, y);
    }
  }

  lemma {:induction false} SameCrcSameImage(x: seq<byte>, y: seq<byte>)
    requires |x| == |y| >= HEADER_SIZE && x[..CRC_AT] == y[..CRC_AT] && x[HEADER_SIZE..] == y[HEADER_SIZE..]
    requires U32(x, CRC_AT) == U32(y, CRC_AT)
    ensures x == y
  {
    FieldAt(x, CRC_AT, 0);
    FieldAt(y, CRC_AT, 0);
    assert U32(x[CRC_AT..HEADER_SIZE], 0) == U32(x, CRC_AT) && U32(y[CRC_AT..HEADER_SIZE], 0) == U32(y, CRC_AT);
    U32Injective(x[CRC_AT..HEADER_SIZE], y[CRC_AT..HEADER_SIZE]);
    assert x == x[..CRC_AT] + x[CRC_AT..HEADER_SIZE] + x[HEADER_SIZE..];
    assert y == y[..CRC_AT] + y[CRC_AT..HEADER_SIZE] + y[HEADER_SIZE..];
  }
}
