/** From the project to the runtime and back: a built image carries its sections, the runtime reads
 *  the program out of it, and the validator accepts it exactly when the project is deployable. */
module ImageRoundTrip {
  import opened Bytes
  import opened Crc
  import opened Instructions
  import opened Admission
  import opened Semantics
  import opened Machine
  import opened Safety
  import opened Source
  import opened Lowering
  import opened Validation
  import opened Compiled
  import opened ImageFormat
  import opened ImageBuilder
  import opened Building

  // ----- header, directory and checksum of a built image -----

  lemma {:induction false} BuiltHeader(payloads: seq<seq<byte>>, uid: seq<byte>, digest: seq<byte>, crc: uint32)
    requires Sized(payloads) && |uid| == 16 && |digest| == 32
    ensures HeaderStatus(WithCrc(payloads, uid, digest, crc)) == IMAGE_OK
  {
    var x, total := WithCrc(payloads, uid, digest, crc), Total(payloads);
    WithCrcSize(payloads, uid, digest, crc);
    hide WithCrc, Header, Concat, Le32, U32;
    HeaderFirst(payloads, uid, digest, crc);
    var tail: seq<byte> := [1, 0, 0, 0, 2, 0, 16, 0];
    var front: seq<byte> := MAGIC + [2, 0, 72, 0];
    assert Front(total) == front + Le32(total) + tail;
    FieldOf(front, Le32(total), tail);
    assert forall j | 0 <= j < 20 :: x[j] == Front(total)[j];
    WordAt(x, Front(total), 8);
    WordAt(x, Front(total), 12);
    assert Front(total)[12..16] == [1, 0, 0, 0] && Front(total)[..8] == front && Front(total)[16..] == [2, 0, 16, 0];
    assert x[..4] == MAGIC;
    assert x[4] == front[4] && x[6] == front[6] && x[7] == front[7];
    OneWord(Front(total));
    assert x[16] == Front(total)[16..][0] && x[17] == Front(total)[16..][1] && x[18] == Front(total)[16..][2]
           && x[19] == Front(total)[16..][3];
  }

  lemma {:induction false} OneWord(s: seq<byte>)
    requires |s| == 20 && s[12..16] == [1, 0, 0, 0]
    ensures U32(s, 12) == 1
  {
    assert s[12] == s[12..16][0] && s[13] == s[12..16][1] && s[14] == s[12..16][2] && s[15] == s[12..16][3];
  }

  lemma {:induction false} HeaderFirst(payloads: seq<seq<byte>>, uid: seq<byte>, digest: seq<byte>, crc: uint32)
    requires Sized(payloads) && |uid| == 16 && |digest| == 32
    ensures var x := WithCrc(payloads, uid, digest, crc);
            |x| >= HEADER_SIZE && x[..20] == Front(Total(payloads)) && x[CRC_AT..HEADER_SIZE] == Le32(crc)
  {
    hide Concat, Le32;
    var h := Header(Total(payloads), uid, digest, crc);
    var x := WithCrc(payloads, uid, digest, crc);
    assert x[..HEADER_SIZE] == h && x[..20] == h[..20] && x[CRC_AT..HEADER_SIZE] == h[CRC_AT..];
  }

  lemma {:induction false} WordAt(x: seq<byte>, y: seq<byte>, at: nat)
    requires at + 4 <= |y| <= |x| && forall j | 0 <= j < |y| :: x[j] == y[j]
    ensures U32(x, at) == U32(y, at)
  {
  }

  lemma {:induction false} BuiltCrc(payloads: seq<seq<byte>>, uid: seq<byte>, digest: seq<byte>)
    requires Sized(payloads) && |uid| == 16 && |digest| == 32
    ensures |ImageOf(payloads, uid, digest)| >= HEADER_SIZE && CrcOk(ImageOf(payloads, uid, digest))
  {
    hide Checksum, U32, Header, Concat;
    var zeroed := WithCrc(payloads, uid, digest, 0);
    var crc := Checksum(CRC32_POLYNOMIAL, zeroed);
    var x := ImageOf(payloads, uid, digest);
    HeaderFirst(payloads, uid, digest, crc);
    PatchCrc(payloads, uid, digest, crc, 0);
    ZeroWord();
    assert Covered(x) == zeroed;
    WordIn(x, CRC_AT);
  }

  lemma {:induction false} ZeroWord()
    ensures Le32(0) == [0, 0, 0, 0]
  {
  }

  lemma {:induction false} WordIn(x: seq<byte>, at: nat)
    requires at + 4 <= |x|
    ensures U32(x, at) == U32(x[at..at + 4], 0)
  {
  }

  lemma {:induction false} DescriptorReads(x: seq<byte>, k: nat, id: uint16, at: uint32, size: uint32)
    requires HEADER_SIZE + DESCRIPTOR_SIZE * (k + 1) <= |x|
    requires x[HEADER_SIZE + DESCRIPTOR_SIZE * k..HEADER_SIZE + DESCRIPTOR_SIZE * (k + 1)]
             == DescriptorBytes(id, at, size)
    ensures DescriptorAt(x, k) == Section(id, at, size)
  {
    var d := HEADER_SIZE + DESCRIPTOR_SIZE * k;
    var row, pad, tail := DescriptorBytes(id, at, size), [0, 0], [0, 0, 0, 0, 0, 0, 0, 0];
    assert row == [] + Le16(id) + (pad + Le32(at) + Le32(size) + tail);
    FieldOf([], Le16(id), pad + Le32(at) + Le32(size) + tail);
    assert row == (Le16(id) + pad) + Le32(at) + (Le32(size) + tail);
    FieldOf(Le16(id) + pad, Le32(at), Le32(size) + tail);
    assert row == (Le16(id) + pad + Le32(at)) + Le32(size) + tail;
    FieldOf(Le16(id) + pad + Le32(at), Le32(size), tail);
    assert forall j | 0 <= j < 20 :: x[d + j] == row[j];
  }

  /** Descriptor k names section k + 1, and points at its payload. */
  lemma {:induction false} BuiltDescriptor(
      payloads: seq<seq<byte>>, uid: seq<byte>, digest: seq<byte>, crc: uint32, k: nat)
    requires Sized(payloads) && |uid| == 16 && |digest| == 32 && k < SECTION_COUNT
    ensures var x := WithCrc(payloads, uid, digest, crc);
            && |x| == Total(payloads)
            && Start(payloads, k) + |payloads[k]| <= |x|
            && DescriptorAt(x, k) == Section(k + 1, Start(payloads, k), |payloads[k]|)
            && x[Start(payloads, k)..Start(payloads, k) + |payloads[k]|] == payloads[k]
  {
    hide Concat, DescriptorBytes, Header, DescriptorAt;
    WithCrcSize(payloads, uid, digest, crc);
    var x, rows := WithCrc(payloads, uid, digest, crc), DirectoryRows(payloads, SECTION_COUNT);
    var h := Header(Total(payloads), uid, digest, crc);
    EqualWidth(rows, DESCRIPTOR_SIZE);
    RowAt(rows, DESCRIPTOR_SIZE, k);
    PieceAt(payloads, k);
    StartsFit(payloads, k);
    var d := DESCRIPTOR_SIZE * k;
    assert x[HEADER_SIZE + d..HEADER_SIZE + DESCRIPTOR_SIZE * (k + 1)] == Concat(rows)[d..d + DESCRIPTOR_SIZE];
    DescriptorReads(x, k, k + 1, Start(payloads, k), |payloads[k]|);
    var at := |Concat(payloads[..k])|;
    assert x[DIRECTORY_END + at..DIRECTORY_END + at + |payloads[k]|] == Concat(payloads)[at..at + |payloads[k]|];
  }

  lemma {:induction false} StartsGrow(payloads: seq<seq<byte>>, j: nat, k: nat)
    requires j < k <= |payloads|
    ensures Start(payloads, j) + |payloads[j]| <= Start(payloads, k)
    decreases k
  {
    StartsFit(payloads, k - 1);
    if j < k - 1 {
      StartsGrow(payloads, j, k - 1);
    }
  }

  lemma {:induction false} BuiltDirectory(payloads: seq<seq<byte>>, uid: seq<byte>, digest: seq<byte>, crc: uint32)
    requires Sized(payloads) && |uid| == 16 && |digest| == 32
    ensures |WithCrc(payloads, uid, digest, crc)| == Total(payloads)
            && DirectoryOfOk(WithCrc(payloads, uid, digest, crc))
  {
    hide WithCrc, Start, DescriptorAt, Concat;
    WithCrcSize(payloads, uid, digest, crc);
    var x := WithCrc(payloads, uid, digest, crc);
    var ds := Descriptors(x, SECTION_COUNT);
    forall k | 0 <= k < SECTION_COUNT
      ensures ds[k].id == k + 1 && ds[k].at == Start(payloads, k) && ds[k].size == |payloads[k]|
              && SectionOk(ds[k], |x|)
    {
      BuiltDescriptor(payloads, uid, digest, crc, k);
      StartAfterDirectory(payloads, k);
    }
    forall k, j | 0 <= j < k < SECTION_COUNT
      ensures Apart(ds[k], ds[j])
    {
      StartsGrow(payloads, j, k);
    }
  }

  lemma {:induction false} StartAfterDirectory(payloads: seq<seq<byte>>, k: nat)
    requires k <= |payloads|
    ensures Start(payloads, k) >= DIRECTORY_END
  {
  }

  /** Round trip of the sections: a built image passes the checks of header, directory and checksum,
   *  and `sections` returns for every number exactly the payload placed there. */
  lemma {:induction false} SectionsRoundTrip(payloads: seq<seq<byte>>, uid: seq<byte>, digest: seq<byte>, k: nat)
    requires Sized(payloads) && |uid| == 16 && |digest| == 32 && k < SECTION_COUNT
    ensures var x := ImageOf(payloads, uid, digest);
            && HeaderStatus(x) == IMAGE_OK && DirectoryOfOk(x) && CrcOk(x)
            && SectionOf(x, k + 1) == Some(payloads[k])
  {
    hide Checksum, WithCrc, Covered, Lookup, Start, DescriptorAt;
    var crc := Checksum(CRC32_POLYNOMIAL, WithCrc(payloads, uid, digest, 0));
    var x := ImageOf(payloads, uid, digest);
    BuiltHeader(payloads, uid, digest, crc);
    BuiltDirectory(payloads, uid, digest, crc);
    BuiltCrc(payloads, uid, digest);
    BuiltDescriptor(payloads, uid, digest, crc, k);
    SectionsAreFound(Descriptors(x, SECTION_COUNT), x, k + 1);
    assert Descriptors(x, SECTION_COUNT)[k].id == k + 1;
  }

  // ----- the program in a built image -----

  lemma {:induction false} BuiltSections(texts: seq<seq<byte>>, uid: seq<byte>, digest: seq<byte>, c: Content)
    requires |texts| == SECTION_COUNT - 3 && |uid| == 16 && |digest| == 32 && Sized(Payloads(texts, c))
    ensures var x := ImageOf(Payloads(texts, c), uid, digest); ContentOf(x) == Some(c) && (ImageOk(x) <==> ContentOk(c))
  {
    hide HeaderStatus, DirectoryOfOk, CrcOk, SectionOf, ImageOf, ContentOk, Sized;
    var payloads := Payloads(texts, c);
    SectionsRoundTrip(payloads, uid, digest, RUNTIME_TAGS - 1);
    SectionsRoundTrip(payloads, uid, digest, INSTRUCTION_STREAM - 1);
    SectionsRoundTrip(payloads, uid, digest, RUNTIME_RUNGS - 1);
  }

  /** The image of a program gives back the program: code, tags with their initial values, rungs;
   *  and it is accepted exactly when the program is and its rungs are numbered without gaps. */
  lemma {:induction false} ImageRoundTrips(
      f: Floats, ir: IRProgram, texts: seq<seq<byte>>, uid: seq<byte>, digest: seq<byte>, x: seq<byte>, c: Content)
    requires |texts| == SECTION_COUNT - 3 && |uid| == 16 && |digest| == 32
    requires Built(f, ir, texts, uid, digest, x, c)
    ensures ContentOf(x) == Some(c)
    ensures TableOk(c.tags, 20) && Parse(c.code).Some? && TableOk(c.rungs, 12) && RungsPack(ir.rungs)
            && TagsPack(f, ir.tags)
    ensures ProgramOf(c) == Loads(ir) && TagsOf(c.tags) == InitialTags(f, ir.tags)
    ensures ImageOk(x) <==> ProgramOk(Loads(ir)) && RungRecordsOk(RecordsOf(ir.rungs), None, 0, |ir.instructions|)
  {
    assert Holds(f, ir, c) && RungsPack(ir.rungs) && TagsPack(f, ir.tags);
    assert Sized(Payloads(texts, c)) && x == ImageOf(Payloads(texts, c), uid, digest);
    hide *;
    BuiltSections(texts, uid, digest, c);
    HeldSectionsRead(f, ir, c);
    SameCounts(ir.rungs);
    AssembledLength(ir.instructions);
    ContentIsProgram(c, ir);
  }

  lemma {:induction false} AssembledLength(s: seq<IRInstr>)
    ensures |AssembleAll(s)| == |s|
  {
  }

  lemma {:induction false} SameCounts(rungs: seq<IRRung>)
    requires RungsPack(rungs)
    ensures CountsOf(RecordsOf(rungs)) == RungCounts(rungs)
  {
  }

  lemma {:induction false} ContentIsProgram(c: Content, ir: IRProgram)
    requires TagsOk(c.tags) && Parse(c.code) == Some(AssembleAll(ir.instructions)) && TableOk(c.rungs, 12)
    requires DeclsOf(c.tags) == Decls(ir.tags) && RungsPack(ir.rungs) && RungsOf(c.rungs) == RecordsOf(ir.rungs)
    requires CountsOf(RecordsOf(ir.rungs)) == RungCounts(ir.rungs)
             && |AssembleAll(ir.instructions)| == |ir.instructions|
    ensures TableOk(c.tags, 20) && ProgramOf(c) == Loads(ir)
    ensures ContentOk(c) <==> ProgramOk(Loads(ir)) && RungRecordsOk(RecordsOf(ir.rungs), None, 0, |ir.instructions|)
  {
    hide StreamOk, RungsClose, Parse, RungRecordsOk, AssembleAll;
    if ContentOk(c) {
      AcceptedContentIsProgramOk(c);
    }
  }

  // ----- presets -----

  /** The PRE a timer or counter starts with. */
  function PresetOf(d: Data): int {
    match d
    case TimerD(pre, _, _, _, _) => pre
    case CounterD(pre, _, _, _, _, _, _) => pre
    case _ => 0
  }

  predicate StartsWith(f: Floats, t: SourceTag, directions: Directions, pre: int) {
    var d := InitialData(f, DeclareTag(t, directions));
    d.Some? && PresetOf(d.value) == pre
  }

  /** The gate checks the preset of a timer or counter where it has one, but lowering takes the
   *  initial value where there is one: an admitted preset reaches the runtime exactly when the tag
   *  has no initial value besides it, or one that comes to the same number. */
  lemma {:induction false} PresetIsKeptIff(f: Floats, t: SourceTag, directions: Directions)
    requires TagPasses(t) && (t.dataType == DataType.TIMER || t.dataType == DataType.COUNTER) && t.preset.Some?
    ensures StartsWith(f, t, directions, t.preset.value) <==>
              t.initial.None? || IntOf(f, t.initial) == Some(t.preset.value)
  {
  }

  /** An admitted timer whose PRE is negative from the start. */
  lemma {:induction false} ShadowedPreset(f: Floats, tagId: nat, directions: Directions)
    ensures var t := SourceTag(tagId, DataType.TIMER, Some(DintLit(-1)), Some(5), true, false);
            TagPasses(t) && StartsWith(f, t, directions, -1)
  {
  }

  // ----- routine numbers -----

  /** Routine numbers that start at 0 and grow by at most one. */
  predicate Contiguous(rungs: seq<Placed>, next: nat, started: bool)
    decreases |rungs|
  {
    rungs == [] ||
    (var r := rungs[0].routine;
     (r == next || (started && r + 1 == next)) && Contiguous(rungs[1..], r + 1, true))
  }

  /** No routine without rungs comes before one with rungs. */
  predicate NoGaps(routines: seq<seq<Rung>>) {
    forall j, k | 0 <= j < k < |routines| && routines[k] != [] :: routines[j] != []
  }

  lemma {:induction false} SameRoutine(rungs: seq<Rung>, routine: nat, rest: seq<Placed>)
    ensures Contiguous(PlaceRungs(rungs, routine) + rest, routine + 1, true) <==> Contiguous(rest, routine + 1, true)
    decreases |rungs|
  {
    var placed := PlaceRungs(rungs, routine);
    if rungs == [] {
      assert placed + rest == rest;
    } else {
      assert (placed + rest)[0] == Placed(routine, rungs[0])
             && (placed + rest)[1..] == PlaceRungs(rungs[1..], routine) + rest;
      SameRoutine(rungs[1..], routine, rest);
    }
  }

  lemma {:induction false} LaterRoutines(routines: seq<seq<Rung>>, first: nat)
    ensures forall r | r in AllRungs(routines, first) :: r.routine >= first
    ensures AllRungs(routines, first) == [] <==> forall k | 0 <= k < |routines| :: routines[k] == []
    decreases |routines|
  {
    if routines != [] {
      LaterRoutines(routines[1..], first + 1);
      assert PlaceRungs(routines[0], first) == [] <==> routines[0] == [];
      assert forall k | 1 <= k < |routines| :: routines[k] == routines[1..][k - 1];
      assert forall k | 0 <= k < |routines[1..]| :: routines[1..][k] == routines[k + 1];
    }
  }

  lemma {:induction false} GapsTail(routines: seq<seq<Rung>>)
    requires routines != []
    ensures NoGaps(routines) <==>
              NoGaps(routines[1..]) && (routines[0] == [] ==> forall k | 0 <= k < |routines| :: routines[k] == [])
  {
    assert forall k | 0 <= k < |routines[1..]| :: routines[1..][k] == routines[k + 1];
    if NoGaps(routines[1..]) && (routines[0] == [] ==> forall k | 0 <= k < |routines| :: routines[k] == []) {
      forall j, k | 0 <= j < k < |routines| && routines[k] != []
        ensures routines[j] != []
      {
        if j > 0 {
          assert routines[1..][k - 1] != [];
        }
      }
    }
  }

  /** The routine numbers of the rungs are contiguous exactly when there are no gaps. */
  lemma {:induction false} ContiguousIffNoGaps(routines: seq<seq<Rung>>, first: nat, started: bool)
    ensures Contiguous(AllRungs(routines, first), first, started) <==> NoGaps(routines)
    decreases |routines|
  {
    if routines != [] {
      var here, rest := PlaceRungs(routines[0], first), AllRungs(routines[1..], first + 1);
      GapsTail(routines);
      LaterRoutines(routines, first);
      LaterRoutines(routines[1..], first + 1);
      if routines[0] == [] {
        assert here + rest == rest;
        if rest != [] {
          assert rest[0] in rest;
        } else {
          assert forall k | 0 <= k < |routines[1..]| :: routines[1..][k] == routines[k + 1];
        }
      } else {
        assert (here + rest)[0] == Placed(first, routines[0][0])
               && (here + rest)[1..] == PlaceRungs(routines[0][1..], first) + rest;
        SameRoutine(routines[0][1..], first, rest);
        ContiguousIffNoGaps(routines[1..], first + 1, true);
      }
    }
  }

  // ----- the rung table -----

  /** The rung records of lowered rungs tile the code; the routine numbers decide. */
  lemma {:induction false} TableAccepted(rungs: seq<Placed>, c: Counters, previous: Option<uint32>, next: nat)
    requires RungsPack(RungTable(rungs, c)) && forall r | r in rungs :: r.rung != []
    requires match previous case None => next == 0 case Some(q) => next == q + 1
    requires next + |rungs| <= UINT32_MAX
    ensures RungRecordsOk(RecordsOf(RungTable(rungs, c)), previous, c.id, AfterRungs(rungs, c).id)
            <==> Contiguous(rungs, next, previous.Some?)
    decreases |rungs|
  {
    hide After;
    if rungs != [] {
      assert rungs[0] in rungs && forall r | r in rungs[1..] :: r in rungs;
      var end := After(rungs[0].rung, c);
      AfterGrows(rungs[0].rung, c);
      RungsGrow(rungs[1..], end);
      var table, rest := RungTable(rungs, c), RungTable(rungs[1..], end);
      assert table[0] == IRRung(rungs[0].routine, c.id, end.id - c.id) && table[1..] == rest;
      RecordsTail(table);
      var r := rungs[0].routine;
      if RoutineFollows(previous, r) {
        TableAccepted(rungs[1..], end, Some(r), r + 1);
      }
    }
  }

  lemma {:induction false} RecordsTail(table: seq<IRRung>)
    requires table != [] && RungsPack(table)
    ensures RungsPack(table[1..]) && RecordsOf(table)[1..] == RecordsOf(table[1..])
  {
  }

  lemma {:induction false} RungsGrow(rungs: seq<Placed>, c: Counters)
    ensures AfterRungs(rungs, c).id >= c.id
    decreases |rungs|
  {
    if rungs != [] {
      AfterGrows(rungs[0].rung, c);
      RungsGrow(rungs[1..], After(rungs[0].rung, c));
    }
  }

  lemma {:induction false} TableSize(f: Floats, ir: IRProgram, texts: seq<seq<byte>>, c: Content)
    requires |texts| == SECTION_COUNT - 3 && Holds(f, ir, c) && Sized(Payloads(texts, c))
    ensures RungsPack(ir.rungs)
    ensures |c.rungs| <= UINT32_MAX && 12 * |ir.rungs| <= |c.rungs|
  {
    HeldSectionsRead(f, ir, c);
    hide Concat, U32, Holds;
    var payloads := Payloads(texts, c);
    PieceAt(payloads, RUNTIME_RUNGS - 1);
    assert |RungsOf(c.rungs)| == |ir.rungs|;
  }

  /** The main result of the chain. An admitted project builds exactly when it fits, and its image is
   *  then accepted by the runtime's validator exactly when the project meets the runtime's further
   *  conditions and no routine without rungs comes before one with rungs. */
  lemma {:induction false} BuiltImageAcceptedIff(
      c: Controller, directions: Directions, ir: IRProgram, f: Floats, texts: seq<seq<byte>>, uid: seq<byte>,
      digest: seq<byte>)
    requires Admissible(c) && LowersTo(c, directions, ir)
    requires |texts| == SECTION_COUNT - 3 && |uid| == 16 && |digest| == 32
    ensures Buildable(f, ir, texts) <==> ProjectFits(f, c, texts)
    ensures ProjectFits(f, c, texts) ==>
              (ImageOk(ImageFor(f, ir, texts, uid, digest)) <==> Deployable(c, directions) && NoGaps(c.routines))
  {
    BuildsIffFits(c, directions, ir, f, texts);
    if ProjectFits(f, c, texts) {
      var x, content := ImageFor(f, ir, texts, uid, digest), Sections(f, ir);
      hide *;
      BuiltIs(f, ir, texts, uid, digest, x, content);
      ImageRoundTrips(f, ir, texts, uid, digest, x, content);
      CompiledAcceptedIffDeployable(c, directions, ir);
      TableSize(f, ir, texts, content);
      RecordsAccepted(c, directions, ir);
    }
  }

  lemma {:induction false} BuiltIs(
      f: Floats, ir: IRProgram, texts: seq<seq<byte>>, uid: seq<byte>, digest: seq<byte>, x: seq<byte>, c: Content)
    requires |texts| == SECTION_COUNT - 3 && |uid| == 16 && |digest| == 32 && Built(f, ir, texts, uid, digest, x, c)
    ensures Holds(f, ir, c) && Sized(Payloads(texts, c)) && SECTION_COUNT == 16
  {
  }

  lemma {:induction false} RecordsAccepted(c: Controller, directions: Directions, ir: IRProgram)
    requires Admissible(c) && LowersTo(c, directions, ir) && RungsPack(ir.rungs) && 12 * |ir.rungs| <= UINT32_MAX
    ensures RungRecordsOk(RecordsOf(ir.rungs), None, 0, |ir.instructions|) <==> NoGaps(c.routines)
  {
    var sorted, rungs := SortTags(c.tags), AllRungs(c.routines, 0);
    var start := Counters(0, 0, |sorted|);
    AdmissibleLowers(c);
    hide LoweredRungs, RungTable, AfterRungs, AllRungs, SortTags, RecordsOf, RungRecordsOk, Contiguous, NoGaps,
         Admissible;
    TableLength(rungs, start);
    TableAccepted(rungs, start, None, 0);
    ContiguousIffNoGaps(c.routines, 0, false);
    CodeLength(sorted, rungs, start);
    AssembledLength(ir.instructions);
  }

  /** Declaration order does not matter: two projects that differ only in the order of their tags
   *  lower to the same program and build to the same bytes. The texts may be any function of the
   *  program and its tags in the order of their numbers, the digest any function of the sections. */
  lemma {:induction false} OrderDoesNotMatter(
      c: Controller, tags: seq<SourceTag>, directions: Directions, ir: IRProgram, other: IRProgram, f: Floats,
      texts: (IRProgram, seq<SourceTag>) -> seq<seq<byte>>, uid: seq<byte>, digest: seq<seq<byte>> -> seq<byte>)
    requires DistinctIds(c.tags) && multiset(c.tags) == multiset(tags)
    requires LowersTo(c, directions, ir) && LowersTo(Controller(tags, c.routines), directions, other)
    requires forall p, s :: |texts(p, s)| == SECTION_COUNT - 3
    requires |uid| == 16 && forall p :: |digest(p)| == 32
    ensures ir == other
    ensures var mine, others := texts(ir, SortTags(c.tags)), texts(other, SortTags(tags));
            && (Buildable(f, ir, mine) <==> Buildable(f, other, others))
            && (Buildable(f, ir, mine) ==>
                  ImageFor(f, ir, mine, uid, digest(Payloads(mine, Sections(f, ir))))
                  == ImageFor(f, other, others, uid, digest(Payloads(others, Sections(f, other)))))
  {
    OrderIndependent(c.tags, tags);
    SameLowering(c, tags, directions, other);
    LowersUniquely(c, directions, ir, other);
  }

  lemma {:induction false} SameLowering(c: Controller, tags: seq<SourceTag>, directions: Directions, ir: IRProgram)
    requires SortTags(c.tags) == SortTags(tags) && LowersTo(Controller(tags, c.routines), directions, ir)
    ensures LowersTo(c, directions, ir)
  {
    hide SortTags, AllRungs, LoweredRungs, RungTable, AssembleAll, IRLiterals, SourceLiterals;
  }
}
