/** Which admitted projects build: whether `build` raises on what lowering makes of them, as a
 *  condition on the project. */
module Building {
  import opened Bytes
  import opened Instructions
  import opened LadderTree
  import opened ControlFlow
  import opened Semantics
  import opened Source
  import opened Lowering
  import opened Validation
  import opened Compiled
  import opened RecordNumbers
  import opened ImageFormat
  import opened ImageBuilder

  // ----- the size of the code -----

  /** Operands of the records of a list of instructions; a bare one-shot gets its storage. */
  function CountOperands(steps: seq<SourceInstr>): nat {
    if steps == [] then 0 else (if NeedsStorage(steps[0]) then 1 else |steps[0].operands|) + CountOperands(steps[1..])
  }

  function Arguments(code: seq<Instr>): nat {
    if code == [] then 0 else |code[0].args| + Arguments(code[1..])
  }

  lemma {:induction false} SizesOfBare(code: seq<Instr>)
    requires AllBare(code)
    ensures Sizes(code) == 12 * |code| + 8 * Arguments(Executed(code))
    decreases |code|
  {
    if code != [] {
      assert code[0] in code;
      SizesOfBare(code[1..]);
      if !IsControl(code[0].op) {
        assert ([code[0]] + Executed(code[1..]))[1..] == Executed(code[1..]);
      } else {
        assert [] + Executed(code[1..]) == Executed(code[1..]);
      }
    }
  }

  lemma {:induction false} ResolvedArguments(
      sorted: seq<SourceTag>, steps: seq<SourceInstr>, slot: nat, tag: nat, code: seq<Instr>)
    requires AllTagsExist(sorted, steps) && Resolved(sorted, steps, slot, tag, code)
    ensures Arguments(code) == CountOperands(steps)
    decreases |steps|
  {
    hide CountStateful, CountHidden, LowerOperand, AssembleOperand;
    if steps != [] {
      ResolvedArguments(sorted, steps[1..], slot + CountStateful([steps[0]]), tag + CountHidden([steps[0]]), code[1..]);
      assert |code[0].args| == if NeedsStorage(steps[0]) then 1 else |steps[0].operands|;
    }
  }

  // ----- the fields of the records -----

  /** Everything in a record but its number fits its field. */
  predicate FieldsFit(i: Instr, slots: nat) {
    |i.args| <= 3 && -1 <= i.slot < slots && OperandsPack(i.args)
  }

  lemma {:induction false} StepFits(sorted: seq<SourceTag>, tags: seq<SourceTag>, s: SourceInstr, c: Counters)
    requires TagsExist(sorted, s) && StepPasses(tags, s) && |sorted| <= UINT32_MAX
             && (NeedsStorage(s) ==> c.tag <= UINT32_MAX)
    ensures FieldsFit(Assemble(LowerStep(sorted, s, c)), c.slot + (if Stateful(s.mnemonic) then 1 else 0))
  {
    var i := LowerStep(sorted, s, c);
    forall k | 0 <= k < |i.operands|
      ensures AssembleOperand(i.operands[k]).raw <= UINT32_MAX
    {
      if !NeedsStorage(s) {
        var o := s.operands[k];
        assert o in s.operands;
        assert i.operands[k] == LowerOperand(sorted, o);
      }
    }
  }

  lemma {:induction false} ResolvedFits(
      sorted: seq<SourceTag>, tags: seq<SourceTag>, steps: seq<SourceInstr>, slot: nat, tag: nat, code: seq<Instr>)
    requires AllTagsExist(sorted, steps) && Resolved(sorted, steps, slot, tag, code)
    requires (forall s | s in steps :: StepPasses(tags, s)) && |sorted| <= tag && tag + CountHidden(steps) <= UINT32_MAX
    ensures forall i | i in code :: FieldsFit(i, slot + CountStateful(steps))
    decreases |steps|
  {
    hide StepPasses, TagsExist, Assemble, LowerStep, CountStateful, CountHidden;
    if steps != [] {
      var s := steps[0];
      assert s in steps && steps == [s] + steps[1..] && code == [code[0]] + code[1..];
      CountsAppend([s], steps[1..]);
      OneCounted(s);
      StepFits(sorted, tags, s, Counters(code[0].id, slot, tag));
      ResolvedFits(sorted, tags, steps[1..], slot + CountStateful([s]), tag + CountHidden([s]), code[1..]);
    } else {
      assert code == [];
    }
  }

  lemma {:induction false} OneCounted(s: SourceInstr)
    ensures CountStateful([s]) == (if Stateful(s.mnemonic) then 1 else 0)
            && CountHidden([s]) == (if NeedsStorage(s) then 1 else 0)
  {
    assert [s][1..] == [] && CountHidden([]) == 0 && CountStateful([]) == 0;
  }

  lemma {:induction false} ExecutedFewer(code: seq<Instr>, i: Instr)
    ensures |Executed(code)| <= |code|
    ensures i in code && !IsControl(i.op) ==> i in Executed(code)
    decreases |code|
  {
    if code != [] {
      ExecutedFewer(code[1..], i);
      assert code == [code[0]] + code[1..];
    }
  }

  lemma {:induction false} ResolvedLength(
      sorted: seq<SourceTag>, steps: seq<SourceInstr>, slot: nat, tag: nat, code: seq<Instr>)
    requires AllTagsExist(sorted, steps) && Resolved(sorted, steps, slot, tag, code)
    ensures |code| == |steps| && CountStateful(steps) <= |steps|
    decreases |steps|
  {
    hide Assemble, LowerStep, CountHidden;
    if steps != [] {
      ResolvedLength(sorted, steps[1..], slot + CountStateful([steps[0]]), tag + CountHidden([steps[0]]), code[1..]);
    }
  }

  // ----- literals -----

  lemma {:induction false} OperandLiteralsAre(operands: seq<IROperand>, l: Literal)
    ensures l in OperandLiterals(operands) <==> IRLiteral(l) in operands
    decreases |operands|
  {
    if operands != [] {
      OperandLiteralsAre(operands[1..], l);
      assert operands == [operands[0]] + operands[1..];
    }
  }

  lemma {:induction false} IRLiteralsAre(ins: seq<IRInstr>, l: Literal)
    ensures l in IRLiterals(ins) <==> exists i | i in ins :: IRLiteral(l) in i.operands
    decreases |ins|
  {
    if ins != [] {
      IRLiteralsAre(ins[1..], l);
      OperandLiteralsAre(ins[0].operands, l);
      assert ins == [ins[0]] + ins[1..];
    }
  }

  lemma {:induction false} StepLiteralsAre(operands: seq<SourceOperand>, l: Literal)
    ensures l in StepLiterals(operands) <==> LiteralOf(l) in operands
    decreases |operands|
  {
    if operands != [] {
      StepLiteralsAre(operands[1..], l);
      assert operands == [operands[0]] + operands[1..];
    }
  }

  lemma {:induction false} SourceLiteralsAre(steps: seq<SourceInstr>, l: Literal)
    ensures l in SourceLiterals(steps) <==> exists s | s in steps :: LiteralOf(l) in s.operands
    decreases |steps|
  {
    if steps != [] {
      SourceLiteralsAre(steps[1..], l);
      StepLiteralsAre(steps[0].operands, l);
      assert steps == [steps[0]] + steps[1..];
    }
  }

  /** No operand is a REAL literal too large for binary32. */
  predicate RealsFit(steps: seq<SourceInstr>) {
    forall s | s in steps :: LiteralOf(WideReal) !in s.operands
  }

  /** The literals of admitted instructions pack exactly when their REALs fit. */
  lemma {:induction false} LiteralsPackIff(tags: seq<SourceTag>, steps: seq<SourceInstr>, ins: seq<IRInstr>)
    requires (forall s | s in steps :: StepPasses(tags, s)) && IRLiterals(ins) == SourceLiterals(steps)
    ensures (forall i, o | i in ins && o in i.operands :: LiteralPacks(o)) <==> RealsFit(steps)
  {
    if RealsFit(steps) {
      forall i, o | i in ins && o in i.operands
        ensures LiteralPacks(o)
      {
        if o.IRLiteral? {
          IRLiteralsAre(ins, o.lit);
          SourceLiteralsAre(steps, o.lit);
          var s :| s in steps && LiteralOf(o.lit) in s.operands;
          PassingLiteral(tags, s, o.lit);
        }
      }
    } else {
      var s :| s in steps && LiteralOf(WideReal) in s.operands;
      SourceLiteralsAre(steps, WideReal);
      IRLiteralsAre(ins, WideReal);
      var i :| i in ins && IRLiteral(WideReal) in i.operands;
      assert !LiteralPacks(IRLiteral(WideReal));
    }
  }

  lemma {:induction false} PassingLiteral(tags: seq<SourceTag>, s: SourceInstr, l: Literal)
    requires StepPasses(tags, s) && LiteralOf(l) in s.operands
    ensures l.DintLit? ==> INT32_MIN <= l.v <= INT32_MAX
  {
    var k :| 0 <= k < |s.operands| && s.operands[k] == LiteralOf(l);
    assert OperandPasses(tags, s.operands[k], Rules(s.mnemonic)[k]);
  }

  // ----- starting values -----

  /** The value a tag starts with, as the project declares it, fits its record. The gate does not
   *  see this: it looks at the preset of a timer or counter where there is one, and never at the
   *  preset of other tags. */
  predicate StartFits(f: Floats, t: SourceTag) {
    match t.dataType
    case BOOL => true
    case DINT => t.initial.None? && t.preset.Some? ==> INT32_MIN <= t.preset.value <= INT32_MAX
    case REAL =>
      if t.initial.Some? then FloatOf(f, t.initial).Some?
      else t.preset.Some? && t.preset.value != 0 ==> f.ofInt(t.preset.value).Some?
    case _ =>
      t.preset.Some? && t.initial.Some? ==>
        IntOf(f, t.initial).Some? && INT32_MIN <= IntOf(f, t.initial).value <= INT32_MAX
  }

  lemma {:induction false} StartPacks(f: Floats, t: SourceTag, directions: Directions)
    requires TagPasses(t)
    ensures InitialData(f, DeclareTag(t, directions)).Some? <==> StartFits(f, t)
  {
  }

  predicate TagsStart(f: Floats, tags: seq<SourceTag>) {
    forall t | t in tags :: StartFits(f, t)
  }

  lemma {:induction false} TagsPackIff(f: Floats, source: seq<SourceTag>, directions: Directions, tags: seq<IRTag>)
    requires (forall t | t in source :: TagPasses(t)) && AddsHidden(DeclareTags(SortTags(source), directions), tags)
    ensures TagsPack(f, tags) <==> |tags| <= UINT32_MAX && TagsStart(f, source)
  {
    var sorted := SortTags(source);
    SortSorts(source);
    hide StartFits, TagPasses, InitialData, DeclareTag, SortTags, Ascending;
    assert forall t :: t in sorted <==> t in multiset(sorted);
    assert forall t :: t in source <==> t in multiset(source);
    forall k | 0 <= k < |sorted|
      ensures InitialData(f, tags[k]).Some? <==> StartFits(f, sorted[k])
    {
      assert tags[k] == DeclareTag(sorted[k], directions) && sorted[k] in source;
      StartPacks(f, sorted[k], directions);
    }
    forall k | |sorted| <= k < |tags|
      ensures InitialData(f, tags[k]).Some?
    {
      assert tags[k] == HIDDEN;
      HiddenStarts(f);
    }
  }

  lemma {:induction false} HiddenStarts(f: Floats)
    ensures InitialData(f, HIDDEN).Some?
  {
  }

  // ----- the rung table -----

  /** Routines whose number does not pack have no rungs. */
  predicate RoutinesFit(routines: seq<seq<Rung>>) {
    forall k | UINT32_MAX < k < |routines| :: routines[k] == []
  }

  lemma {:induction false} RoutineNumbers(routines: seq<seq<Rung>>, first: nat)
    ensures (forall r | r in AllRungs(routines, first) :: r.routine <= UINT32_MAX)
       <==> forall k | 0 <= k < |routines| && UINT32_MAX < first + k :: routines[k] == []
    decreases |routines|
  {
    if routines != [] {
      RoutineNumbers(routines[1..], first + 1);
      var here, rest := PlaceRungs(routines[0], first), AllRungs(routines[1..], first + 1);
      assert AllRungs(routines, first) == here + rest;
      assert (forall r | r in here :: r.routine <= UINT32_MAX) <==> (UINT32_MAX < first ==> routines[0] == []) by {
        if routines[0] != [] {
          assert here[0] == Placed(first, routines[0][0]);
        }
      }
      assert forall k | 0 <= k < |routines[1..]| :: routines[1..][k] == routines[k + 1];
      if forall k | 0 <= k < |routines| && UINT32_MAX < first + k :: routines[k] == [] {
        assert forall k | 0 <= k < |routines[1..]| && UINT32_MAX < first + 1 + k :: routines[1..][k] == [];
      } else {
        var k :| 0 <= k < |routines| && UINT32_MAX < first + k && routines[k] != [];
        assert k > 0 ==> routines[1..][k - 1] != [];
      }
    }
  }

  lemma {:induction false} TableFits(rungs: seq<Placed>, c: Counters)
    ensures AfterRungs(rungs, c).id >= c.id
    ensures var table := RungTable(rungs, c);
            && |table| == |rungs|
            && forall k | 0 <= k < |rungs| ::
                 && table[k].routine == rungs[k].routine
                 && table[k].start <= AfterRungs(rungs, c).id && table[k].count <= AfterRungs(rungs, c).id
    decreases |rungs|
  {
    hide After;
    if rungs != [] {
      AfterGrows(rungs[0].rung, c);
      TableFits(rungs[1..], After(rungs[0].rung, c));
    }
  }

  // ----- the size of the image -----

  lemma {:induction false} ConcatAppend(a: seq<seq<byte>>, b: seq<seq<byte>>)
    ensures Concat(a + b) == Concat(a) + Concat(b)
  {
    ConcatSplit(a + b, |a|);
    assert (a + b)[..|a|] == a && (a + b)[|a|..] == b;
  }

  lemma {:induction false} PayloadSize(texts: seq<seq<byte>>, c: Content)
    requires |texts| == SECTION_COUNT - 3
    ensures |Concat(Payloads(texts, c))| == |Concat(texts)| + |c.code| + |c.tags| + |c.rungs|
  {
    var n := INSTRUCTION_STREAM - 1;
    var front, back := texts[..n], texts[n..];
    assert Payloads(texts, c) == front + ([c.code] + (back + [c.tags, c.rungs])) && texts == front + back;
    ConcatAppend(front, [c.code] + (back + [c.tags, c.rungs]));
    ConcatAppend([c.code], back + [c.tags, c.rungs]);
    ConcatAppend(back, [c.tags, c.rungs]);
    ConcatAppend(front, back);
    assert Concat([c.code]) == c.code + Concat([]);
    assert Concat([c.tags, c.rungs]) == c.tags + (c.rungs + Concat([])) by {
      assert [c.tags, c.rungs][1..] == [c.rungs] && [c.rungs][1..] == [];
    }
  }

  lemma {:induction false} SectionSizes(f: Floats, ir: IRProgram)
    requires Assembles(f, ir)
    ensures var c := Sections(f, ir);
            && |c.code| == Sizes(AssembleAll(ir.instructions))
            && |c.tags| == 4 + 20 * |ir.tags| && |c.rungs| == 4 + 12 * |ir.rungs|
  {
    hide Le32, TagBytes, RungBytes, Concat, Encodes;
    EqualWidth(TagRows(f, ir.tags), 20);
    EqualWidth(RungRows(ir.rungs), 12);
  }

  /** The size of the image of a project: its records, their operands, its tags with the hidden
   *  ones, its rungs, and the texts. */
  function ImageSize(c: Controller, texts: seq<seq<byte>>): nat {
    var rungs := AllRungs(c.routines, 0);
    var steps := AllSteps(rungs);
    DIRECTORY_END + |Concat(texts)|
    + 12 * AfterRungs(rungs, Counters(0, 0, |c.tags|)).id + 8 * CountOperands(steps)
    + 4 + 20 * (|c.tags| + CountHidden(steps))
    + 4 + 12 * |rungs|
  }

  /** What building needs beyond the gate. */
  predicate ProjectFits(f: Floats, c: Controller, texts: seq<seq<byte>>) {
    && TagsStart(f, c.tags)
    && RealsFit(AllSteps(AllRungs(c.routines, 0)))
    && RoutinesFit(c.routines)
    && ImageSize(c, texts) <= UINT32_MAX
  }

  // ----- the main result -----

  lemma {:induction false} CodeLength(sorted: seq<SourceTag>, rungs: seq<Placed>, c: Counters)
    requires RungTagsExist(sorted, rungs)
    ensures |LoweredRungs(sorted, rungs, c)| == AfterRungs(rungs, c).id - c.id
    decreases |rungs|
  {
    hide Lowered, After, AllTagsExist;
    if rungs != [] {
      assert rungs[0] in rungs && forall r | r in rungs[1..] :: r in rungs;
      LoweredLength(sorted, rungs[0].rung, c);
      CodeLength(sorted, rungs[1..], After(rungs[0].rung, c));
    }
  }

  /** What is known of the code of an admitted project. */
  predicate CodeOf(c: Controller, code: seq<Instr>) {
    var sorted, rungs := SortTags(c.tags), AllRungs(c.routines, 0);
    var steps, records := AllSteps(rungs), AfterRungs(rungs, Counters(0, 0, |c.tags|)).id;
    && AllTagsExist(sorted, steps) && Resolved(sorted, steps, 0, |c.tags|, Executed(code))
    && AllBare(code) && |code| == records && Numbered(code, 0)
    && |sorted| == |c.tags| && (forall s | s in steps :: StepPasses(c.tags, s))
  }

  lemma {:induction false} LoweredCode(c: Controller, directions: Directions, ir: IRProgram)
    requires Admissible(c) && LowersTo(c, directions, ir)
    ensures CodeOf(c, AssembleAll(ir.instructions))
    ensures var rungs := AllRungs(c.routines, 0);
            && |ir.tags| == |c.tags| + CountHidden(AllSteps(rungs))
            && ir.rungs == RungTable(rungs, Counters(0, 0, |c.tags|))
            && IRLiterals(ir.instructions) == SourceLiterals(AllSteps(rungs))
            && AddsHidden(DeclareTags(SortTags(c.tags), directions), ir.tags)
  {
    hide *;
    var sorted, rungs := SortTags(c.tags), AllRungs(c.routines, 0);
    var start := Counters(0, 0, |c.tags|);
    SortedSize(c.tags);
    LoweredParts(c, directions, ir);
    AdmissibleLowers(c);
    RungsCode(sorted, rungs, start);
    CodeLength(sorted, rungs, start);
    RungsAreNumbered(sorted, rungs, start);
    StepsPass(c);
    CodeIs(c, AssembleAll(ir.instructions));
  }

  lemma {:induction false} LoweredParts(c: Controller, directions: Directions, ir: IRProgram)
    requires LowersTo(c, directions, ir) && |SortTags(c.tags)| == |c.tags|
    ensures var sorted, rungs, start := SortTags(c.tags), AllRungs(c.routines, 0), Counters(0, 0, |c.tags|);
            && RungTagsExist(sorted, rungs) && AssembleAll(ir.instructions) == LoweredRungs(sorted, rungs, start)
            && |ir.tags| == AfterRungs(rungs, start).tag && ir.rungs == RungTable(rungs, start)
            && IRLiterals(ir.instructions) == SourceLiterals(AllSteps(rungs))
            && AddsHidden(DeclareTags(sorted, directions), ir.tags)
  {
  }

  lemma {:induction false} StepsPass(c: Controller)
    requires Admissible(c)
    ensures forall s | s in AllSteps(AllRungs(c.routines, 0)) :: StepPasses(c.tags, s)
  {
    hide StepPasses, Walk;
    AdmissibleLowers(c);
    forall s | s in AllSteps(AllRungs(c.routines, 0))
      ensures StepPasses(c.tags, s)
    {
      AllStepsMembers(AllRungs(c.routines, 0), s);
    }
  }

  lemma {:induction false} CodeIs(c: Controller, code: seq<Instr>)
    requires var sorted, rungs := SortTags(c.tags), AllRungs(c.routines, 0);
             var steps, records := AllSteps(rungs), AfterRungs(rungs, Counters(0, 0, |c.tags|)).id;
             && AllTagsExist(sorted, steps) && Resolved(sorted, steps, 0, |c.tags|, Executed(code))
             && AllBare(code) && |code| == records && Numbered(code, 0)
             && |sorted| == |c.tags| && (forall s | s in steps :: StepPasses(c.tags, s))
    ensures CodeOf(c, code)
  {
  }

  /** In an image of 32-bit size every field of every record fits. */
  lemma {:induction false} RecordsPack(c: Controller, code: seq<Instr>)
    requires CodeOf(c, code) && 12 * |code| <= UINT32_MAX
    requires |c.tags| + CountHidden(AllSteps(AllRungs(c.routines, 0))) <= UINT32_MAX
    ensures Encodable(code)
  {
    var sorted, steps := SortTags(c.tags), AllSteps(AllRungs(c.routines, 0));
    var run := Executed(code);
    hide StepPasses, Resolved, AllRungs, AllSteps, SortTags, CountHidden, CountStateful, Executed, AfterRungs;
    ResolvedFits(sorted, c.tags, steps, 0, |c.tags|, run);
    ResolvedLength(sorted, steps, 0, |c.tags|, run);
    forall i | i in code
      ensures Packs(i)
    {
      ExecutedFewer(code, i);
      var k :| 0 <= k < |code| && code[k] == i;
      assert Compiled.Bare(i) && i.id == k;
    }
  }

  lemma {:induction false} CodeSize(c: Controller, code: seq<Instr>)
    requires CodeOf(c, code)
    ensures Sizes(code) == 12 * |code| + 8 * CountOperands(AllSteps(AllRungs(c.routines, 0)))
  {
    SizesOfBare(code);
    ResolvedArguments(SortTags(c.tags), AllSteps(AllRungs(c.routines, 0)), 0, |c.tags|, Executed(code));
  }

  lemma {:induction false} RungsPackIff(c: Controller, table: seq<IRRung>)
    requires table == RungTable(AllRungs(c.routines, 0), Counters(0, 0, |c.tags|))
    ensures RungsPack(table) ==> RoutinesFit(c.routines)
    ensures RoutinesFit(c.routines) && |table| <= UINT32_MAX
            && AfterRungs(AllRungs(c.routines, 0), Counters(0, 0, |c.tags|)).id <= UINT32_MAX
            ==> RungsPack(table)
    ensures |table| == |AllRungs(c.routines, 0)|
  {
    var rungs := AllRungs(c.routines, 0);
    hide AllRungs, RungTable, AfterRungs;
    TableFits(rungs, Counters(0, 0, |c.tags|));
    RoutineNumbers(c.routines, 0);
    if RungsPack(table) {
      forall r | r in rungs
        ensures r.routine <= UINT32_MAX
      {
        var k :| 0 <= k < |rungs| && rungs[k] == r;
        assert table[k].routine == r.routine;
      }
    }
  }

  lemma {:induction false} EncodesIff(ins: seq<IRInstr>)
    ensures (forall i | i in ins :: Encodes(i)) <==>
              Encodable(AssembleAll(ins)) && forall i, o | i in ins && o in i.operands :: LiteralPacks(o)
  {
    hide Packs, LiteralPacks, Assemble;
    if Encodable(AssembleAll(ins)) {
      forall i | i in ins
        ensures Packs(Assemble(i))
      {
        var k :| 0 <= k < |ins| && ins[k] == i;
        assert AssembleAll(ins)[k] in AssembleAll(ins);
      }
    }
    if forall i | i in ins :: Encodes(i) {
      EncodesEncodable(ins);
    }
  }

  lemma {:induction false} BuildableIff(f: Floats, ir: IRProgram, texts: seq<seq<byte>>)
    requires |texts| == SECTION_COUNT - 3
    ensures Buildable(f, ir, texts) <==>
              && TagsPack(f, ir.tags) && RungsPack(ir.rungs) && Encodable(AssembleAll(ir.instructions))
              && (forall i, o | i in ir.instructions && o in i.operands :: LiteralPacks(o))
              && DIRECTORY_END + |Concat(texts)| + Sizes(AssembleAll(ir.instructions)) + 8 + 20 * |ir.tags|
                + 12 * |ir.rungs| <= UINT32_MAX
  {
    hide TagsPack, RungsPack, Encodable, Encodes, Sections, Payloads, Concat, LiteralPacks;
    EncodesIff(ir.instructions);
    if Assembles(f, ir) {
      SectionSizes(f, ir);
      PayloadSize(texts, Sections(f, ir));
    }
  }

  /** Exactly the admitted projects that fit can be built. */
  lemma {:induction false} BuildsIffFits(
      c: Controller, directions: Directions, ir: IRProgram, f: Floats, texts: seq<seq<byte>>)
    requires Admissible(c) && LowersTo(c, directions, ir) && |texts| == SECTION_COUNT - 3
    ensures Buildable(f, ir, texts) <==> ProjectFits(f, c, texts)
  {
    var steps := AllSteps(AllRungs(c.routines, 0));
    var code := AssembleAll(ir.instructions);
    LoweredCode(c, directions, ir);
    StepsPass(c);
    var records := AfterRungs(AllRungs(c.routines, 0), Counters(0, 0, |c.tags|)).id;
    assert |code| == records && forall t | t in c.tags :: TagPasses(t);
    ProjectFitsIs(f, c, texts);
    hide *;
    RungsPackIff(c, ir.rungs);
    TagsPackIff(f, c.tags, directions, ir.tags);
    LiteralsPackIff(c.tags, steps, ir.instructions);
    CodeSize(c, code);
    BuildableIff(f, ir, texts);
    if ImageSize(c, texts) <= UINT32_MAX {
      RecordsPack(c, code);
    }
  }

  lemma {:induction false} ProjectFitsIs(f: Floats, c: Controller, texts: seq<seq<byte>>)
    ensures ProjectFits(f, c, texts) <==>
              && TagsStart(f, c.tags) && RealsFit(AllSteps(AllRungs(c.routines, 0))) && RoutinesFit(c.routines)
              && ImageSize(c, texts) <= UINT32_MAX
    ensures var rungs := AllRungs(c.routines, 0);
            ImageSize(c, texts) == DIRECTORY_END + |Concat(texts)| + 12 * AfterRungs(rungs, Counters(0, 0, |c.tags|)).id
                                   + 8 * CountOperands(AllSteps(rungs)) + 8
                                     + 20 * (|c.tags| + CountHidden(AllSteps(rungs))) + 12 * |rungs|
    ensures DIRECTORY_END == 392 && UINT32_MAX == 0xffff_ffff
  {
  }

  // ----- admitted projects that do not build -----

  /** A timer with preset 5 and initial value 2 ** 40 passes the gate, which looks at the preset; but
   *  lowering takes the initial value, and packing it raises. */
  lemma {:induction false} UnbuildableTimer(f: Floats, directions: Directions, ir: IRProgram, texts: seq<seq<byte>>)
    requires |texts| == SECTION_COUNT - 3
    ensures var t := SourceTag(0, DataType.TIMER, Some(DintLit(0x100_0000_0000)), Some(5), true, false);
            && Admissible(Controller([t], []))
            && (LowersTo(Controller([t], []), directions, ir) ==> !Buildable(f, ir, texts))
  {
    var t := SourceTag(0, DataType.TIMER, Some(DintLit(0x100_0000_0000)), Some(5), true, false);
    if LowersTo(Controller([t], []), directions, ir) {
      BuildsIffFits(Controller([t], []), directions, ir, f, texts);
      assert t in [t] && !StartFits(f, t);
    }
  }

  /** So does a DINT without initial value whose preset, which the gate does not look at, is 2 ** 40. */
  lemma {:induction false} UnbuildablePreset(f: Floats, directions: Directions, ir: IRProgram, texts: seq<seq<byte>>)
    requires |texts| == SECTION_COUNT - 3
    ensures var t := SourceTag(0, DataType.DINT, None, Some(0x100_0000_0000), true, false);
            && Admissible(Controller([t], []))
            && (LowersTo(Controller([t], []), directions, ir) ==> !Buildable(f, ir, texts))
  {
    var t := SourceTag(0, DataType.DINT, None, Some(0x100_0000_0000), true, false);
    if LowersTo(Controller([t], []), directions, ir) {
      BuildsIffFits(Controller([t], []), directions, ir, f, texts);
      assert t in [t] && !StartFits(f, t);
    }
  }
}
