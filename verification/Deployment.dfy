/** The chain as a whole: from a project to the scans of the runtime that loaded its image. */
module Deployment {
  import opened Bytes
  import opened Instructions
  import opened LadderTree
  import opened ControlFlow
  import opened Brackets
  import opened Admission
  import opened Semantics
  import opened Soundness
  import opened Machine
  import opened Safety
  import opened Source
  import opened Lowering
  import opened Validation
  import opened Compiled
  import opened WholeScan
  import opened BranchFaults
  import opened ImageFormat
  import opened ImageBuilder
  import opened Building
  import opened ImageRoundTrip
  import opened LadderState
  import opened LadderSteps
  import opened LadderScans
  import opened LadderRuns
  import LM = LadderMeaning

  lemma {:induction false} RungsAreTidy(sorted: seq<SourceTag>, rungs: seq<Placed>, c: Counters)
    requires RungTagsExist(sorted, rungs) && RungsShaped(rungs)
    ensures Tidy(LoweredRungs(sorted, rungs, c), [])
    decreases |rungs|
  {
    if rungs != [] {
      var rung := rungs[0].rung;
      RungsHead(sorted, rungs, c);
      var tree := Number(sorted, rung, c);
      NumberIsResolved(sorted, rung, c);
      ResolvedIsOrdinary(sorted, Walk(rung), c.slot, c.tag, Walk(tree));
      NumberIsShaped(sorted, rung, c, MAX_DEPTH);
      TreeIsTidy(tree, c.id, []);
      TreeIsBalanced(tree, c.id, []);
      hide Tidy, Walked, Shaped, Number, LoweredRungs, After, RungsShaped, RungTagsExist, AllTagsExist, Flatten, Walk,
           Ordinary, Resolved;
      TidyAppend(Lowered(sorted, rung, c), LoweredRungs(sorted, rungs[1..], After(rung, c)), []);
      RungsAreTidy(sorted, rungs[1..], After(rung, c));
    }
  }

  /** In deployable compiled code nothing stands inside a branch and outside its lanes. */
  lemma {:induction false} CompiledCodeIsTidy(c: Controller, directions: Directions, ir: IRProgram)
    requires Admissible(c) && LowersTo(c, directions, ir) && Deployable(c, directions)
    ensures Tidy(Loads(ir).code, [])
  {
    hide Tidy, SortTags, AllRungs, RungsShaped, RungTagsExist, LoweredRungs;
    RungsAreTidy(SortTags(c.tags), AllRungs(c.routines, 0), Counters(0, 0, |SortTags(c.tags)|));
  }

  /** The branch fault, which accepted code can raise, is out of reach of compiled code: no sequence
   *  of host calls, with any answers, makes the runtime record it. */
  lemma {:induction false} CompiledNeverBranchFault(
      c: Controller, directions: Directions, ir: IRProgram, reals: RealOps, st: State, calls: seq<Call>)
    requires Admissible(c) && LowersTo(c, directions, ir) && Deployable(c, directions)
    requires Invariant(Loads(ir), st) && NoBranchFault(st.fault)
    ensures CoilsHaveOperands(Loads(ir).code)
    ensures NoBranchFault(Calls(Loads(ir), reals, st, calls).fault)
  {
    hide *;
    CompiledAcceptedIffDeployable(c, directions, ir);
    CompiledCodeIsTidy(c, directions, ir);
    AcceptedCoilsHaveOperands(Loads(ir));
    TidyProgramsNeverBranchFault(Loads(ir), reals, st, calls);
  }

  /** The same from the image on: loaded into a runtime, a deployable project never records it. */
  lemma {:induction false} LoadedNeverBranchFault(
      c: Controller, directions: Directions, ir: IRProgram, f: Floats, texts: seq<seq<byte>>, uid: seq<byte>,
      digest: seq<byte>, reals: RealOps, calls: seq<Call>)
    requires Admissible(c) && LowersTo(c, directions, ir) && Deployable(c, directions) && NoGaps(c.routines)
    requires |texts| == SECTION_COUNT - 3 && |uid| == 16 && |digest| == 32 && ProjectFits(f, c, texts)
    ensures Buildable(f, ir, texts)
    ensures var content := ContentOf(ImageFor(f, ir, texts, uid, digest));
            && content.Some? && ContentOk(content.value)
            && var p, tags := ProgramOf(content.value), TagsOf(content.value.tags);
               && (forall k | 0 <= k < |Slots(p.code)| :: 0 <= Slots(p.code)[k] <= UINT32_MAX)
               && CoilsHaveOperands(p.code) && Shape(p, Initial(p, tags))
               && NoBranchFault(Calls(p, reals, Initial(p, tags), calls).fault)
  {
    var x, content := LoadsBack(c, directions, ir, f, texts, uid, digest);
    hide *;
    LoadedIsSound(content);
    InitialIsClean(ProgramOf(content), TagsOf(content.tags));
    CompiledNeverBranchFault(c, directions, ir, reals, Initial(ProgramOf(content), TagsOf(content.tags)), calls);
  }

  lemma {:induction false} InitialIsClean(p: Program, tags: seq<Tag>)
    requires forall k | 0 <= k < |Slots(p.code)| :: 0 <= Slots(p.code)[k] <= UINT32_MAX
    ensures NoBranchFault(Initial(p, tags).fault) && Shape(p, Initial(p, tags))
  {
  }

  /** The runtime reads the program back. */
  lemma {:induction false} LoadsBack(
      c: Controller, directions: Directions, ir: IRProgram, f: Floats, texts: seq<seq<byte>>, uid: seq<byte>,
      digest: seq<byte>)
      returns (x: seq<byte>, content: Content)
    requires Admissible(c) && LowersTo(c, directions, ir) && Deployable(c, directions) && NoGaps(c.routines)
    requires |texts| == SECTION_COUNT - 3 && |uid| == 16 && |digest| == 32 && ProjectFits(f, c, texts)
    ensures Buildable(f, ir, texts) && x == ImageFor(f, ir, texts, uid, digest)
    ensures ImageOk(x) && ContentOf(x) == Some(content) && ContentOk(content) && ProgramOf(content) == Loads(ir)
  {
    BuiltImageAcceptedIff(c, directions, ir, f, texts, uid, digest);
    x, content := ImageFor(f, ir, texts, uid, digest), Sections(f, ir);
    hide *;
    ImageRoundTrips(f, ir, texts, uid, digest, x, content);
    AcceptedHasContent(x);
  }

  lemma {:induction false} AcceptedHasContent(x: seq<byte>)
    requires ImageOk(x)
    ensures ContentOf(x).Some? && ContentOk(ContentOf(x).value)
  {
  }

  /** What the runtime reads out of the image of a project that fits, it scans as the project's rung
   *  trees: see OkScanEvaluatesTrees. */
  lemma {:induction false} ImageScansEvaluateTrees(
      c: Controller, directions: Directions, ir: IRProgram, f: Floats, texts: seq<seq<byte>>, uid: seq<byte>,
      digest: seq<byte>, reals: RealOps, st: State, hal: Hal)
    requires Admissible(c) && LowersTo(c, directions, ir)
    requires |texts| == SECTION_COUNT - 3 && |uid| == 16 && |digest| == 32 && ProjectFits(f, c, texts)
    ensures Buildable(f, ir, texts)
    ensures var content := Sections(f, ir);
            && ContentOf(ImageFor(f, ir, texts, uid, digest)) == Some(content)
            && TableOk(content.tags, 20) && Parse(content.code).Some? && TableOk(content.rungs, 12)
    ensures RungTagsExist(SortTags(c.tags), AllRungs(c.routines, 0))
    ensures var p, sorted, rungs := ProgramOf(Sections(f, ir)), SortTags(c.tags), AllRungs(c.routines, 0);
            Shape(p, st) && st.visible == |p.code| && Scan(p, reals, st, hal).status == OK ==>
              var inputs := Capture(st.store, hal, 0);
              && |rungs| == |st.power| && inputs.fault.None?
              && Decomposes(st, hal, TreeRungs(p, sorted, rungs, Counters(0, 0, |sorted|), reals, hal.now,
                inputs.store, st.power, []),
                            Scan(p, reals, st, hal))
  {
    BuildsIffFits(c, directions, ir, f, texts);
    var x, content := ImageFor(f, ir, texts, uid, digest), Sections(f, ir);
    ImageRoundTrips(f, ir, texts, uid, digest, x, content);
    AdmissibleLowers(c);
    hide Scan, TreeRungs, Capture, Decomposes, Built, LowersTo, Admissible, ProgramOf, Loads, ContentOf, TableOk,
         SortTags, AllRungs, RungTagsExist,
         Sections, ImageFor, Buildable, ProjectFits;
    var p := Loads(ir);
    if Shape(p, st) && st.visible == |p.code| && Scan(p, reals, st, hal).status == OK {
      OkScanEvaluatesTrees(c, directions, ir, reals, st, hal);
    }
  }

  /** Any state a runtime with the program can be in holds a world of the project, and its next scan does
   *  what the rungs mean on that world. */
  lemma {:induction false} SoundScanMeans(
      c: Controller, directions: Directions, ir: IRProgram, reals: RealOps, st: State, hal: Hal)
      returns (w: LM.World, answers: map<nat, Value>)
    requires Admissible(c) && LowersTo(c, directions, ir) && Deployable(c, directions)
    requires RealsFit(AllSteps(AllRungs(c.routines, 0))) && Invariant(Loads(ir), st)
    ensures LadderSteps.Holds(c.tags, directions, st.store, w) && Shape(Loads(ir), st)
    ensures st.visible == |Loads(ir).code| && (st.mode == RUN || st.mode == TEST)
            && AnswersInputs(SortTags(c.tags), directions, hal) ==>
              && Answered(SortTags(c.tags), directions, hal, answers)
              && Does(c.tags, directions, st, hal,
                      LM.RunRungs(reals, hal.now, TakenIn(w, answers), Trees(AllRungs(c.routines, 0)), []),
                      Scan(Loads(ir), reals, st, hal))
  {
    InvariantParts(Loads(ir), st);
    hide *;
    w := StateHoldsWorld(c, directions, ir, st.store);
    answers := map[];
    if st.visible == |Loads(ir).code| && (st.mode == RUN || st.mode == TEST)
       && AnswersInputs(SortTags(c.tags), directions, hal) {
      answers := ScanMeans(c, directions, ir, reals, st, w, hal);
    }
  }

  lemma {:induction false} InvariantParts(p: Program, st: State)
    requires Invariant(p, st)
    ensures Consistent(p.decls, Slots(p.code), st.store) && Shape(p, st)
  {
  }

  /** The whole chain: a project that fits and deploys is built, its image is accepted and read back, and
   *  after whatever the host has called, the next scan does to the tags of the project what its rungs
   *  mean. */
  lemma {:induction false} DeployedScansMean(
      c: Controller, directions: Directions, ir: IRProgram, f: Floats, texts: seq<seq<byte>>, uid: seq<byte>,
      digest: seq<byte>, reals: RealOps, calls: seq<Call>, hal: Hal)
      returns (w: LM.World, answers: map<nat, Value>)
    requires Admissible(c) && LowersTo(c, directions, ir) && Deployable(c, directions) && NoGaps(c.routines)
    requires |texts| == SECTION_COUNT - 3 && |uid| == 16 && |digest| == 32 && ProjectFits(f, c, texts)
    ensures Buildable(f, ir, texts)
    ensures var content := ContentOf(ImageFor(f, ir, texts, uid, digest));
            && content.Some? && ContentOk(content.value)
            && var p, tags := ProgramOf(content.value), TagsOf(content.value.tags);
               && (forall k | 0 <= k < |Slots(p.code)| :: 0 <= Slots(p.code)[k] <= UINT32_MAX)
               && CoilsHaveOperands(p.code) && Shape(p, Initial(p, tags))
               && var st := Calls(p, reals, Initial(p, tags), calls);
                  && LadderSteps.Holds(c.tags, directions, st.store, w) && Shape(p, st)
                  && (st.visible == |p.code| && (st.mode == RUN || st.mode == TEST)
                      && AnswersInputs(SortTags(c.tags), directions, hal) ==>
                        && Answered(SortTags(c.tags), directions, hal, answers)
                        && Does(c.tags, directions, st, hal,
                                LM.RunRungs(reals, hal.now, TakenIn(w, answers), Trees(AllRungs(c.routines, 0)), []),
                                Scan(p, reals, st, hal)))
  {
    var x, content := LoadsBack(c, directions, ir, f, texts, uid, digest);
    ProjectFitsIs(f, c, texts);
    hide *;
    LoadedImagesStaySound(x, reals, calls);
    var p := ProgramOf(content);
    w, answers := SoundScanMeans(c, directions, ir, reals, Calls(p, reals, Initial(p, TagsOf(content.tags)), calls),
      hal);
  }

  // ----- the start -----

  /** The value a tag is declared with: its initial value, or else its preset, whatever its type. */
  function DeclaredValue(t: SourceTag): Literal {
    match t.initial
    case Some(l) => l
    case None => DintLit(if t.preset.Some? then t.preset.value else 0)
  }

  /** A value as a number. */
  predicate AsNumber(f: Floats, l: Literal, n: int) {
    match l
    case BoolLit(b) => n == if b then 1 else 0
    case DintLit(v) => n == v
    case RealLit(bits) => if f.isZero(bits) then n == 0 else f.truncate(bits) == Some(n)
    case WideReal => false
  }

  /** The data a tag is declared with. */
  predicate Declared(f: Floats, t: SourceTag, d: Data) {
    var l := DeclaredValue(t);
    match t.dataType
    case BOOL => d == BoolD(l == BoolLit(true) || (l.DintLit? && l.v != 0))
    case DINT => d.DintD? && AsNumber(f, l, d.d)
    case REAL =>
      d.RealD? &&
      (match l
       case DintLit(v) => if v == 0 then d.bits == 0 else f.ofInt(v) == Some(d.bits)
       case RealLit(bits) => d.bits == if f.isZero(bits) then 0 else bits
       case _ => false)
    case TIMER => d.TimerD? && AsNumber(f, l, d.pre) && d == TimerD(d.pre, 0, false, false, false)
    case COUNTER => d.CounterD? && AsNumber(f, l, d.pre) && d == CounterD(d.pre, 0, false, false, false, false, false)
  }

  lemma {:induction false} StartsDeclared(f: Floats, t: SourceTag, directions: Directions, d: Data)
    requires TagPasses(t) && InitialData(f, DeclareTag(t, directions)) == Some(d)
    ensures Declared(f, t, d)
  {
  }

  /** The world at the start: every tag as declared, no forces, and nothing remembered. */
  predicate Fresh(f: Floats, tags: seq<SourceTag>, w: LM.World) {
    && (forall t | t in tags :: t.tagId in w.data && Declared(f, t, w.data[t.tagId]))
    && (forall t | t in tags :: t.tagId !in w.forces)
    && (forall k | 0 <= k < |w.shots| :: w.shots[k] == LM.Shot(false, None))
    && (forall k | 0 <= k < |w.marks| :: w.marks[k] == LM.Mark(false, false, 0))
  }

  lemma {:induction false} TagIsDeclared(
      f: Floats, tags: seq<SourceTag>, directions: Directions, ir: seq<IRTag>, st: Store, w: LM.World, t: SourceTag)
    requires t in tags && TagPasses(t) && LadderSteps.Holds(tags, directions, st, w)
    requires AddsHidden(DeclareTags(SortTags(tags), directions), ir) && TagsPack(f, ir) && st.tags == InitialTags(f, ir)
    requires forall k | 0 <= k < |st.forces| :: st.forces[k].None?
    ensures t.tagId in w.data && Declared(f, t, w.data[t.tagId]) && t.tagId !in w.forces
  {
    var sorted := SortTags(tags);
    SortSorts(tags);
    assert t in multiset(tags) && t in multiset(sorted);
    var n :| 0 <= n < |sorted| && sorted[n] == t;
    hide SortTags, InitialData, DeclareTag, Declared, Ascending, DistinctIds, StorageCode, DataTypeCode, TypeCode;
    assert LadderState.SameTag(sorted[n], directions, st, w, n);
    assert ir[n] == DeclareTag(t, directions);
    StartsDeclared(f, t, directions, st.tags[n].data);
  }

  lemma {:induction false} ShotIsFresh(
      f: Floats, tags: seq<SourceTag>, directions: Directions, ir: seq<IRTag>, st: Store, w: LM.World, k: nat)
    requires k < |w.shots| && LadderSteps.Holds(tags, directions, st, w)
    requires AddsHidden(DeclareTags(SortTags(tags), directions), ir) && TagsPack(f, ir) && st.tags == InitialTags(f, ir)
    requires forall k | 0 <= k < |st.forces| :: st.forces[k].None?
    ensures w.shots[k] == LM.Shot(false, None)
  {
    hide SortTags, DistinctIds;
    var n := |SortTags(tags)| + k;
    assert LadderState.SameShot(w.shots[k], st, n);
    assert ir[n] == HiddenTags(|ir| - |SortTags(tags)|)[k];
  }

  lemma {:induction false} MarkIsFresh(
      tags: seq<SourceTag>, directions: Directions, slots: seq<int>, st: Store, w: LM.World, k: nat)
    requires k < |w.marks| && LadderSteps.Holds(tags, directions, st, w)
    requires forall k | 0 <= k < |slots| :: 0 <= slots[k] <= UINT32_MAX
    requires st.states == FreshStates(slots)
    ensures w.marks[k] == LM.Mark(false, false, 0)
  {
    hide SortTags, DistinctIds;
    assert LadderState.SameMark(w.marks[k], st.states[k], k);
  }

  lemma {:induction false} InitialStore(p: Program, tags: seq<Tag>)
    requires forall k | 0 <= k < |Slots(p.code)| :: 0 <= Slots(p.code)[k] <= UINT32_MAX
    ensures var st := Initial(p, tags).store;
            && st.tags == tags && st.states == FreshStates(Slots(p.code))
            && forall k | 0 <= k < |st.forces| :: st.forces[k].None?
  {
  }

  lemma {:induction false} TagsRead(
      c: Controller, directions: Directions, ir: IRProgram, f: Floats, texts: seq<seq<byte>>, uid: seq<byte>,
      digest: seq<byte>, content: Content)
    requires LowersTo(c, directions, ir) && |texts| == SECTION_COUNT - 3 && |uid| == 16 && |digest| == 32
    requires Buildable(f, ir, texts) && ContentOf(ImageFor(f, ir, texts, uid, digest)) == Some(content)
    ensures TagsPack(f, ir.tags) && AddsHidden(DeclareTags(SortTags(c.tags), directions), ir.tags)
    ensures TableOk(content.tags, 20) && TagsOf(content.tags) == InitialTags(f, ir.tags)
  {
    ImageRoundTrips(f, ir, texts, uid, digest, ImageFor(f, ir, texts, uid, digest), Sections(f, ir));
    HeldSectionsRead(f, ir, Sections(f, ir));
    hide SortTags, AllRungs, ContentOf, TagsPack, TagsOk, Built, DeclareTags, ImageFor, InitialTags, TagsOf;
  }

  /** Loaded, the runtime holds every tag with the data it is declared with, and nothing remembered. */
  lemma {:induction false} LoadedWorldIsFresh(
      c: Controller, directions: Directions, ir: IRProgram, f: Floats, texts: seq<seq<byte>>, uid: seq<byte>,
      digest: seq<byte>) returns (w: LM.World)
    requires Admissible(c) && LowersTo(c, directions, ir) && Deployable(c, directions) && NoGaps(c.routines)
    requires |texts| == SECTION_COUNT - 3 && |uid| == 16 && |digest| == 32 && ProjectFits(f, c, texts)
    ensures Buildable(f, ir, texts)
    ensures var content := ContentOf(ImageFor(f, ir, texts, uid, digest));
            && content.Some? && ContentOk(content.value)
            && var p, tags := ProgramOf(content.value), TagsOf(content.value.tags);
               && (forall k | 0 <= k < |Slots(p.code)| :: 0 <= Slots(p.code)[k] <= UINT32_MAX)
               && LadderSteps.Holds(c.tags, directions, Initial(p, tags).store, w) && Fresh(f, c.tags, w)
  {
    var x, content := LoadsBack(c, directions, ir, f, texts, uid, digest);
    TagsPassed(c);
    hide *;
    LoadedIsSound(content);
    var p := ProgramOf(content);
    TagsRead(c, directions, ir, f, texts, uid, digest, content);
    var st := Initial(p, TagsOf(content.tags)).store;
    InvariantParts(p, Initial(p, TagsOf(content.tags)));
    InitialStore(p, TagsOf(content.tags));
    w := StateHoldsWorld(c, directions, ir, st);
    WorldIsFresh(f, c.tags, directions, ir.tags, Slots(p.code), st, w);
  }

  lemma {:induction false} TagsPassed(c: Controller)
    requires Admissible(c)
    ensures forall t | t in c.tags :: TagPasses(t)
  {
  }

  lemma {:induction false} WorldIsFresh(
      f: Floats, tags: seq<SourceTag>, directions: Directions, ir: seq<IRTag>, slots: seq<int>, st: Store, w: LM.World)
    requires (forall t | t in tags :: TagPasses(t)) && LadderSteps.Holds(tags, directions, st, w)
    requires AddsHidden(DeclareTags(SortTags(tags), directions), ir) && TagsPack(f, ir) && st.tags == InitialTags(f, ir)
    requires forall k | 0 <= k < |st.forces| :: st.forces[k].None?
    requires (forall k | 0 <= k < |slots| :: 0 <= slots[k] <= UINT32_MAX) && st.states == FreshStates(slots)
    ensures Fresh(f, tags, w)
  {
    hide LadderSteps.Holds, AddsHidden, TagsPack, TagPasses, InitialTags, FreshStates, Declared;
    forall t | t in tags
      ensures t.tagId in w.data && Declared(f, t, w.data[t.tagId]) && t.tagId !in w.forces
    {
      TagIsDeclared(f, tags, directions, ir, st, w, t);
    }
    forall k | 0 <= k < |w.shots|
      ensures w.shots[k] == LM.Shot(false, None)
    {
      ShotIsFresh(f, tags, directions, ir, st, w, k);
    }
    forall k | 0 <= k < |w.marks|
      ensures w.marks[k] == LM.Mark(false, false, 0)
    {
      MarkIsFresh(tags, directions, slots, st, w, k);
    }
  }
}
