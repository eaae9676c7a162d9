/** Whole scans: what a scan of a compiled program does to the tags of the project, its inputs and its
 *  outputs, is what the project means. */
module LadderRuns {
  import opened Bytes
  import opened Instructions
  import opened LadderTree
  import opened ControlFlow
  import opened Admission
  import opened Semantics
  import opened Soundness
  import opened Machine
  import opened Safety
  import opened Source
  import opened Lowering
  import opened Validation
  import opened Compiled
  import opened WholeScan
  import opened HostLaws
  import opened InstructionLaws
  import opened Building
  import opened LadderState
  import opened LadderSteps
  import opened LadderScans
  import LM = LadderMeaning

  // ----- every store of the program holds a world -----

  /** Each tag stands at the place its identity is found at. */
  predicate Indexed(sorted: seq<SourceTag>) {
    forall n | 0 <= n < |sorted| :: IndexOf(sorted, sorted[n].tagId) == n
  }

  lemma {:induction false} IsIndexed(tags: seq<SourceTag>)
    requires DistinctIds(tags)
    ensures DistinctIds(SortTags(tags)) && Indexed(SortTags(tags)) && |SortTags(tags)| == |tags|
  {
    SortedDistinct(tags);
    SortedSize(tags);
    hide SortTags;
    var sorted := SortTags(tags);
    forall n | 0 <= n < |sorted|
      ensures IndexOf(sorted, sorted[n].tagId) == n
    {
      IndexFinds(sorted, sorted[n].tagId);
    }
  }

  /** The world a store holds. */
  function WorldOf(sorted: seq<SourceTag>, st: Store): LM.World
    requires |sorted| <= |st.tags| && Indexed(sorted)
  {
    LM.World(
      map t | t in sorted :: t.tagId := st.tags[IndexOf(sorted, t.tagId)].data,
      map t | t in sorted && st.forces[IndexOf(sorted, t.tagId)].Some? :: t.tagId := st.forces[IndexOf(sorted,
        t.tagId)].value,
      seq(|st.tags| - |sorted|, k requires 0 <= k < |st.tags| - |sorted| =>
        LM.Shot(st.tags[|sorted| + k].data == BoolD(true), st.forces[|sorted| + k])),
      seq(|st.states|, k requires 0 <= k < |st.states| => LM.Mark(st.states[k].edge, st.states[k].valid,
        st.states[k].time)))
  }

  lemma {:induction false} WorldShowsTag(
      sorted: seq<SourceTag>, directions: Directions, decls: seq<Decl>, st: Store, n: nat)
    requires Indexed(sorted) && Declares(sorted, directions, decls) && WellTyped(decls, st) && n < |sorted|
    ensures SameTag(sorted[n], directions, st, WorldOf(sorted, st), n)
  {
    hide IndexOf;
    var t := sorted[n];
    assert IndexOf(sorted, t.tagId) == n && t in sorted;
    assert decls[n] == Decl(DataTypeCode(t.dataType), StorageCode(Direction(directions, t.tagId)));
    assert TypeCode(st.tags[n].data) == decls[n].typ;
  }

  lemma {:induction false} WorldShowsShot(
      sorted: seq<SourceTag>, directions: Directions, decls: seq<Decl>, st: Store, k: nat)
    requires Indexed(sorted) && Declares(sorted, directions, decls) && WellTyped(decls, st) && k < |decls| - |sorted|
    ensures SameShot(WorldOf(sorted, st).shots[k], st, |sorted| + k)
  {
    hide IndexOf, Indexed;
    assert decls[|sorted| + k] == Decl(1, 0);
    assert TypeCode(st.tags[|sorted| + k].data) == decls[|sorted| + k].typ;
  }

  lemma {:induction false} WorldHasTags(sorted: seq<SourceTag>, st: Store)
    requires |sorted| <= |st.tags| && Indexed(sorted)
    ensures forall id | id in WorldOf(sorted, st).data :: exists n :: 0 <= n < |sorted| && sorted[n].tagId == id
    ensures |WorldOf(sorted, st).shots| == |st.tags| - |sorted| && |WorldOf(sorted, st).marks| == |st.states|
  {
    hide IndexOf;
    forall id | id in WorldOf(sorted, st).data
      ensures exists n :: 0 <= n < |sorted| && sorted[n].tagId == id
    {
      var t :| t in sorted && t.tagId == id;
      var n :| 0 <= n < |sorted| && sorted[n] == t;
      assert sorted[n].tagId == id;
    }
  }

  lemma {:induction false} WorldIsHeld(tags: seq<SourceTag>, directions: Directions, st: Store, w: LM.World)
    requires DistinctIds(tags) && DistinctIds(SortTags(tags))
    requires |st.tags| == |SortTags(tags)| + |w.shots| && |st.states| == |w.marks|
    requires forall n | 0 <= n < |SortTags(tags)| :: SameTag(SortTags(tags)[n], directions, st, w, n)
    requires forall k | 0 <= k < |w.shots| :: SameShot(w.shots[k], st, |SortTags(tags)| + k)
    requires forall k | 0 <= k < |w.marks| :: SameMark(w.marks[k], st.states[k], k)
    requires forall id | id in w.data :: exists n :: 0 <= n < |SortTags(tags)| && SortTags(tags)[n].tagId == id
    ensures Holds(tags, directions, st, w)
  {
    hide SameTag, SameShot, SameMark, SortTags, DistinctIds;
  }

  lemma {:induction false} StoreHoldsWorld(
      tags: seq<SourceTag>, directions: Directions, decls: seq<Decl>, st: Store) returns (w: LM.World)
    requires DistinctIds(tags) && Declares(SortTags(tags), directions, decls) && WellTyped(decls, st)
    requires forall k | 0 <= k < |st.states| :: st.states[k].slot == k
    ensures Holds(tags, directions, st, w)
    ensures |w.marks| == |st.states| && |tags| + |w.shots| == |decls|
  {
    var sorted := SortTags(tags);
    hide *;
    IsIndexed(tags);
    DeclaredSize(sorted, directions, decls, st);
    w := WorldOf(sorted, st);
    WorldHasTags(sorted, st);
    forall n | 0 <= n < |sorted|
      ensures SameTag(sorted[n], directions, st, w, n)
    {
      WorldShowsTag(sorted, directions, decls, st, n);
    }
    forall k | 0 <= k < |w.shots|
      ensures SameShot(w.shots[k], st, |sorted| + k)
    {
      WorldShowsShot(sorted, directions, decls, st, k);
    }
    forall k | 0 <= k < |w.marks|
      ensures SameMark(w.marks[k], st.states[k], k)
    {
      WorldShowsMark(sorted, st, k);
    }
    WorldIsHeld(tags, directions, st, w);
  }

  lemma {:induction false} WorldShowsMark(sorted: seq<SourceTag>, st: Store, k: nat)
    requires |sorted| <= |st.tags| && Indexed(sorted) && k < |st.states| && st.states[k].slot == k
    ensures SameMark(WorldOf(sorted, st).marks[k], st.states[k], k)
  {
    hide Indexed, IndexOf;
  }

  lemma {:induction false} DeclaredSize(sorted: seq<SourceTag>, directions: Directions, decls: seq<Decl>, st: Store)
    requires Declares(sorted, directions, decls) && WellTyped(decls, st)
    ensures |sorted| <= |decls| == |st.tags|
  {
  }

  // ----- inputs -----

  /** The host's answers by identity: one for each INPUT tag, the one it gave for its number. */
  predicate Answered(sorted: seq<SourceTag>, directions: Directions, hal: Hal, answers: map<nat, Value>) {
    && (forall n | 0 <= n < |sorted| ::
          if hal.readsInputs && Direction(directions, sorted[n].tagId) == INPUT then
            sorted[n].tagId in answers && hal.input(n) == Some(answers[sorted[n].tagId])
          else sorted[n].tagId !in answers)
    && forall id | id in answers :: exists n :: 0 <= n < |sorted| && sorted[n].tagId == id
  }

  /** The world with the answers taken in. */
  function TakenIn(w: LM.World, answers: map<nat, Value>): LM.World {
    w.(data := map id | id in w.data ::
         if id !in answers then w.data[id]
         else match answers[id] case BoolV(b) => BoolD(b) case DintV(d) => DintD(d) case RealV(r) => RealD(r))
  }

  /** The tag is an INPUT the host answers for. */
  predicate Asked(directions: Directions, hal: Hal, id: nat, n: nat) {
    hal.readsInputs && Direction(directions, id) == INPUT && hal.input(n).Some?
  }

  function AnswersOf(sorted: seq<SourceTag>, directions: Directions, hal: Hal): map<nat, Value> {
    map t | t in sorted && Asked(directions, hal, t.tagId, IndexOf(sorted, t.tagId)) ::
      t.tagId := hal.input(IndexOf(sorted, t.tagId)).value
  }

  lemma {:induction false} AnswersAre(sorted: seq<SourceTag>, directions: Directions, hal: Hal)
    requires Indexed(sorted)
    ensures var answers := AnswersOf(sorted, directions, hal);
            && (forall n | 0 <= n < |sorted| ::
                  if Asked(directions, hal, sorted[n].tagId, n) then
                    sorted[n].tagId in answers && hal.input(n) == Some(answers[sorted[n].tagId])
                  else sorted[n].tagId !in answers)
            && (forall id | id in answers :: exists n :: 0 <= n < |sorted| && sorted[n].tagId == id)
  {
    hide IndexOf, Asked;
    var answers := AnswersOf(sorted, directions, hal);
    forall n | 0 <= n < |sorted|
      ensures if Asked(directions, hal, sorted[n].tagId, n) then
                sorted[n].tagId in answers && hal.input(n) == Some(answers[sorted[n].tagId])
              else sorted[n].tagId !in answers
    {
      assert sorted[n] in sorted && IndexOf(sorted, sorted[n].tagId) == n;
      AnsweredOnce(sorted, directions, hal, n);
    }
    forall id | id in answers
      ensures exists n :: 0 <= n < |sorted| && sorted[n].tagId == id
    {
      var t :| t in sorted && t.tagId == id;
      var n :| 0 <= n < |sorted| && sorted[n] == t;
      assert sorted[n].tagId == id;
    }
  }

  lemma {:induction false} AnsweredOnce(sorted: seq<SourceTag>, directions: Directions, hal: Hal, n: nat)
    requires n < |sorted| && IndexOf(sorted, sorted[n].tagId) == n
    ensures var answers := AnswersOf(sorted, directions, hal);
            if Asked(directions, hal, sorted[n].tagId, n) then
              sorted[n].tagId in answers && hal.input(n) == Some(answers[sorted[n].tagId])
            else sorted[n].tagId !in answers
  {
    hide IndexOf;
    assert sorted[n] in sorted;
  }

  /** After a clean capture the host has answered for every INPUT tag. */
  lemma {:induction false} AllAsked(
      sorted: seq<SourceTag>, directions: Directions, st: Store, w: LM.World, hal: Hal, n: nat)
    requires Represents(sorted, directions, st, w) && Capture(st, hal, 0).fault.None? && n < |sorted|
    ensures Asked(directions, hal, sorted[n].tagId, n) <==>
              hal.readsInputs && Direction(directions, sorted[n].tagId) == INPUT
  {
    CaptureStoresAnswers(st, hal, 0);
    hide Capture, TypeCode;
    assert SameTag(sorted[n], directions, st, w, n);
  }

  lemma {:induction false} AllAnswered(sorted: seq<SourceTag>, directions: Directions, st: Store, w: LM.World, hal: Hal)
    requires Represents(sorted, directions, st, w) && Indexed(sorted) && Capture(st, hal, 0).fault.None?
    ensures Answered(sorted, directions, hal, AnswersOf(sorted, directions, hal))
  {
    AnswersAre(sorted, directions, hal);
    forall n | 0 <= n < |sorted|
      ensures Asked(directions, hal, sorted[n].tagId, n) <==>
                hal.readsInputs && Direction(directions, sorted[n].tagId) == INPUT
    {
      AllAsked(sorted, directions, st, w, hal, n);
    }
    hide Represents, Indexed, Capture, Asked, AnswersOf, Direction;
  }

  lemma {:induction false} InputTaken(
      sorted: seq<SourceTag>, directions: Directions, st: Store, w: LM.World, hal: Hal, answers: map<nat, Value>,
      n: nat)
    requires Represents(sorted, directions, st, w) && Capture(st, hal, 0).fault.None?
    requires Answered(sorted, directions, hal, answers) && n < |sorted|
    ensures n < |Capture(st, hal, 0).store.tags|
            && SameTag(sorted[n], directions, Capture(st, hal, 0).store, TakenIn(w, answers), n)
  {
    var st1, id := Capture(st, hal, 0).store, sorted[n].tagId;
    CaptureStoresAnswers(st, hal, 0);
    hide Capture, TakenIn, Represents, Answered;
    TagOf(sorted, directions, st, w, n);
    AnswerOf(sorted, directions, hal, answers, n);
    if hal.readsInputs && Direction(directions, id) == INPUT {
      TakesAnswer(sorted[n], directions, st, st1, w, answers, n);
    } else {
      TakesNone(sorted[n], directions, st, st1, w, answers, n);
    }
  }

  lemma {:induction false} TagOf(sorted: seq<SourceTag>, directions: Directions, st: Store, w: LM.World, n: nat)
    requires Represents(sorted, directions, st, w) && n < |sorted|
    ensures n < |st.tags| && SameTag(sorted[n], directions, st, w, n)
  {
  }

  lemma {:induction false} AnswerOf(
      sorted: seq<SourceTag>, directions: Directions, hal: Hal, answers: map<nat, Value>, n: nat)
    requires Answered(sorted, directions, hal, answers) && n < |sorted|
    ensures if hal.readsInputs && Direction(directions, sorted[n].tagId) == INPUT then
              sorted[n].tagId in answers && hal.input(n) == Some(answers[sorted[n].tagId])
            else sorted[n].tagId !in answers
  {
  }

  lemma {:induction false} TakesAnswer(
      t: SourceTag, directions: Directions, st: Store, st1: Store, w: LM.World, answers: map<nat, Value>, n: nat)
    requires n < |st.tags| == |st1.tags| && SameTag(t, directions, st, w, n) && t.tagId in answers
    requires st1.forces == st.forces && st1.tags[n].storage == st.tags[n].storage
    requires TypeCode(st1.tags[n].data) == TypeCode(st.tags[n].data) && Stores(st1, n, answers[t.tagId])
    ensures SameTag(t, directions, st1, TakenIn(w, answers), n)
  {
  }

  lemma {:induction false} TakesNone(
      t: SourceTag, directions: Directions, st: Store, st1: Store, w: LM.World, answers: map<nat, Value>, n: nat)
    requires n < |st.tags| == |st1.tags| && SameTag(t, directions, st, w, n) && t.tagId !in answers
    requires st1.forces == st.forces && st1.tags[n] == st.tags[n]
    ensures SameTag(t, directions, st1, TakenIn(w, answers), n)
  {
  }

  /** A capture takes the host's answers into the world. */
  lemma {:induction false} InputsMean(
      tags: seq<SourceTag>, directions: Directions, st: Store, w: LM.World, hal: Hal) returns (answers: map<nat, Value>)
    requires Holds(tags, directions, st, w) && Capture(st, hal, 0).fault.None?
    ensures Answered(SortTags(tags), directions, hal, answers)
    ensures Holds(tags, directions, Capture(st, hal, 0).store, TakenIn(w, answers))
  {
    var sorted := SortTags(tags);
    hide *;
    HoldsRepresents(tags, directions, st, w);
    IsIndexed(tags);
    AllAnswered(sorted, directions, st, w, hal);
    answers := AnswersOf(sorted, directions, hal);
    var st1, w1 := Capture(st, hal, 0).store, TakenIn(w, answers);
    forall n | 0 <= n < |sorted|
      ensures n < |st1.tags| && SameTag(sorted[n], directions, st1, w1, n)
    {
      InputTaken(sorted, directions, st, w, hal, answers, n);
    }
    OthersTaken(sorted, directions, st, w, hal, answers);
    WorldIsHeld(tags, directions, st1, w1);
  }

  lemma {:induction false} OthersTaken(
      sorted: seq<SourceTag>, directions: Directions, st: Store, w: LM.World, hal: Hal, answers: map<nat, Value>)
    requires Represents(sorted, directions, st, w) && Capture(st, hal, 0).fault.None?
    ensures var st1, w1 := Capture(st, hal, 0).store, TakenIn(w, answers);
            && |st1.tags| == |sorted| + |w1.shots| && |st1.states| == |w1.marks|
            && w1.shots == w.shots && w1.marks == w.marks && w1.data.Keys == w.data.Keys
            && (forall k | 0 <= k < |w1.shots| :: SameShot(w1.shots[k], st1, |sorted| + k))
            && (forall k | 0 <= k < |w1.marks| :: SameMark(w1.marks[k], st1.states[k], k))
            && (forall id | id in w1.data :: exists n :: 0 <= n < |sorted| && sorted[n].tagId == id)
  {
    CaptureStoresAnswers(st, hal, 0);
    hide Capture, TypeCode, SameTag;
    forall k | 0 <= k < |w.shots|
      ensures SameShot(w.shots[k], Capture(st, hal, 0).store, |sorted| + k)
    {
      assert SameShot(w.shots[k], st, |sorted| + k);
    }
  }

  // ----- outputs -----

  /** The host has been handed the OUTPUT tags of the project in the order of their identities, each by
   *  its number and with the value it shows: all of them. */
  predicate HandedOver(sorted: seq<SourceTag>, directions: Directions, w: LM.World, written: seq<(nat, Value)>) {
    && (forall k | 0 <= k < |written| ::
          && written[k].0 < |sorted| && Direction(directions, sorted[written[k].0].tagId) == OUTPUT
          && LM.Showing(w, sorted[written[k].0].tagId) == Some(written[k].1))
    && (forall j, k | 0 <= j < k < |written| :: written[j].0 < written[k].0)
    && (forall n | 0 <= n < |sorted| && Direction(directions, sorted[n].tagId) == OUTPUT ::
          exists k :: 0 <= k < |written| && written[k].0 == n)
  }

  /** The storage of a bare one-shot is no output. */
  lemma {:induction false} ShotsAreInternal(sorted: seq<SourceTag>, directions: Directions, st: Store, w: LM.World)
    requires Represents(sorted, directions, st, w)
    ensures forall n | |sorted| <= n < |st.tags| :: st.tags[n].storage == 0
  {
    forall n | |sorted| <= n < |st.tags|
      ensures st.tags[n].storage == 0
    {
      assert SameShot(w.shots[n - |sorted|], st, |sorted| + (n - |sorted|));
    }
  }

  lemma {:induction false} OutputShown(
      sorted: seq<SourceTag>, directions: Directions, st: Store, w: LM.World, n: nat, v: Value)
    requires Represents(sorted, directions, st, w) && n < |sorted|
    requires st.tags[n].storage == IS_OUTPUT && Shows(st, n, v)
    ensures Direction(directions, sorted[n].tagId) == OUTPUT && LM.Showing(w, sorted[n].tagId) == Some(v)
  {
    assert SameTag(sorted[n], directions, st, w, n);
  }

  lemma {:induction false} OutputsMean(
      sorted: seq<SourceTag>, directions: Directions, st: Store, w: LM.World, written: seq<(nat, Value)>)
    requires Represents(sorted, directions, st, w) && ShownOutputs(st, 0, written) && AllOutputs(st, 0, written)
    ensures HandedOver(sorted, directions, w, written)
  {
    ShotsAreInternal(sorted, directions, st, w);
    forall k | 0 <= k < |written|
      ensures && written[k].0 < |sorted| && Direction(directions, sorted[written[k].0].tagId) == OUTPUT
              && LM.Showing(w, sorted[written[k].0].tagId) == Some(written[k].1)
    {
      OutputShown(sorted, directions, st, w, written[k].0, written[k].1);
    }
    forall n | 0 <= n < |sorted| && Direction(directions, sorted[n].tagId) == OUTPUT
      ensures exists k :: 0 <= k < |written| && written[k].0 == n
    {
      assert SameTag(sorted[n], directions, st, w, n);
    }
    hide Represents, Shows, LM.Showing;
  }

  // ----- which stores and hosts there are -----

  /** The code of the project: its tags, its slots and the place of each rung. */
  lemma {:induction false} CompiledShape(c: Controller, directions: Directions, ir: IRProgram)
    requires Admissible(c) && LowersTo(c, directions, ir)
    ensures var p, steps := Loads(ir), AllSteps(AllRungs(c.routines, 0));
            && DistinctIds(c.tags) && Declares(SortTags(c.tags), directions, p.decls)
            && |p.decls| == |c.tags| + LM.Shots(steps)
            && |Slots(p.code)| == LM.Remembering(steps)
            && forall k | 0 <= k < |Slots(p.code)| :: Slots(p.code)[k] == k
  {
    var sorted, rungs := SortTags(c.tags), AllRungs(c.routines, 0);
    var start := Counters(0, 0, |sorted|);
    AdmissibleLowers(c);
    SortedSize(c.tags);
    RungsCode(sorted, rungs, start);
    IrDeclares(sorted, directions, ir.tags);
    SameNumbers(AllSteps(rungs));
    ResolvedSlots(sorted, AllSteps(rungs), 0, |sorted|, Executed(Loads(ir).code), -1);
    SlotsOfExecuted(Loads(ir).code);
    hide Resolved, AllSteps, AfterRungs, RungTable, RungCounts, LoweredRungs, RungsClose, RungsShaped, Slots, Executed,
         Increasing, SortTags, AllRungs, AssembleAll, AllBare, AllTagsExist, RungTagsExist, Walk, StepPasses,
         LM.Shots, LM.Remembering, CountStateful, CountHidden, Declares, IRLiterals, SourceLiterals, DeclareTags;
  }

  /** Every state of the runtime that holds the program of a project holds a world of the project. */
  lemma {:induction false} StateHoldsWorld(c: Controller, directions: Directions, ir: IRProgram, st: Store)
      returns (w: LM.World)
    requires Admissible(c) && LowersTo(c, directions, ir) && Consistent(Loads(ir).decls, Slots(Loads(ir).code), st)
    ensures Holds(c.tags, directions, st, w)
    ensures HasRoom(w, LM.Place(0, 0, []), AllSteps(AllRungs(c.routines, 0)))
  {
    CompiledShape(c, directions, ir);
    hide Admissible, LowersTo, Declares, WellTyped, SortTags, Slots, AllRungs, AllSteps, DistinctIds;
    w := StoreHoldsWorld(c.tags, directions, Loads(ir).decls, st);
  }

  /** The host answers for every INPUT tag of the project, with a value of its type. */
  predicate AnswersInputs(sorted: seq<SourceTag>, directions: Directions, hal: Hal) {
    hal.readsInputs ==>
      forall n | 0 <= n < |sorted| && Direction(directions, sorted[n].tagId) == INPUT ::
        hal.input(n).Some? && ValueCode(hal.input(n).value) == DataTypeCode(sorted[n].dataType)
  }

  lemma {:induction false} CaptureFails(s: Store, hal: Hal, k: nat, n: nat)
    requires k <= n < |s.tags| && s.tags[n].storage == IS_INPUT && hal.readsInputs
    requires hal.input(n).None? || ValueCode(hal.input(n).value) != TypeCode(s.tags[n].data)
    ensures Capture(s, hal, k).fault.Some?
    decreases |s.tags| - k
  {
    if k < n {
      if s.tags[k].storage != IS_INPUT {
        CaptureFails(s, hal, k + 1, n);
      } else if hal.input(k).Some? && ValueCode(hal.input(k).value) == TypeCode(s.tags[k].data) {
        CaptureFails(SetData(s, k, DataOf(hal.input(k).value)), hal, k + 1, n);
      }
    }
  }

  lemma {:induction false} CaptureWorks(s: Store, hal: Hal, k: nat)
    requires hal.readsInputs ==>
               forall n | k <= n < |s.tags| && s.tags[n].storage == IS_INPUT ::
                 hal.input(n).Some? && ValueCode(hal.input(n).value) == TypeCode(s.tags[n].data)
    ensures Capture(s, hal, k).fault.None?
    decreases |s.tags| - k
  {
    if k < |s.tags| {
      if s.tags[k].storage != IS_INPUT || !hal.readsInputs {
        CaptureWorks(s, hal, k + 1);
      } else {
        CaptureWorks(SetData(s, k, DataOf(hal.input(k).value)), hal, k + 1);
      }
    }
  }

  lemma {:induction false} CaptureWorksIff(
      sorted: seq<SourceTag>, directions: Directions, st: Store, w: LM.World, hal: Hal)
    requires Represents(sorted, directions, st, w)
    ensures Capture(st, hal, 0).fault.None? <==> AnswersInputs(sorted, directions, hal)
  {
    hide Capture;
    ShotsAreInternal(sorted, directions, st, w);
    if AnswersInputs(sorted, directions, hal) {
      forall n | 0 <= n < |st.tags| && st.tags[n].storage == IS_INPUT && hal.readsInputs
        ensures hal.input(n).Some? && ValueCode(hal.input(n).value) == TypeCode(st.tags[n].data)
      {
        assert n < |sorted| && SameTag(sorted[n], directions, st, w, n);
      }
      CaptureWorks(st, hal, 0);
    } else {
      var n :| 0 <= n < |sorted| && Direction(directions, sorted[n].tagId) == INPUT
               && !(hal.input(n).Some? && ValueCode(hal.input(n).value) == DataTypeCode(sorted[n].dataType));
      assert SameTag(sorted[n], directions, st, w, n);
      CaptureFails(st, hal, 0, n);
    }
  }

  // ----- a scan -----

  /** The scan has ended in a fault of the host's devices or its watchdog. */
  predicate FailedOutside(r: ScanResult) {
    && r.status == FAULT_STATUS && r.state.mode == FAULTED && r.state.fault.Some?
    && (r.state.fault.value.category == HAL || r.state.fault.value.category == WATCHDOG)
  }

  /** The parts of a scan whose inputs are in. */
  lemma {:induction false} ScanParts(p: Program, reals: RealOps, st: State, hal: Hal)
    requires Shape(p, st) && (st.mode == RUN || st.mode == TEST) && Capture(st.store, hal, 0).fault.None?
    ensures var r := Scan(p, reals, st, hal);
            var run := Rungs(p, reals, hal.now, Capture(st.store, hal, 0).store, st.power, 0, 0, st.visible, []);
            && r.state.store == run.store && r.state.power == run.power && r.state.visible == run.visible
            && (!run.finished ==> r.status == FAULT_STATUS && r.written == [])
            && (!run.finished && run.fault.Some? ==> r.state.mode == FAULTED && r.state.fault == run.fault)
            && (run.finished && r.status != OK ==> FailedOutside(r))
  {
    var run := Rungs(p, reals, hal.now, Capture(st.store, hal, 0).store, st.power, 0, 0, st.visible, []);
    OutputFaults(run.store, hal, 0);
    hide Capture, Rungs, WriteOutputs;
  }

  lemma {:induction false} OutputFaults(s: Store, hal: Hal, k: nat)
    ensures var f := WriteOutputs(s, hal, k).fault; f.Some? ==> f.value.category == HAL
    decreases |s.tags| - k
  {
    if k < |s.tags| {
      OutputFaults(s, hal, k + 1);
    }
  }

  lemma {:induction false} AllSound(c: Controller, directions: Directions)
    requires Admissible(c) && Deployable(c, directions) && RealsFit(AllSteps(AllRungs(c.routines, 0)))
    ensures SoundRungs(c.tags, directions, AllRungs(c.routines, 0))
  {
    var rungs := AllRungs(c.routines, 0);
    AdmissibleLowers(c);
    AdmissibleRungs(c, c.routines, 0);
    hide StepPasses, StepDeploys, NodesPass, AllRungs, RungsShaped, Walk, AllSteps, Laned, DistinctIds, SortTags;
    forall r | r in rungs
      ensures LadderScans.Sound(c.tags, directions, Walk(r.rung)) && Laned(r.rung)
    {
      PassingIsLaned(c.tags, r.rung);
      forall s | s in Walk(r.rung)
        ensures StepPasses(c.tags, s) && StepDeploys(directions, s) && LiteralOf(WideReal) !in s.operands
      {
        AllStepsMembers(rungs, s);
      }
    }
  }

  /** What the scan has done is what the rungs mean: the tags are those of the ladder after its run, the
   *  power of each rung stands in its place, and in RUN the host has been handed the outputs as they
   *  are shown; where the ladder stops, the runtime has recorded why. */
  predicate Does(tags: seq<SourceTag>, directions: Directions, st: State, hal: Hal, ran: LM.Ran, r: ScanResult) {
    && Holds(tags, directions, r.state.store, ran.w)
    && match ran.stopped
       case Some(why) =>
         && r.status == FAULT_STATUS && r.written == []
         && r.state.mode == FAULTED && r.state.fault.Some? && Reports(r.state.fault.value, why)
       case None =>
         && r.state.power == ran.powers && r.state.visible == st.visible
         && (r.status == OK || FailedOutside(r))
         && (r.status == OK ==> r.state.mode == st.mode && r.state.fault == st.fault && r.state.scans == st.scans + 1)
         && (r.status == OK ==>
               if st.mode == RUN && hal.writesOutputs then HandedOver(SortTags(tags), directions, ran.w, r.written)
               else r.written == [])
  }

  /** The rungs of the program, from its first record on. */
  lemma {:induction false} WholeRungs(
      c: Controller, directions: Directions, ir: IRProgram, reals: RealOps, tick: uint64, s: Store, w: LM.World,
      power: seq<bool>)
    requires Admissible(c) && LowersTo(c, directions, ir) && Deployable(c, directions)
    requires RealsFit(AllSteps(AllRungs(c.routines, 0))) && |power| == |Loads(ir).counts|
    requires Holds(c.tags, directions, s, w) && HasRoom(w, LM.Place(0, 0, []), AllSteps(AllRungs(c.routines, 0)))
    ensures var rungs := AllRungs(c.routines, 0);
            && |rungs| == |power|
            && RungsCorrespond(SortTags(c.tags), directions,
                               Rungs(Loads(ir), reals, tick, s, power, 0, 0, |Loads(ir).code|, []),
                               LM.RunRungs(reals, tick, w, Trees(rungs), []), power, |rungs|)
  {
    hide *;
    AllSound(c, directions);
    WholeCode(c, directions, ir);
    RungsFromStart(c.tags, directions, Loads(ir), AllRungs(c.routines, 0), reals, tick, s, w, power);
  }

  lemma {:induction false} RungsFromStart(
      tags: seq<SourceTag>, directions: Directions, p: Program, rungs: seq<Placed>, reals: RealOps, tick: uint64,
      s: Store, w: LM.World, power: seq<bool>)
    requires SoundRungs(tags, directions, rungs) && RungTagsExist(SortTags(tags), rungs)
    requires CodeLeft(p, SortTags(tags), rungs, Counters(0, 0, |SortTags(tags)|)) && |power| == |p.counts| == |rungs|
    requires Holds(tags, directions, s, w) && HasRoom(w, LM.Place(0, 0, []), AllSteps(rungs))
    ensures RungsCorrespond(SortTags(tags), directions, Rungs(p, reals, tick, s, power, 0, 0, |p.code|, []),
                            LM.RunRungs(reals, tick, w, Trees(rungs), []), power, |rungs|)
  {
    hide *;
    var start := Counters(0, 0, |SortTags(tags)|);
    RungsAreTrees(p, SortTags(tags), rungs, start, reals, tick, s, power, []);
    NothingDone(tags, p);
    assert [] + AllSteps(rungs) == AllSteps(rungs);
    RungsMean(tags, directions, p, rungs, start, [], reals, tick, s, w, power, []);
  }

  lemma {:induction false} NothingDone(tags: seq<SourceTag>, p: Program)
    ensures LadderScans.Done(tags, p, Counters(0, 0, |SortTags(tags)|), [])
  {
    SortedSize(tags);
    assert p.code[..0] == [];
  }

  /** The main result on meaning. A scan, in RUN or TEST and with all inputs answered, of the program of an
   *  admitted, deployable project does to its tags, forces, one-shots and marks exactly what its rungs
   *  mean on the world with the answers taken in. */
  lemma {:induction false} ScanMeans(
      c: Controller, directions: Directions, ir: IRProgram, reals: RealOps, st: State, w: LM.World, hal: Hal)
      returns (answers: map<nat, Value>)
    requires Admissible(c) && LowersTo(c, directions, ir) && Deployable(c, directions)
    requires RealsFit(AllSteps(AllRungs(c.routines, 0)))
    requires Shape(Loads(ir), st) && st.visible == |Loads(ir).code| && (st.mode == RUN || st.mode == TEST)
    requires Holds(c.tags, directions, st.store, w) && HasRoom(w, LM.Place(0, 0, []), AllSteps(AllRungs(c.routines, 0)))
    requires AnswersInputs(SortTags(c.tags), directions, hal)
    ensures Answered(SortTags(c.tags), directions, hal, answers)
    ensures Does(c.tags, directions, st, hal,
                 LM.RunRungs(reals, hal.now, TakenIn(w, answers), Trees(AllRungs(c.routines, 0)), []),
                 Scan(Loads(ir), reals, st, hal))
  {
    var p, rungs := Loads(ir), AllRungs(c.routines, 0);
    hide *;
    HoldsRepresents(c.tags, directions, st.store, w);
    CaptureWorksIff(SortTags(c.tags), directions, st.store, w, hal);
    answers := InputsMean(c.tags, directions, st.store, w, hal);
    var s1, w1 := Capture(st.store, hal, 0).store, TakenIn(w, answers);
    RoomTaken(w, answers, AllSteps(rungs));
    PowerSize(p, st);
    WholeRungs(c, directions, ir, reals, hal.now, s1, w1, st.power);
    ScanDoes(c.tags, directions, p, reals, st, hal, LM.RunRungs(reals, hal.now, w1, Trees(rungs), []));
  }

  lemma {:induction false} PowerSize(p: Program, st: State)
    requires Shape(p, st)
    ensures |st.power| == |p.counts| && st.visible <= |p.code|
  {
  }

  lemma {:induction false} RoomTaken(w: LM.World, answers: map<nat, Value>, steps: seq<SourceInstr>)
    requires HasRoom(w, LM.Place(0, 0, []), steps)
    ensures HasRoom(TakenIn(w, answers), LM.Place(0, 0, []), steps)
  {
  }

  lemma {:induction false} ScanDoes(
      tags: seq<SourceTag>, directions: Directions, p: Program, reals: RealOps, st: State, hal: Hal, ran: LM.Ran)
    requires Shape(p, st) && (st.mode == RUN || st.mode == TEST) && Capture(st.store, hal, 0).fault.None?
    requires DistinctIds(tags)
    requires RungsCorrespond(SortTags(tags), directions,
                             Rungs(p, reals, hal.now, Capture(st.store, hal, 0).store, st.power, 0, 0, st.visible, []),
                             ran, st.power, |st.power|)
    ensures Does(tags, directions, st, hal, ran, Scan(p, reals, st, hal))
  {
    var inputs := Capture(st.store, hal, 0).store;
    RungsKeepShape(p, reals, hal.now, inputs, st.power, 0, 0, st.visible, []);
    ScanParts(p, reals, st, hal);
    ScanModes(p, reals, st, hal);
    if Scan(p, reals, st, hal).status == OK {
      ScanHandsOutputs(p, reals, st, hal);
      if st.mode == RUN && hal.writesOutputs {
        OutputsMean(SortTags(tags), directions, Scan(p, reals, st, hal).state.store, ran.w,
          Scan(p, reals, st, hal).written);
      }
    }
    hide Scan, Rungs, Capture, Represents, DistinctIds, SortTags, ShownOutputs, AllOutputs, HandedOver, Reports,
         WriteOutputs;
  }

  /** Where the host leaves an INPUT unanswered, or answers with another type, the scan stops at it. */
  lemma {:induction false} UnansweredScan(
      tags: seq<SourceTag>, directions: Directions, p: Program, reals: RealOps, st: State, w: LM.World, hal: Hal)
    requires Shape(p, st) && (st.mode == RUN || st.mode == TEST) && Holds(tags, directions, st.store, w)
    requires !AnswersInputs(SortTags(tags), directions, hal)
    ensures var r := Scan(p, reals, st, hal); FailedOutside(r) && r.written == [] && r.log == []
  {
    CaptureWorksIff(SortTags(tags), directions, st.store, w, hal);
    CaptureStops(st.store, hal, 0);
    hide Capture, Holds, AnswersInputs;
  }
}
