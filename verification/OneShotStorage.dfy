/** The storage lowering gives one-shots: each has a tag of its own, so the one-shot law holds of
 *  every one-shot of a compiled program. */
module OneShotStorage {
  import opened Bytes
  import opened Instructions
  import opened LadderTree
  import opened ControlFlow
  import opened Admission
  import opened Semantics
  import opened Machine
  import opened Safety
  import opened Runs
  import opened OneShotLaw
  import opened RecordNumbers
  import opened ScanLaws
  import opened Source
  import opened Lowering
  import opened Validation
  import opened Compiled

  predicate NamesTag(i: Instr, id: nat) {
    exists o | o in i.args :: o.kind == 1 && o.raw == id
  }

  /** The record of an instruction that passes the gate names declared tags, or, if it is a
   *  one-shot, its storage. */
  lemma {:induction false} StepNames(sorted: seq<SourceTag>, s: SourceInstr, c: Counters, id: nat)
    requires TagsExist(sorted, s) && NamesTag(Assemble(LowerStep(sorted, s, c)), id)
    ensures id < |sorted| || (NeedsStorage(s) && id == c.tag)
  {
    var i := Assemble(LowerStep(sorted, s, c));
    var o :| o in i.args && o.kind == 1 && o.raw == id;
    var k :| 0 <= k < |i.args| && i.args[k] == o;
    if !NeedsStorage(s) {
      assert o == AssembleOperand(LowerOperand(sorted, s.operands[k]));
      if s.operands[k].TagRef? {
        assert s.operands[k] in s.operands;
      }
    }
  }

  /** Tags above the declared ones are named from the current one on. */
  lemma {:induction false} NamesAbove(
      sorted: seq<SourceTag>, steps: seq<SourceInstr>, slot: nat, tag: nat, code: seq<Instr>, i: Instr, id: nat)
    requires AllTagsExist(sorted, steps) && Resolved(sorted, steps, slot, tag, code)
    requires i in code && NamesTag(i, id) && id >= |sorted|
    ensures id >= tag
    decreases |steps|
  {
    hide NamesTag, Resolved, AllTagsExist, TagsExist, CountStateful, LowerStep, Assemble;
    ResolvedNothing(sorted, steps, slot, tag, code);
    var s := steps[0];
    ResolvedTail(sorted, steps, slot, tag, code);
    if i == code[0] {
      StepNames(sorted, s, Counters(code[0].id, slot, tag), id);
    } else {
      assert code == [code[0]] + code[1..];
      NamesAbove(sorted, steps[1..], slot + CountStateful([s]), tag + CountHidden([s]), code[1..], i, id);
    }
  }

  lemma {:induction false} ResolvedTail(
      sorted: seq<SourceTag>, steps: seq<SourceInstr>, slot: nat, tag: nat, code: seq<Instr>)
    requires steps != [] && AllTagsExist(sorted, steps) && Resolved(sorted, steps, slot, tag, code)
    ensures TagsExist(sorted, steps[0]) && AllTagsExist(sorted, steps[1..])
    ensures code != [] && code[0] == Assemble(LowerStep(sorted, steps[0], Counters(code[0].id, slot, tag)))
    ensures Resolved(sorted, steps[1..], slot + CountStateful([steps[0]]), tag + CountHidden([steps[0]]), code[1..])
    ensures CountHidden([steps[0]]) == if NeedsStorage(steps[0]) then 1 else 0
  {
    assert steps[0] in steps && [steps[0]][1..] == [];
    assert CountHidden([steps[0]]) == (if NeedsStorage(steps[0]) then 1 else 0) + CountHidden([]);
  }

  /** No two instructions name the same tag above the declared ones. */
  lemma {:induction false} OneOwner(
      sorted: seq<SourceTag>, steps: seq<SourceInstr>, slot: nat, tag: nat, code: seq<Instr>, i: Instr, j: Instr,
      id: nat)
    requires AllTagsExist(sorted, steps) && Resolved(sorted, steps, slot, tag, code)
    requires i in code && j in code && NamesTag(i, id) && NamesTag(j, id) && id >= |sorted|
    ensures i == j
    decreases |steps|
  {
    hide NamesTag, Resolved, AllTagsExist, TagsExist, CountStateful;
    ResolvedNothing(sorted, steps, slot, tag, code);
    var s := steps[0];
    ResolvedTail(sorted, steps, slot, tag, code);
    assert code == [code[0]] + code[1..];
    if i in code[1..] && j in code[1..] {
      OneOwner(sorted, steps[1..], slot + CountStateful([s]), tag + CountHidden([s]), code[1..], i, j, id);
    } else if i != j {
      var head, other := code[0], if i == code[0] then j else i;
      StepNames(sorted, s, Counters(head.id, slot, tag), id);
      NamesAbove(sorted, steps[1..], slot + CountStateful([s]), tag + CountHidden([s]), code[1..], other, id);
    }
  }

  lemma {:induction false} ResolvedNothing(
      sorted: seq<SourceTag>, steps: seq<SourceInstr>, slot: nat, tag: nat, code: seq<Instr>)
    requires AllTagsExist(sorted, steps) && Resolved(sorted, steps, slot, tag, code) && code != []
    ensures steps != []
  {
  }

  /** A one-shot that passes the gate is one that lowering gives storage. */
  lemma {:induction false} OneShotHasStorage(
      tags: seq<SourceTag>, sorted: seq<SourceTag>, steps: seq<SourceInstr>, slot: nat, tag: nat, code: seq<Instr>,
      own: Instr)
    requires AllTagsExist(sorted, steps) && Resolved(sorted, steps, slot, tag, code) && |sorted| <= tag
    requires forall s | s in steps :: StepPasses(tags, s)
    requires own in code && own.op == OP_ONS
    ensures own.args != [] && own.args[0].kind == 1 && own.args[0].raw >= |sorted|
    decreases |steps|
  {
    hide Resolved, AllTagsExist, TagsExist, CountStateful, OperandPasses, Rules;
    ResolvedNothing(sorted, steps, slot, tag, code);
    var s := steps[0];
    assert s in steps;
    ResolvedTail(sorted, steps, slot, tag, code);
    if own != code[0] {
      assert code == [code[0]] + code[1..];
      OneShotHasStorage(tags, sorted, steps[1..], slot + CountStateful([s]), tag + CountHidden([s]), code[1..], own);
    } else {
      assert s.mnemonic == ONS && StepPasses(tags, s) && NeedsStorage(s);
    }
  }

  lemma {:induction false} InExecuted(code: seq<Instr>, i: Instr)
    requires i in code && !IsControl(i.op)
    ensures i in Executed(code)
    decreases |code|
  {
    if code[0] != i {
      InExecuted(code[1..], i);
    }
  }

  lemma {:induction false} StepsPass(c: Controller, rungs: seq<Placed>)
    requires forall r | r in rungs :: forall s | s in Walk(r.rung) :: StepPasses(c.tags, s)
    ensures forall s | s in AllSteps(rungs) :: StepPasses(c.tags, s)
  {
    forall s | s in AllSteps(rungs)
      ensures StepPasses(c.tags, s)
    {
      AllStepsMembers(rungs, s);
    }
  }

  /** Every one-shot of a compiled program has a storage tag, beyond the declared tags, that no
   *  other instruction names. */
  lemma {:induction false} OneShotsOwnStorage(c: Controller, directions: Directions, ir: IRProgram, own: Instr)
    requires Admissible(c) && LowersTo(c, directions, ir)
    requires own in Loads(ir).code && own.op == OP_ONS
    ensures own.args != [] && own.args[0].raw >= |c.tags| && OwnsStorage(Loads(ir), own.args[0].raw, own)
  {
    var sorted, rungs := SortTags(c.tags), AllRungs(c.routines, 0);
    var code, steps := Loads(ir).code, AllSteps(rungs);
    AdmissibleLowers(c);
    RungsCode(sorted, rungs, Counters(0, 0, |sorted|));
    SortSorts(c.tags);
    assert |sorted| == |multiset(sorted)| == |multiset(c.tags)| == |c.tags|;
    StepsPass(c, rungs);
    hide Resolved, Executed, AllSteps, LowersTo, Admissible, StepPasses, AllTagsExist;
    InExecuted(code, own);
    OneShotHasStorage(c.tags, sorted, steps, 0, |sorted|, Executed(code), own);
    var id := own.args[0].raw;
    assert own.args[0] in own.args && NamesTag(own, id);
    forall i, o | i in code && o in i.args && o.kind == 1 && o.raw == id
      ensures i == own
    {
      assert NamesTag(i, id) && !IsControl(i.op);
      InExecuted(code, i);
      OneOwner(sorted, steps, 0, |sorted|, Executed(code), i, own, id);
    }
  }

  /** The one-shot law of compiled programs: from the mode change on, for as long as the scans
   *  answer OK and the host leaves the storage alone, a one-shot passes power exactly when its
   *  input is true and was false at its last run, and the input before the first run counts as
   *  true. */
  lemma {:induction false} CompiledOneShotsPulse(
      c: Controller, directions: Directions, ir: IRProgram, own: Instr, reals: RealOps, st: State, mode: Mode,
      calls: seq<Call>)
    requires Admissible(c) && LowersTo(c, directions, ir) && Deployable(c, directions)
    requires own in Loads(ir).code && own.op == OP_ONS
    requires Invariant(Loads(ir), st) && st.visible == |Loads(ir).code| && st.mode == PROGRAM
             && (mode == RUN || mode == TEST)
    ensures ProgramOk(Loads(ir)) && CoilsHaveOperands(Loads(ir).code)
    ensures var started := SetMode(Loads(ir), st, mode).0;
            && own.args != [] && Shape(Loads(ir), started)
            && (Steady(Loads(ir), reals, started, calls, {own.args[0].raw}) && StorageUnforced(st, own.args[0].raw)
                ==> PulsesOnRise(RunLog(Loads(ir), reals, started, calls), own, true))
  {
    var p := Loads(ir);
    CompiledAcceptedIffDeployable(c, directions, ir);
    AcceptedCoilsHaveOperands(p);
    OneShotsOwnStorage(c, directions, ir, own);
    OwnedPulses(p, own, reals, st, mode, calls);
  }

  /** And scan by scan: it runs once in every scan, and passes power in scan k exactly when its input
   *  is true at scan k and was false at scan k - 1, with true before the first. */
  lemma {:induction false} CompiledOneShotsPulseEachScan(
      c: Controller, directions: Directions, ir: IRProgram, own: Instr, reals: RealOps, st: State, mode: Mode,
      calls: seq<Call>)
    requires Admissible(c) && LowersTo(c, directions, ir) && Deployable(c, directions)
    requires own in Loads(ir).code && own.op == OP_ONS
    requires Invariant(Loads(ir), st) && st.visible == |Loads(ir).code| && st.mode == PROGRAM
             && (mode == RUN || mode == TEST)
    ensures ProgramOk(Loads(ir)) && CoilsHaveOperands(Loads(ir).code)
    ensures var started := SetMode(Loads(ir), st, mode).0;
            && own.args != [] && Shape(Loads(ir), started)
            && (Steady(Loads(ir), reals, started, calls, {own.args[0].raw}) && StorageUnforced(st, own.args[0].raw)
                ==> var ran := Own(RunLog(Loads(ir), reals, started, calls), own);
                    && |ran| == |Ticks(calls)| && (forall k | 0 <= k < |ran| :: ran[k].tick == Ticks(calls)[k])
                    && PulsesEach(ran, true))
  {
    var p := Loads(ir);
    CompiledOneShotsPulse(c, directions, ir, own, reals, st, mode, calls);
    CompiledStandsOnce(c, directions, ir, own);
    hide *;
    StartedIsSound(p, st, mode);
    var started := SetMode(p, st, mode).0;
    if Steady(p, reals, started, calls, {own.args[0].raw}) && StorageUnforced(st, own.args[0].raw) {
      RunsOncePerScan(p, reals, started, calls, {own.args[0].raw}, own);
      PulsesOneByOne(RunLog(p, reals, started, calls), own, true);
    }
  }

  lemma {:induction false} StartedIsSound(p: Program, st: State, mode: Mode)
    requires ProgramOk(p) && CoilsHaveOperands(p.code) && Invariant(p, st)
    ensures var started := SetMode(p, st, mode).0;
            Invariant(p, started) && started.visible == st.visible && Shape(p, started)
  {
    SetModeIsSound(p, st, mode);
  }

  lemma {:induction false} CompiledStandsOnce(c: Controller, directions: Directions, ir: IRProgram, own: Instr)
    requires Admissible(c) && LowersTo(c, directions, ir) && own in Loads(ir).code && !IsControl(own.op)
    ensures StandsOnce(Loads(ir), own, |Loads(ir).code|)
  {
    var sorted, rungs, code := SortTags(c.tags), AllRungs(c.routines, 0), Loads(ir).code;
    assert code[..|code|] == code;
    hide SortTags, AllRungs, LoweredRungs, AssembleAll, Executed;
    RungsAreNumbered(sorted, rungs, Counters(0, 0, |sorted|));
    StandsOnceIfNumbered(code, 0, own);
  }

  predicate StorageUnforced(st: State, id: nat) {
    id < |st.store.forces| && st.store.forces[id] == None
  }

  lemma {:induction false} OwnedPulses(p: Program, own: Instr, reals: RealOps, st: State, mode: Mode, calls: seq<Call>)
    requires ProgramOk(p) && CoilsHaveOperands(p.code) && own in p.code && own.args != []
             && OwnsStorage(p, own.args[0].raw, own)
    requires Invariant(p, st) && st.visible == |p.code| && st.mode == PROGRAM && (mode == RUN || mode == TEST)
    ensures var started := SetMode(p, st, mode).0;
            && Shape(p, started)
            && (Steady(p, reals, started, calls, {own.args[0].raw}) && StorageUnforced(st, own.args[0].raw)
                ==> PulsesOnRise(RunLog(p, reals, started, calls), own, true))
  {
    var id := own.args[0].raw;
    var started := SetMode(p, st, mode).0;
    SetModeIsSound(p, st, mode);
    assert Visible(p, st.visible) == p.code;
    StorageStartsTrue(p, st, mode, id, own);
    IdleForces(Idle(st.store, true), p.code, true);
    if Steady(p, reals, started, calls, {id}) && StorageUnforced(st, id) {
      OneShotPulsesOnRise(p, reals, started, calls, id, own);
    }
  }

  lemma {:induction false} IdleForces(s: Store, code: seq<Instr>, prescan: bool)
    requires CoilsHaveOperands(code)
    ensures IdleCode(s, code, prescan).store.forces == s.forces
    decreases |code|
  {
    if code != [] {
      IdleForces(IdleStep(s, code[0], prescan).store, code[1..], prescan);
    }
  }
}
