/** What a scan of a compiled program does, read off the rung trees of the project. */
module WholeScan {
  import opened Bytes
  import opened Instructions
  import opened LadderTree
  import opened ControlFlow
  import opened Brackets
  import opened Admission
  import opened Semantics
  import opened Soundness
  import opened Machine
  import opened Safety
  import opened Runs
  import opened OneShotLaw
  import opened Source
  import opened Lowering
  import opened Validation
  import opened Compiled

  // ----- rungs as trees -----

  /** The rungs evaluated as trees, in order: each starts with power, works on the store the one
   *  before it left, and leaves its output power in its own place. */
  function TreeRungs(
      p: Program, sorted: seq<SourceTag>, rungs: seq<Placed>, c: Counters, reals: RealOps, tick: uint64, s: Store,
      power: seq<bool>, log: seq<seq<Event>>): Scanned
    requires RungTagsExist(sorted, rungs) && |rungs| <= |power|
    decreases |rungs|
  {
    if rungs == [] then Scanned(s, power, c.id, true, None, log)
    else
      assert rungs[0] in rungs && forall r | r in rungs[1..] :: r in rungs;
      var end := After(rungs[0].rung, c);
      match Eval(RuntimeMachine(Context(reals, tick, Visible(p, end.id))), Number(sorted, rungs[0].rung, c), s, true)
      case Out(s1, out, events) =>
        TreeRungs(p, sorted, rungs[1..], end, reals, tick, s1, power[|power| - |rungs| := out], log + [events])
      case Fault(s1, f) => Scanned(s1, power, end.id, false, Some(f), log)
  }

  /** The stream of one rung runs as its tree evaluates. */
  lemma {:induction false} RungIsTree(
      p: Program, sorted: seq<SourceTag>, rung: Rung, c: Counters, reals: RealOps, tick: uint64, s: Store, end: nat)
    requires AllTagsExist(sorted, Walk(rung)) && c.id <= end <= |p.code|
             && p.code[c.id..end] == Lowered(sorted, rung, c)
    ensures RungRun(p, reals, tick, s, c.id, end)
         == match Eval(RuntimeMachine(Context(reals, tick, Visible(p, end))), Number(sorted, rung, c), s, true)
            case Fault(s1, f) => Faulted(s1, f)
            case Out(s1, out, events) => Done(s1, out, [], events)
  {
    var m := RuntimeMachine(Context(reals, tick, p.code[..end]));
    var tree := Number(sorted, rung, c);
    NumberIsResolved(sorted, rung, c);
    ResolvedIsOrdinary(sorted, Walk(rung), c.slot, c.tag, Walk(tree));
    RunIsEval(m, tree, c.id, [], s, true, 0);
    assert Flatten(tree, c.id) + [] == Flatten(tree, c.id);
    hide Eval, Number, Flatten, Execute;
    match Eval(m, tree, s, true)
    case Fault(_, _) =>
    case Out(s1, out, events) =>
      RunEnded(m, [], s1, out, 0);
      assert events + [] == events;
  }

  /** The code still to run is that of the rungs still to run. */
  predicate CodeLeft(p: Program, sorted: seq<SourceTag>, rungs: seq<Placed>, c: Counters)
    requires RungTagsExist(sorted, rungs)
  {
    && c.id <= |p.code| && p.code[c.id..] == LoweredRungs(sorted, rungs, c)
    && |rungs| <= |p.counts| && p.counts[|p.counts| - |rungs|..] == RungCounts(RungTable(rungs, c))
    && forall r | r in rungs :: r.rung != []
  }

  lemma {:induction false} NextCode(p: Program, sorted: seq<SourceTag>, rungs: seq<Placed>, c: Counters)
    requires rungs != [] && RungTagsExist(sorted, rungs) && CodeLeft(p, sorted, rungs, c)
    ensures AllTagsExist(sorted, Walk(rungs[0].rung)) && RungTagsExist(sorted, rungs[1..])
    ensures var end := After(rungs[0].rung, c);
            && c.id < end.id <= |p.code| && p.code[c.id..end.id] == Lowered(sorted, rungs[0].rung, c)
            && p.counts[|p.counts| - |rungs|] == end.id - c.id
            && CodeLeft(p, sorted, rungs[1..], end)
  {
    RungsHead(sorted, rungs, c);
    var end := After(rungs[0].rung, c);
    assert rungs[0] in rungs && forall r | r in rungs[1..] :: r in rungs;
    AfterGrows(rungs[0].rung, c);
    LoweredLength(sorted, rungs[0].rung, c);
    hide Lowered, LoweredRungs, RungTable, AllTagsExist, After, Walk;
    var n, rest := end.id - c.id, LoweredRungs(sorted, rungs[1..], end);
    assert p.code[c.id..][..n] == p.code[c.id..end.id] && p.code[c.id..][n..] == p.code[end.id..];
    var counts := p.counts[|p.counts| - |rungs|..];
    assert counts[1..] == p.counts[|p.counts| - |rungs[1..]|..];
  }

  lemma {:induction false} NoCodeLeft(p: Program, sorted: seq<SourceTag>, c: Counters)
    requires CodeLeft(p, sorted, [], c)
    ensures c.id == |p.code|
  {
  }

  /** The scan's loop over the rungs computes what the trees mean, also where it faults. */
  lemma {:induction false} RungsAreTrees(
      p: Program, sorted: seq<SourceTag>, rungs: seq<Placed>, c: Counters, reals: RealOps, tick: uint64, s: Store,
      power: seq<bool>, log: seq<seq<Event>>)
    requires RungTagsExist(sorted, rungs) && CodeLeft(p, sorted, rungs, c) && |rungs| <= |p.counts| == |power|
    ensures Rungs(p, reals, tick, s, power, c.id, |p.counts| - |rungs|, |p.code|, log)
         == TreeRungs(p, sorted, rungs, c, reals, tick, s, power, log)
    decreases |rungs|
  {
    hide CodeLeft, RungTagsExist, Eval, Run, Number, After, Lowered, Walk;
    if rungs == [] {
      NoCodeLeft(p, sorted, c);
    } else {
      NextCode(p, sorted, rungs, c);
      var end, k := After(rungs[0].rung, c), |p.counts| - |rungs|;
      RungIsTree(p, sorted, rungs[0].rung, c, reals, tick, s, end.id);
      match Eval(RuntimeMachine(Context(reals, tick, Visible(p, end.id))), Number(sorted, rungs[0].rung, c), s, true)
      case Fault(_, _) =>
      case Out(s1, out, events) =>
        RungsAreTrees(p, sorted, rungs[1..], end, reals, tick, s1, power[k := out], log + [events]);
    }
  }

  lemma {:induction false} WholeCode(c: Controller, directions: Directions, ir: IRProgram)
    requires Admissible(c) && LowersTo(c, directions, ir)
    ensures var sorted, rungs := SortTags(c.tags), AllRungs(c.routines, 0);
            && RungTagsExist(sorted, rungs) && CodeLeft(Loads(ir), sorted, rungs, Counters(0, 0, |sorted|))
            && |Loads(ir).counts| == |rungs|
  {
    var sorted, rungs := SortTags(c.tags), AllRungs(c.routines, 0);
    AdmissibleLowers(c);
    TableLength(rungs, Counters(0, 0, |sorted|));
    hide LoweredRungs, RungTable, RungCounts, AllRungs, SortTags, Admissible, RungTagsExist;
    var p := Loads(ir);
    assert p.code[0..] == p.code && p.counts[|p.counts| - |rungs|..] == p.counts;
  }

  /** The parts of a scan that answers OK. */
  predicate Decomposes(st: State, hal: Hal, run: Scanned, r: ScanResult) {
    && run.finished && run.visible == st.visible
    && r.state == st.(store := run.store, power := run.power, scans := st.scans + 1)
    && r.log == run.log
    && r.written == if st.mode == RUN && hal.writesOutputs then WriteOutputs(run.store, hal, 0).written else []
  }

  lemma {:induction false} OkScan(p: Program, reals: RealOps, st: State, hal: Hal)
    requires Shape(p, st) && Scan(p, reals, st, hal).status == OK
    ensures var inputs := Capture(st.store, hal, 0);
            && inputs.fault.None?
            && Decomposes(st, hal, Rungs(p, reals, hal.now, inputs.store, st.power, 0, 0, st.visible, []),
              Scan(p, reals, st, hal))
  {
    var inputs := Capture(st.store, hal, 0);
    RungsKeepShape(p, reals, hal.now, inputs.store, st.power, 0, 0, st.visible, []);
    hide Capture, Rungs, WriteOutputs;
  }

  /** Whole-scan refinement. A scan of a compiled program that answers OK has read the inputs once,
   *  evaluated the rung trees in order with power on, and then, in RUN, written the outputs; the
   *  power of each rung stands in its place and the visible code is what it was. */
  lemma {:induction false} OkScanEvaluatesTrees(
      c: Controller, directions: Directions, ir: IRProgram, reals: RealOps, st: State, hal: Hal)
    requires Admissible(c) && LowersTo(c, directions, ir)
    requires st.visible == |Loads(ir).code| && |st.power| == |Loads(ir).counts|
    requires Scan(Loads(ir), reals, st, hal).status == OK
    ensures var sorted, rungs := SortTags(c.tags), AllRungs(c.routines, 0);
            RungTagsExist(sorted, rungs) && |rungs| == |st.power|
    ensures var sorted, rungs := SortTags(c.tags), AllRungs(c.routines, 0);
            var inputs := Capture(st.store, hal, 0);
            var trees := TreeRungs(Loads(ir), sorted, rungs, Counters(0, 0, |sorted|), reals, hal.now, inputs.store,
                st.power, []);
            var r := Scan(Loads(ir), reals, st, hal);
            inputs.fault.None? && Decomposes(st, hal, trees, r)
  {
    WholeCode(c, directions, ir);
    hide *;
    var sorted, rungs := SortTags(c.tags), AllRungs(c.routines, 0);
    IsShaped(Loads(ir), st);
    ScanIsTrees(Loads(ir), sorted, rungs, reals, st, hal);
  }

  lemma {:induction false} ScanIsTrees(
      p: Program, sorted: seq<SourceTag>, rungs: seq<Placed>, reals: RealOps, st: State, hal: Hal)
    requires RungTagsExist(sorted, rungs) && |rungs| == |st.power| && Shape(p, st) && st.visible == |p.code|
    requires CodeLeft(p, sorted, rungs, Counters(0, 0, |sorted|)) && |p.counts| == |rungs|
    requires Scan(p, reals, st, hal).status == OK
    ensures var inputs := Capture(st.store, hal, 0);
            var trees := TreeRungs(
                p, sorted, rungs, Counters(0, 0, |sorted|), reals, hal.now, inputs.store, st.power, []);
            inputs.fault.None? && Decomposes(st, hal, trees, Scan(p, reals, st, hal))
  {
    hide *;
    OkScan(p, reals, st, hal);
    var inputs := Capture(st.store, hal, 0).store;
    RungsAreTrees(p, sorted, rungs, Counters(0, 0, |sorted|), reals, hal.now, inputs, st.power, []);
  }

  lemma {:induction false} IsShaped(p: Program, st: State)
    requires st.visible <= |p.code| && |st.power| == |p.counts|
    ensures Shape(p, st)
  {
  }
}
