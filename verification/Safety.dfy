/** Verifier soundness over whole runs: a program the validator accepts can be driven by any
 *  sequence of host calls, with any host answers, and never raises a type or structure fault. */
module Safety {
  import opened Bytes
  import opened Instructions
  import opened ControlFlow
  import opened Brackets
  import opened Admission
  import opened Semantics
  import opened Soundness
  import opened Machine

  // ----- the rung table -----

  /** The nesting depth as `rung_boundaries_ok` counts it. */
  function Depth(code: seq<Instr>, depth: nat): Option<nat>
    decreases |code|
  {
    if code == [] then Some(depth)
    else if code[0].op == OP_BRANCH_BEGIN then Depth(code[1..], depth + 1)
    else if code[0].op == OP_BRANCH_END then
      if depth == 0 then None else Depth(code[1..], depth - 1)
    else Depth(code[1..], depth)
  }

  lemma {:induction false} DepthAppend(a: seq<Instr>, b: seq<Instr>, depth: nat)
    ensures Depth(a + b, depth) == match Depth(a, depth) case None => None case Some(d) => Depth(b, d)
    decreases |a|
  {
    if a == [] {
      assert a + b == b;
    } else {
      assert (a + b)[0] == a[0] && (a + b)[1..] == a[1..] + b;
      if a[0].op == OP_BRANCH_BEGIN {
        DepthAppend(a[1..], b, depth + 1);
      } else if a[0].op == OP_BRANCH_END {
        if depth > 0 {
          DepthAppend(a[1..], b, depth - 1);
        }
      } else {
        DepthAppend(a[1..], b, depth);
      }
    }
  }

  /** `rung_boundaries_ok`: the rungs cut the code into stretches that close their branches. */
  predicate RungsClose(code: seq<Instr>, counts: seq<nat>)
    decreases |counts|
  {
    if counts == [] then code == []
    else
      && counts[0] <= |code|
      && Depth(code[..counts[0]], 0) == Some(0)
      && RungsClose(code[counts[0]..], counts[1..])
  }

  /** The image validator's verdict on a program. */
  predicate ProgramOk(p: Program) {
    && (forall d | d in p.decls :: DeclOk(d))
    && StreamOk(p.decls, p.code)
    && (forall n | n in p.counts :: n > 0)
    && RungsClose(p.code, p.counts)
  }

  lemma {:induction false} DepthIsStackHeight(code: seq<Instr>, stack: seq<Frame>)
    requires Walked(code, stack).Some?
    ensures Depth(code, |stack|) == Some(|Walked(code, stack).value|)
    decreases |code|
  {
    if code != [] {
      DepthIsStackHeight(code[1..], Next(stack, code[0].op).value);
    }
  }

  lemma {:induction false} RungIsBalanced(code: seq<Instr>, counts: seq<nat>)
    requires counts != [] && RungsClose(code, counts) && Balanced(code, [])
    ensures Balanced(code[..counts[0]], []) && Balanced(code[counts[0]..], [])
  {
    var n := counts[0];
    assert code == code[..n] + code[n..];
    WalkedAppend(code[..n], code[n..], []);
    DepthIsStackHeight(code[..n], []);
  }

  /** A number of instructions that ends at the end of some rung. */
  predicate AtBoundary(counts: seq<nat>, n: nat)
    decreases |counts|
  {
    n == 0 || (counts != [] && counts[0] <= n && AtBoundary(counts[1..], n - counts[0]))
  }

  function Sum(counts: seq<nat>): nat {
    if counts == [] then 0 else counts[0] + Sum(counts[1..])
  }

  lemma {:induction false} PrefixIsBoundary(counts: seq<nat>, k: nat)
    requires k <= |counts|
    ensures AtBoundary(counts, Sum(counts[..k]))
  {
    if k > 0 {
      assert counts[..k][0] == counts[0] && counts[..k][1..] == counts[1..][..k - 1];
      PrefixIsBoundary(counts[1..], k - 1);
    }
  }

  lemma {:induction false} SumStep(counts: seq<nat>, k: nat)
    requires k < |counts|
    ensures Sum(counts[..k + 1]) == Sum(counts[..k]) + counts[k]
  {
    if k == 0 {
      assert counts[..1] == [counts[0]];
      assert Sum([counts[0]]) == counts[0] + Sum([]);
    } else {
      assert counts[..k + 1][0] == counts[..k][0] == counts[0];
      assert counts[..k + 1][1..] == counts[1..][..k] && counts[..k][1..] == counts[1..][..k - 1];
      SumStep(counts[1..], k - 1);
    }
  }

  lemma {:induction false} RungsFill(code: seq<Instr>, counts: seq<nat>)
    requires RungsClose(code, counts)
    ensures Sum(counts) == |code| && AtBoundary(counts, |code|)
    decreases |counts|
  {
    if counts != [] {
      RungsFill(code[counts[0]..], counts[1..]);
    }
  }

  // ----- the invariant -----

  predicate AllowedInRun(f: FaultRecord) {
    Allowed(f) || (f.category == HAL && 1 <= f.code <= 3) || (f.category == WATCHDOG && f.code == 1)
  }

  predicate Invariant(p: Program, st: State) {
    && Consistent(p.decls, Slots(p.code), st.store)
    && Shape(p, st)
    && AtBoundary(p.counts, st.visible)
    && (st.fault.Some? ==> AllowedInRun(st.fault.value))
  }

  lemma {:induction false} AcceptedCoilsHaveOperands(p: Program)
    requires ProgramOk(p)
    ensures CoilsHaveOperands(p.code)
  {
  }

  // ----- scans -----

  lemma {:induction false} CaptureIsSound(decls: seq<Decl>, slots: seq<int>, s: Store, hal: Hal, k: nat)
    requires Consistent(decls, slots, s)
    ensures var r := Capture(s, hal, k);
            Consistent(decls, slots, r.store)
              && (r.fault.Some? ==> r.fault.value.category == HAL && 1 <= r.fault.value.code <= 2)
    decreases |s.tags| - k
  {
    if k < |s.tags| {
      if s.tags[k].storage != 1 || !hal.readsInputs {
        CaptureIsSound(decls, slots, s, hal, k + 1);
      } else if hal.input(k).Some? && ValueCode(hal.input(k).value) == TypeCode(s.tags[k].data) {
        SetIsTyped(decls, s, k, DataOf(hal.input(k).value));
        CaptureIsSound(decls, slots, SetData(s, k, DataOf(hal.input(k).value)), hal, k + 1);
      }
    }
  }

  /** The scan stands at the start of a rung, with the rungs up to the visible end before it. */
  predicate Ready(p: Program, s: Store, pos: nat, rung: nat, visible: nat) {
    && ProgramOk(p) && Consistent(p.decls, Slots(p.code), s)
    && pos <= visible <= |p.code| && rung <= |p.counts|
    && pos == Sum(p.counts[..rung]) && AtBoundary(p.counts[rung..], visible - pos) && AtBoundary(p.counts, visible)
    && RungsClose(p.code[pos..], p.counts[rung..]) && Balanced(p.code[pos..], [])
  }

  lemma {:induction false} ReadyAtStart(p: Program, s: Store, visible: nat)
    requires ProgramOk(p) && Consistent(p.decls, Slots(p.code), s)
    requires visible <= |p.code| && AtBoundary(p.counts, visible)
    ensures Ready(p, s, 0, 0, visible)
  {
    assert p.code[0..] == p.code && p.counts[0..] == p.counts && p.counts[..0] == [];
  }

  function RungRun(p: Program, reals: RealOps, tick: uint64, s: Store, pos: nat, end: nat): Outcome<Store, FaultRecord>
    requires pos <= end <= |p.code|
  {
    Run(RuntimeMachine(Context(reals, tick, p.code[..end])), p.code[pos..end], s, true, 0)
  }

  /** The next rung lies before the visible end, and the one after it starts where it ends. */
  lemma {:induction false} NextRung(p: Program, s: Store, pos: nat, rung: nat, visible: nat)
    requires Ready(p, s, pos, rung, visible) && pos < visible
    ensures rung < |p.counts| && pos < pos + p.counts[rung] <= visible <= |p.code|
    ensures var end := pos + p.counts[rung];
            && Balanced(p.code[pos..end], []) && AtBoundary(p.counts, end)
            && forall s1 | Consistent(p.decls, Slots(p.code), s1) :: Ready(p, s1, end, rung + 1, visible)
  {
    hide Consistent, StreamOk, Balanced;
    var n := p.counts[rung];
    var rest := p.counts[rung..];
    assert rest[0] == n && rest[1..] == p.counts[rung + 1..];
    var end := pos + n;
    SumStep(p.counts, rung);
    PrefixIsBoundary(p.counts, rung + 1);
    assert p.code[pos..][..n] == p.code[pos..end] && p.code[pos..][n..] == p.code[end..];
    RungIsBalanced(p.code[pos..], rest);
    assert n in p.counts;
  }

  /** One rung of an accepted program. */
  lemma {:induction false} RungIsSound(
      p: Program, reals: RealOps, tick: uint64, s: Store, pos: nat, rung: nat, visible: nat)
    requires Ready(p, s, pos, rung, visible) && pos < visible
    ensures rung < |p.counts| && pos < pos + p.counts[rung] <= visible <= |p.code|
    ensures var end := pos + p.counts[rung];
            var o := RungRun(p, reals, tick, s, pos, end);
            && !o.RanOff? && Consistent(p.decls, Slots(p.code), o.st)
            && AtBoundary(p.counts, end)
            && (o.Faulted? ==> Allowed(o.fault))
            && (o.Done? ==> o.rest == [] && Ready(p, o.st, end, rung + 1, visible))
  {
    NextRung(p, s, pos, rung, visible);
    var stretch := p.code[pos..pos + p.counts[rung]];
    hide Run, Consistent, Balanced, AtBoundary, RungsClose, Slots, InstrOk;
    forall i | i in stretch && IsStateful(i.op)
      ensures i.slot in Slots(p.code)
    {
      SlotsMember(p.code, i);
    }
    RunIsSound(p.decls, Slots(p.code), Context(reals, tick, p.code[..pos + p.counts[rung]]), stretch, s, true);
  }

  lemma {:induction false} RungsAreSound(
      p: Program, reals: RealOps, tick: uint64, s: Store, power: seq<bool>, pos: nat, rung: nat, visible: nat,
      log: seq<seq<Event>>)
    requires Ready(p, s, pos, rung, visible) && |power| == |p.counts|
    ensures var r := Rungs(p, reals, tick, s, power, pos, rung, visible, log);
            && Consistent(p.decls, Slots(p.code), r.store)
            && AtBoundary(p.counts, r.visible)
            && (!r.finished ==> r.fault.Some? && Allowed(r.fault.value))
    decreases |p.counts| - rung
  {
    hide Run, Consistent, ProgramOk, AtBoundary, Allowed;
    if pos < visible {
      RungIsSound(p, reals, tick, s, pos, rung, visible);
      var end := pos + p.counts[rung];
      var o := RungRun(p, reals, tick, s, pos, end);
      if o.Done? {
        RungsAreSound(p, reals, tick, o.st, power[rung := o.power], end, rung + 1, visible, log + [o.log]);
      }
    }
  }

  lemma {:induction false} OutputsFail(s: Store, hal: Hal, k: nat)
    ensures var r := WriteOutputs(s, hal, k); r.fault.Some? ==> r.fault.value.category == HAL && r.fault.value.code == 3
    decreases |s.tags| - k
  {
    if k < |s.tags| {
      OutputsFail(s, hal, k + 1);
    }
  }

  /** A scan of an accepted program keeps the invariant; when it answers FAULTED it has recorded a
   *  fault, and the fault is one of the allowed ones. */
  lemma {:induction false} ScanIsSound(p: Program, reals: RealOps, st: State, hal: Hal)
    requires ProgramOk(p) && Invariant(p, st) && st.mode != FAULTED
    ensures var r := Scan(p, reals, st, hal);
            && Invariant(p, r.state)
            && (r.status == FAULT_STATUS ==> r.state.mode == FAULTED && r.state.fault.Some?)
  {
    var captured := Capture(st.store, hal, 0);
    CaptureIsSound(p.decls, Slots(p.code), st.store, hal, 0);
    if st.mode != PROGRAM && captured.fault.None? {
      ReadyAtStart(p, captured.store, st.visible);
      RungsAreSound(p, reals, hal.now, captured.store, st.power, 0, 0, st.visible, []);
      RungsKeepShape(p, reals, hal.now, captured.store, st.power, 0, 0, st.visible, []);
      OutputsFail(Rungs(p, reals, hal.now, captured.store, st.power, 0, 0, st.visible, []).store, hal, 0);
    }
  }

  // ----- mode changes -----

  lemma {:induction false} IdleIsSound(decls: seq<Decl>, slots: seq<int>, s: Store, prescan: bool)
    requires Consistent(decls, slots, s)
    ensures Consistent(decls, slots, Idle(s, prescan))
  {
    forall k | 0 <= k < |decls|
      ensures TypeCode(Idle(s, prescan).tags[k].data) == decls[k].typ
              && Idle(s, prescan).tags[k].storage == decls[k].storage
    {
      assert TypeCode(s.tags[k].data) == decls[k].typ;
    }
  }

  lemma {:induction false} IdleCodeIsSound(decls: seq<Decl>, slots: seq<int>, s: Store, code: seq<Instr>, prescan: bool)
    requires Consistent(decls, slots, s) && CoilsHaveOperands(code)
    requires forall i | i in code :: InstrOk(decls, i)
    ensures var l := IdleCode(s, code, prescan); l.ok && Consistent(decls, slots, l.store)
    decreases |code|
  {
    if code != [] {
      var i := code[0];
      assert i in code && InstrOk(decls, i);
      var v := IdleWrite(i, prescan);
      if v.Some? {
        WriteIsTyped(decls, s, i.args[0], v.value);
        IdleCodeIsSound(decls, slots, Write(s, i.args[0], v.value).value, code[1..], prescan);
      } else {
        IdleCodeIsSound(decls, slots, s, code[1..], prescan);
      }
    }
  }

  /** A mode change of an accepted program never finds a coil it cannot write. */
  lemma {:induction false} SetModeIsSound(p: Program, st: State, mode: Mode)
    requires ProgramOk(p) && Invariant(p, st) && CoilsHaveOperands(p.code)
    ensures Invariant(p, SetMode(p, st, mode).0) && SetMode(p, st, mode).1 != NOT_WRITABLE
  {
    PassIsSound(p, st, (mode == RUN || mode == TEST) && st.mode == PROGRAM);
  }

  /** Nor does a prescan or a postscan the host asks for. */
  lemma {:induction false} PassIsSound(p: Program, st: State, prescan: bool)
    requires ProgramOk(p) && Invariant(p, st) && CoilsHaveOperands(p.code)
    ensures Invariant(p, Pass(p, st, prescan).0) && Pass(p, st, prescan).1 == OK
  {
    IdleIsSound(p.decls, Slots(p.code), st.store, prescan);
    IdleCodeIsSound(p.decls, Slots(p.code), Idle(st.store, prescan), Visible(p, st.visible), prescan);
  }

  // ----- all calls -----

  lemma {:induction false} ApplyIsSound(p: Program, reals: RealOps, st: State, call: Call)
    requires ProgramOk(p) && Invariant(p, st) && CoilsHaveOperands(p.code)
    ensures Invariant(p, Apply(p, reals, st, call).0)
  {
    match call
    case CallSetMode(mode) => SetModeIsSound(p, st, mode);
    case CallPass(prescan) => PassIsSound(p, st, prescan);
    case CallScan(hal) =>
      if st.mode != FAULTED {
        ScanIsSound(p, reals, st, hal);
      }
    case CallWrite(id, v) =>
      if id < |st.store.tags| {
        assert TypeCode(st.store.tags[id].data) == p.decls[id].typ;
      }
    case CallForce(id, v) =>
      if id < |st.store.tags| {
        assert TypeCode(st.store.tags[id].data) == p.decls[id].typ;
      }
    case CallClearForce(_) =>
    case CallClearAll =>
  }

  /** Verifier soundness: whatever the host does with an accepted program, the fault register only
   *  ever holds a numeric fault, a negative preset, a mixed-type destination, a branch with code
   *  outside its lanes, or a failure of the host itself. */
  lemma {:induction false} AcceptedProgramsStaySound(p: Program, reals: RealOps, st: State, calls: seq<Call>)
    requires ProgramOk(p) && Invariant(p, st) && CoilsHaveOperands(p.code)
    ensures Invariant(p, Calls(p, reals, st, calls))
    decreases |calls|
  {
    if calls != [] {
      ApplyIsSound(p, reals, st, calls[0]);
      AcceptedProgramsStaySound(p, reals, Apply(p, reals, st, calls[0]).0, calls[1..]);
    }
  }
}
