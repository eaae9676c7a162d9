/** Fault 20 of the interpreter: which accepted programs can raise it, and when. */
module BranchFaults {
  import opened Bytes
  import opened Instructions
  import opened ControlFlow
  import opened Brackets
  import opened Admission
  import opened Semantics
  import opened Soundness
  import opened Machine
  import opened Safety

  /** The interpreter's fault of a malformed branch. */
  predicate IsBranchFault(f: FaultRecord) {
    f.category == Category.EXECUTION && f.code == 20
  }

  /** The faults of the instructions of accepted code. */
  predicate IsInstructionFault(f: FaultRecord) {
    Allowed(f) && !IsBranchFault(f)
  }

  /** No instruction raises the branch fault. */
  lemma {:induction false} ExecuteNeverBranchFault(c: Context, i: Instr, s: Store, power: bool)
    ensures var e := Execute(c, i, s, power); e.Failed? ==> !IsBranchFault(e.fault)
  {
  }

  // ----- one stretch of code -----

  predicate StretchOk(decls: seq<Decl>, slots: seq<int>, code: seq<Instr>) {
    && (forall i | i in code :: InstrOk(decls, i))
    && (forall i | i in code && IsStateful(i.op) :: i.slot in slots)
    && Balanced(code, [])
  }

  /** An accepted stretch of code raises the branch fault only if it is not tidy; if it is not, it
   *  never ends, and its run stops in the branch fault unless an instruction fails before. */
  lemma {:induction false} StretchTellsTidy(
      decls: seq<Decl>, slots: seq<int>, c: Context, code: seq<Instr>, s: Store, power: bool)
    requires StretchOk(decls, slots, code) && Consistent(decls, slots, s)
    ensures var o := Run(RuntimeMachine(c), code, s, power, 0);
            if Tidy(code, []) then o.Done? || (o.Faulted? && IsInstructionFault(o.fault))
            else o.Faulted? && (IsInstructionFault(o.fault) || o.fault == BranchFault(OP_BRANCH_BEGIN))
  {
    var m := RuntimeMachine(c);
    var inv := (s: Store) => Consistent(decls, slots, s);
    forall i, s: Store, power: bool | i in code && !IsControl(i.op) && inv(s) && (power ==> true)
      ensures StaysLimited(m.exec(i, s, power), inv, true, IsInstructionFault)
    {
      if IsStateful(i.op) {
        SlotIsFound(s.states, slots, i.slot);
      }
      ExecuteIsSound(decls, c, i, s, power);
      ExecuteNeverBranchFault(c, i, s, power);
    }
    BranchFaultIffUntidy(m, code, s, power, inv, true, IsInstructionFault);
  }

  // ----- runs without power -----

  predicate PresetOk(d: Data) {
    d.TimerD? ==> d.pre >= 0
  }

  /** No timer has a negative preset. */
  predicate PresetsOk(s: Store) {
    forall k | 0 <= k < |s.tags| :: PresetOk(s.tags[k].data)
  }

  /** Without power an accepted instruction does not fail and passes none on. */
  lemma {:induction false} QuietStep(decls: seq<Decl>, slots: seq<int>, c: Context, i: Instr, s: Store)
    requires Consistent(decls, slots, s) && PresetsOk(s) && InstrOk(decls, i) && !IsControl(i.op)
    requires IsStateful(i.op) ==> i.slot in slots
    ensures var e := Execute(c, i, s, false); e.Passed? && !e.power && Consistent(decls, slots, e.st) && PresetsOk(e.st)
  {
    if IsStateful(i.op) {
      SlotIsFound(s.states, slots, i.slot);
    }
    ExecuteIsSound(decls, c, i, s, false);
    assert OperandOk(decls, i.args[0]);
    ReadIsTyped(decls, s, i.args[0]);
    if |i.args| > 1 {
      assert OperandOk(decls, i.args[1]);
      ReadIsTyped(decls, s, i.args[1]);
    }
  }

  /** Exactly: from a consistent store without negative presets, a run without power stops in the
   *  branch fault if the code is not tidy, and at the end of the code if it is. */
  lemma {:induction false} QuietRunTellsTidy(decls: seq<Decl>, slots: seq<int>, c: Context, code: seq<Instr>, s: Store)
    requires StretchOk(decls, slots, code) && Consistent(decls, slots, s) && PresetsOk(s)
    ensures var o := Run(RuntimeMachine(c), code, s, false, 0);
            if Tidy(code, []) then o.Done? else o.Faulted? && o.fault == BranchFault(OP_BRANCH_BEGIN)
  {
    var m := RuntimeMachine(c);
    var inv := (s: Store) => Consistent(decls, slots, s) && PresetsOk(s);
    var none := (f: FaultRecord) => false;
    forall i, s: Store, power: bool | i in code && !IsControl(i.op) && inv(s) && (power ==> false)
      ensures StaysLimited(m.exec(i, s, power), inv, false, none)
    {
      QuietStep(decls, slots, c, i, s);
    }
    BranchFaultIffUntidy(m, code, s, false, inv, false, none);
  }

  // ----- scans -----

  lemma {:induction false} TidyNothing()
    ensures Tidy([], [])
  {
  }

  lemma {:induction false} TidyCut(code: seq<Instr>, n: nat)
    requires n <= |code| && Balanced(code[..n], [])
    ensures Tidy(code, []) <==> Tidy(code[..n], []) && Tidy(code[n..], [])
  {
    assert code == code[..n] + code[n..];
    TidyAppend(code[..n], code[n..], []);
  }

  lemma {:induction false} RungTellsTidy(
      p: Program, reals: RealOps, tick: uint64, s: Store, pos: nat, rung: nat, visible: nat)
    requires Ready(p, s, pos, rung, visible) && pos < visible
    ensures rung < |p.counts| && pos < pos + p.counts[rung] <= visible <= |p.code|
    ensures var end := pos + p.counts[rung];
            var o := RungRun(p, reals, tick, s, pos, end);
            && (Tidy(p.code[pos..], []) <==> Tidy(p.code[pos..end], []) && Tidy(p.code[end..], []))
            && (Tidy(p.code[pos..end], []) ==> o.Faulted? ==> IsInstructionFault(o.fault))
            && (!Tidy(p.code[pos..end], []) ==> o.Faulted?)
  {
    NextRung(p, s, pos, rung, visible);
    var end := pos + p.counts[rung];
    var stretch := p.code[pos..end];
    hide Run, Consistent, Balanced, AtBoundary, RungsClose, Slots, InstrOk, Tidy, IsInstructionFault;
    forall i | i in stretch && IsStateful(i.op)
      ensures i.slot in Slots(p.code)
    {
      SlotsMember(p.code, i);
    }
    StretchTellsTidy(p.decls, Slots(p.code), Context(reals, tick, p.code[..end]), stretch, s, true);
    assert p.code[pos..][..end - pos] == stretch && p.code[pos..][end - pos..] == p.code[end..];
    TidyCut(p.code[pos..], end - pos);
  }

  lemma {:induction false} RungsTellTidy(
      p: Program, reals: RealOps, tick: uint64, s: Store, power: seq<bool>, pos: nat, rung: nat, visible: nat,
      log: seq<seq<Event>>)
    requires Ready(p, s, pos, rung, visible) && |power| == |p.counts|
    ensures var r := Rungs(p, reals, tick, s, power, pos, rung, visible, log);
            && (Tidy(p.code[pos..], []) ==> r.fault.Some? ==> IsInstructionFault(r.fault.value))
            && (r.finished && visible == |p.code| ==> Tidy(p.code[pos..], []))
    decreases |p.counts| - rung
  {
    hide Run, Consistent, ProgramOk, AtBoundary, Allowed, IsInstructionFault, Tidy, Balanced, RungsClose, Sum;
    if pos < visible {
      RungIsSound(p, reals, tick, s, pos, rung, visible);
      RungTellsTidy(p, reals, tick, s, pos, rung, visible);
      var end := pos + p.counts[rung];
      var o := RungRun(p, reals, tick, s, pos, end);
      if o.Done? {
        RungsTellTidy(p, reals, tick, o.st, power[rung := o.power], end, rung + 1, visible, log + [o.log]);
      }
    } else if visible == |p.code| {
      TidyNothing();
      assert p.code[pos..] == [];
    }
  }

  predicate NoBranchFault(fault: Option<FaultRecord>) {
    fault.Some? ==> !IsBranchFault(fault.value)
  }

  /** A scan of an accepted program records the branch fault only if the program is not tidy; if it
   *  is not, a scan of all its code never answers OK. */
  lemma {:induction false} ScanTellsTidy(p: Program, reals: RealOps, st: State, hal: Hal)
    requires ProgramOk(p) && Invariant(p, st)
    ensures var r := Scan(p, reals, st, hal);
            && (Tidy(p.code, []) && NoBranchFault(st.fault) ==> NoBranchFault(r.state.fault))
            && (!Tidy(p.code, []) && st.visible == |p.code| ==> r.status != OK)
  {
    var captured := Capture(st.store, hal, 0);
    CaptureIsSound(p.decls, Slots(p.code), st.store, hal, 0);
    if (st.mode == RUN || st.mode == TEST) && captured.fault.None? {
      hide Tidy, Rungs, WriteOutputs, Ready, Consistent, ProgramOk, AtBoundary, Allowed;
      ReadyAtStart(p, captured.store, st.visible);
      assert p.code[0..] == p.code;
      RungsTellTidy(p, reals, hal.now, captured.store, st.power, 0, 0, st.visible, []);
      var r := Rungs(p, reals, hal.now, captured.store, st.power, 0, 0, st.visible, []);
      OutputsFail(r.store, hal, 0);
    }
  }

  /** No run of an accepted tidy program ever records the branch fault. */
  lemma {:induction false} TidyProgramsNeverBranchFault(p: Program, reals: RealOps, st: State, calls: seq<Call>)
    requires ProgramOk(p) && Invariant(p, st) && CoilsHaveOperands(p.code)
    requires Tidy(p.code, []) && NoBranchFault(st.fault)
    ensures NoBranchFault(Calls(p, reals, st, calls).fault)
    decreases |calls|
  {
    if calls != [] {
      ApplyIsSound(p, reals, st, calls[0]);
      if calls[0].CallScan? {
        ScanTellsTidy(p, reals, st, calls[0].hal);
      }
      hide Tidy, ProgramOk, Invariant, Scan;
      TidyProgramsNeverBranchFault(p, reals, Apply(p, reals, st, calls[0]).0, calls[1..]);
    }
  }

  // ----- programs that raise it -----

  /** The program of one rung with an instruction between BRANCH_BEGIN and the first lane. */
  function StrayProgram(decls: seq<Decl>, i: Instr): Program {
    Program(decls, StrayCode(i), [5])
  }

  lemma {:induction false} StatelessSlots(code: seq<Instr>)
    requires forall i | i in code :: !IsStateful(i.op)
    ensures Slots(code) == []
    decreases |code|
  {
    if code != [] {
      StatelessSlots(code[1..]);
    }
  }

  lemma {:induction false} StraySlots(i: Instr)
    ensures Slots(StrayCode(i)) == if IsStateful(i.op) then [i.slot] else []
  {
    var code := StrayCode(i);
    var begin, rest := [code[0]], code[2..];
    assert code == begin + ([i] + rest);
    assert forall j | j in begin + rest :: !IsStateful(j.op);
    OneSlot(i);
    hide Slots, StrayCode;
    StatelessSlots(begin);
    StatelessSlots(rest);
    SlotsAppend(begin, [i] + rest);
    SlotsAppend([i], rest);
  }

  lemma {:induction false} OneSlot(i: Instr)
    ensures Slots([i]) == if IsStateful(i.op) then [i.slot] else []
  {
    assert [i][1..] == [];
  }

  lemma {:induction false} StrayIsAccepted(decls: seq<Decl>, i: Instr)
    requires (forall d | d in decls :: DeclOk(d)) && InstrOk(decls, i) && !IsControl(i.op)
    ensures ProgramOk(StrayProgram(decls, i))
  {
    var code := StrayCode(i);
    StrayInstruction(Interpreter((i: Instr, s: (), power: bool) => Effect<(), ()>.Passed(s, power), _ => ()), i, (),
      true);
    forall j | j in code
      ensures InstrOk(decls, j)
    {
      assert j == i || j == code[0] || j == code[2] || j == code[3] || j == code[4];
    }
    StraySlots(i);
    assert Increasing([], i.slot);
    assert Increasing(Slots(code), -1);
    DepthIsStackHeight(code, []);
    assert code[..5] == code && code[5..] == [];
    assert RungsClose([], []);
    assert StrayProgram(decls, i).counts[1..] == [];
  }

  /** For every instruction the validator accepts there is an accepted program every scan of which
   *  records the branch fault, once its inputs are read. */
  lemma {:induction false} StrayScansFault(decls: seq<Decl>, i: Instr, reals: RealOps, st: State, hal: Hal)
    requires (forall d | d in decls :: DeclOk(d)) && InstrOk(decls, i) && !IsControl(i.op)
    requires Shape(StrayProgram(decls, i), st) && st.visible == 5 && (st.mode == RUN || st.mode == TEST)
    requires Capture(st.store, hal, 0).fault.None?
    ensures ProgramOk(StrayProgram(decls, i))
    ensures var r := Scan(StrayProgram(decls, i), reals, st, hal);
            r.status == FAULT_STATUS && r.state.mode == FAULTED && r.state.fault == Some(BranchFault(OP_BRANCH_BEGIN))
  {
    StrayIsAccepted(decls, i);
    var p := StrayProgram(decls, i);
    var s := Capture(st.store, hal, 0).store;
    assert p.code[..5] == p.code && p.code[0..5] == p.code;
    StrayInstruction(RuntimeMachine(Context(reals, hal.now, p.code[..5])), i, s, true);
  }

  /** A loaded program, started. */
  function Started(p: Program, tags: seq<Tag>): (st: State)
    requires CoilsHaveOperands(p.code) && Slots(p.code) == []
    ensures Shape(p, st)
  {
    SetMode(p, Initial(p, tags), RUN).0
  }

  const CONTACT := Instr(OP_XIC, 1, -1, [Operand(1, 1, 0, 0)])

  /** A contact on a BOOL tag that stands before the first lane. */
  const CONTACT_PROGRAM := StrayProgram([Decl(1, 0)], CONTACT)

  lemma {:induction false} ContactProgramOk()
    ensures ProgramOk(CONTACT_PROGRAM) && CoilsHaveOperands(CONTACT_PROGRAM.code) && Slots(CONTACT_PROGRAM.code) == []
  {
    hide InstrOk, ProgramOk, Slots;
    ContactIsAccepted();
    StrayIsAccepted([Decl(1, 0)], CONTACT);
    StraySlots(CONTACT);
  }

  /** Concretely: loaded, started and scanned, it records fault 20, whatever the host answers. */
  lemma {:induction false} StrayContactFaults(reals: RealOps, hal: Hal)
    ensures ProgramOk(CONTACT_PROGRAM) && CoilsHaveOperands(CONTACT_PROGRAM.code) && Slots(CONTACT_PROGRAM.code) == []
    ensures Scan(CONTACT_PROGRAM, reals, Started(CONTACT_PROGRAM, [Tag(0, BoolD(false))]), hal).state.fault
         == Some(FaultRecord(EXECUTION, 20, 0xffff_ffff, 240, 0xffff_ffff))
  {
    hide Scan, InstrOk, ProgramOk, Slots, Started, Capture, Shape;
    var st := (ContactProgramOk(); Started(CONTACT_PROGRAM, [Tag(0, BoolD(false))]));
    ContactIsAccepted();
    StartsRunning(CONTACT_PROGRAM, [Tag(0, BoolD(false))]);
    NothingToCapture(st.store, hal, 0);
    StrayScansFault([Decl(1, 0)], CONTACT, reals, st, hal);
  }

  lemma {:induction false} ContactIsAccepted()
    ensures InstrOk([Decl(1, 0)], CONTACT) && DeclOk(Decl(1, 0))
  {
  }

  lemma {:induction false} StartsRunning(p: Program, tags: seq<Tag>)
    requires (forall t | t in tags :: t.storage == 0) && Slots(p.code) == []
    requires CoilsHaveOperands(p.code) && forall i | i in p.code :: i.op != OP_OTE && i.op != OP_ONS
    ensures var st := Started(p, tags);
            st.visible == |p.code| && st.mode == RUN && forall t | t in st.store.tags :: t.storage == 0
  {
    var st := Initial(p, tags);
    assert p.code[..|p.code|] == p.code;
    NothingToWrite(Idle(st.store, true), p.code);
  }

  lemma {:induction false} NothingToCapture(s: Store, hal: Hal, k: nat)
    requires forall t | t in s.tags :: t.storage == 0
    ensures Capture(s, hal, k).fault.None?
    decreases |s.tags| - k
  {
    if k < |s.tags| {
      assert s.tags[k] in s.tags;
      NothingToCapture(s, hal, k + 1);
    }
  }

  lemma {:induction false} NothingToWrite(s: Store, code: seq<Instr>)
    requires forall i | i in code :: i.op != OP_OTE && i.op != OP_ONS
    ensures IdleCode(s, code, true) == Lifecycle(s, true)
    decreases |code|
  {
    if code != [] {
      NothingToWrite(s, code[1..]);
    }
  }
}
