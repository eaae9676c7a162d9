/** On-delay timers over runs. */
module TimerLaw {
  import opened Bytes
  import opened Instructions
  import opened ControlFlow
  import opened Admission
  import opened Semantics
  import opened Soundness
  import opened Machine
  import opened Safety
  import opened Runs

  // ----- the accumulated time -----

  /** own is the only instruction of the program that times tag id. */
  predicate OnlyTimer(p: Program, id: nat, own: Instr) {
    && own in p.code && own.op == OP_TON && own.args != [] && own.args[0].raw == id
    && forall i | i in p.code && (IsStateful(i.op) || i.op == OP_RES) && i.args != [] && i.args[0].raw == id :: i == own
  }

  /** The ticks at which an instruction ran. */
  function Times(log: seq<Stamped>, own: Instr): seq<uint64> {
    if log == [] then []
    else
      var e := log[|log| - 1];
      Times(log[..|log| - 1], own) + if e.event.instr == own then [e.tick] else []
  }

  /** The timer was powered whenever it ran. */
  predicate Held(log: seq<Stamped>, own: Instr) {
    forall e | e in log && e.event.instr == own :: e.event.inp
  }

  /** Whole milliseconds between consecutive ticks, summed; the tick counter wraps at 64 bits. */
  function Milliseconds(times: seq<uint64>): nat {
    if |times| < 2 then 0
    else
      var n := |times| - 1;
      Milliseconds(times[..n]) + ((times[n] as int) - times[n - 1]) % 0x1_0000_0000_0000_0000 / 1000
  }

  function Saturated(n: nat): int32 {
    if n > INT32_MAX then INT32_MAX else n
  }

  /** The timer after it has been powered at these ticks, having started at rest. */
  predicate TimedFor(s: Store, id: nat, slot: int, pre: int32, times: seq<uint64>) {
    var k := SlotIndex(s.states, slot);
    && id < |s.tags| && k < |s.states|
    && if times == [] then s.tags[id].data == TimerD(pre, 0, false, false, false) && !s.states[k].valid
       else
         var acc := Saturated(Milliseconds(times));
         && s.tags[id].data == TimerD(pre, acc, true, !(acc >= pre), acc >= pre)
         && s.states[k].valid && s.states[k].time == times[|times| - 1]
  }

  lemma {:induction false} TimesStep(log: seq<Stamped>, e: Stamped, own: Instr)
    ensures Times(log + [e], own) == Times(log, own) + if e.event.instr == own then [e.tick] else []
    ensures Held(log + [e], own) ==> Held(log, own)
  {
    assert (log + [e])[..|log|] == log;
    assert forall x | x in log :: x in log + [e];
  }

  lemma {:induction false} OtherKeepsTimer(
      p: Program, id: nat, own: Instr, pre: int32, times: seq<uint64>, c: Context, i: Instr, s: Store, power: bool)
    requires ProgramOk(p) && OnlyTimer(p, id, own) && i != own
    requires Consistent(p.decls, Slots(p.code), s) && i in p.code && !IsControl(i.op)
             && forall j | j in c.visible :: j in p.code
    requires TimedFor(s, id, own.slot, pre, times) && Execute(c, i, s, power).Passed?
    ensures TimedFor(Execute(c, i, s, power).st, id, own.slot, pre, times)
  {
    assert InstrOk(p.decls, i) && InstrOk(p.decls, own);
    OthersKeepTag(p, c, i, s, power, id);
    OthersKeepSlot(p, c, i, s, power, own);
    ExecuteKeepsShape(p, c, i, s, power);
  }

  lemma {:induction false} ExecuteKeepsShape(p: Program, c: Context, i: Instr, s: Store, power: bool)
    requires ProgramOk(p) && Consistent(p.decls, Slots(p.code), s) && i in p.code && !IsControl(i.op)
    ensures |Execute(c, i, s, power).st.tags| == |s.tags| && |Execute(c, i, s, power).st.states| == |s.states|
  {
    if IsStateful(i.op) {
      SlotsMember(p.code, i);
      SlotIsFound(s.states, Slots(p.code), i.slot);
    }
    ExecuteIsSound(p.decls, c, i, s, power);
  }

  lemma {:induction false} TimerStep(
      p: Program, id: nat, own: Instr, pre: int32, times: seq<uint64>, c: Context, s: Store)
    requires ProgramOk(p) && OnlyTimer(p, id, own) && Consistent(p.decls, Slots(p.code), s)
    requires TimedFor(s, id, own.slot, pre, times) && Execute(c, own, s, true).Passed?
    ensures TimedFor(Execute(c, own, s, true).st, id, own.slot, pre, times + [c.tick])
  {
    assert InstrOk(p.decls, own);
    SlotIndexFinds(s.states, own.slot);
    var s1 := Execute(c, own, s, true).st;
    SameSlots(s.states, s1.states, own.slot);
    assert (times + [c.tick])[..|times|] == times;
  }

  ghost predicate TracksTimer(id: nat, own: Instr, pre: int32, log: seq<Stamped>, s: Store) {
    Held(log, own) ==> TimedFor(s, id, own.slot, pre, Times(log, own))
  }

  lemma {:induction false} TimerCarries(
      p: Program, id: nat, own: Instr, pre: int32, log: seq<Stamped>, c: Context, i: Instr, s: Store, power: bool)
    requires ProgramOk(p) && OnlyTimer(p, id, own) && Consistent(p.decls, Slots(p.code), s)
    requires i in p.code && !IsControl(i.op) && forall j | j in c.visible :: j in p.code
    requires TracksTimer(id, own, pre, log, s) && Execute(c, i, s, power).Passed?
    ensures var e := Execute(c, i, s, power);
            TracksTimer(id, own, pre, log + [Stamped(Event(i, power, e.power), c.tick)], e.st)
  {
    hide Execute, TimedFor, ProgramOk, Consistent, Times;
    var e := Stamped(Event(i, power, Execute(c, i, s, power).power), c.tick);
    TimesStep(log, e, own);
    if Held(log + [e], own) {
      assert e in log + [e];
      if i == own {
        TimerStep(p, id, own, pre, Times(log, own), c, s);
      } else {
        OtherKeepsTimer(p, id, own, pre, Times(log, own), c, i, s, power);
      }
      assert Times(log, own) + [] == Times(log, own);
    }
  }

  lemma {:induction false} TracksTimerIsInductive(p: Program, id: nat, own: Instr, pre: int32)
    requires ProgramOk(p) && OnlyTimer(p, id, own)
    ensures Inductive(p, {}, (log: seq<Stamped>, s: Store) => TracksTimer(id, own, pre, log, s))
  {
    hide Execute, ProgramOk, Consistent, Times, Held;
    var r := (log: seq<Stamped>, s: Store) => TracksTimer(id, own, pre, log, s);
    forall log, c, i, s, power | CarriedBefore(p, r, log, c, i, s, power)
      ensures CarriedAfter(r, log, c, i, s, power)
    {
      TimerCarries(p, id, own, pre, log, c, i, s, power);
    }
  }

  /** The timer law. A timer at rest that is powered in every scan of a run of OK scans holds the
   *  whole milliseconds between its scans, summed and capped at 2^31 - 1; EN is set, DN says
   *  whether ACC has reached PRE, TT is the opposite of DN. */
  lemma {:induction false} HeldTimerAccumulates(
      p: Program, reals: RealOps, st: State, calls: seq<Call>, id: nat, own: Instr, pre: int32)
    requires ProgramOk(p) && CoilsHaveOperands(p.code) && Invariant(p, st)
    requires Steady(p, reals, st, calls, {}) && OnlyTimer(p, id, own)
    requires TimedFor(st.store, id, own.slot, pre, [])
    requires Held(RunLog(p, reals, st, calls), own)
    ensures TimedFor(Calls(p, reals, st, calls).store, id, own.slot, pre, Times(RunLog(p, reals, st, calls), own))
  {
    var r := (log: seq<Stamped>, s: Store) => TracksTimer(id, own, pre, log, s);
    TracksTimerIsInductive(p, id, own, pre);
    assert Times([], own) == [] && r([], st.store);
    hide ProgramOk, Invariant, Apply, Steady, RunLog, Calls, CoilsHaveOperands, TimedFor, Inductive;
    RunCarries(p, reals, {}, r, [], st, calls);
    assert [] + RunLog(p, reals, st, calls) == RunLog(p, reals, st, calls);
  }

  lemma {:induction false} IdleCodeKeepsTimer(s: Store, code: seq<Instr>, prescan: bool, id: nat)
    requires CoilsHaveOperands(code) && id < |s.tags| && s.tags[id].data.TimerD?
    ensures var s1 := IdleCode(s, code, prescan).store; |s1.tags| == |s.tags| && s1.tags[id] == s.tags[id]
    decreases |code|
  {
    if code != [] {
      var v := IdleWrite(code[0], prescan);
      if v.None? {
        IdleCodeKeepsTimer(s, code[1..], prescan, id);
      } else if Write(s, code[0].args[0], v.value).Some? {
        IdleCodeKeepsTimer(Write(s, code[0].args[0], v.value).value, code[1..], prescan, id);
      }
    }
  }

  /** Entering RUN or TEST from PROGRAM puts every timer at rest, with its preset kept: the timer law
   *  applies from there. */
  lemma {:induction false} TimerStartsAtRest(p: Program, st: State, mode: Mode, id: nat, own: Instr)
    requires ProgramOk(p) && CoilsHaveOperands(p.code) && Invariant(p, st) && OnlyTimer(p, id, own)
    requires st.mode == PROGRAM && (mode == RUN || mode == TEST)
    ensures id < |st.store.tags| && st.store.tags[id].data.TimerD?
    ensures TimedFor(SetMode(p, st, mode).0.store, id, own.slot, st.store.tags[id].data.pre, [])
  {
    assert InstrOk(p.decls, own);
    assert TypeCode(st.store.tags[id].data) == p.decls[id].typ;
    var s0 := Idle(st.store, true);
    SetModeIsSound(p, st, mode);
    IdleIsSound(p.decls, Slots(p.code), st.store, true);
    IdleCodeKeepsTimer(s0, Visible(p, st.visible), true, id);
    IdleCodeKeepsStates(s0, Visible(p, st.visible), true);
    var s1 := SetMode(p, st, mode).0.store;
    SlotsMember(p.code, own);
    SlotIsFound(s1.states, Slots(p.code), own.slot);
    SlotIndexFinds(s1.states, own.slot);
  }

  /** With ticks that never go back, the sum loses less than one millisecond per scan. */
  lemma {:induction false} MillisecondsBound(times: seq<uint64>)
    requires times != [] && forall k | 1 <= k < |times| :: times[k - 1] <= times[k]
    ensures var elapsed := (times[|times| - 1] as int) - times[0];
            1000 * Milliseconds(times) <= elapsed <= 1000 * Milliseconds(times) + 999 * (|times| - 1)
    decreases |times|
  {
    if |times| > 1 {
      var n := |times| - 1;
      MillisecondsBound(times[..n]);
      var dt := (times[n] as int) - times[n - 1];
      assert dt % 0x1_0000_0000_0000_0000 == dt;
    }
  }

  // ----- every reachable state -----

  /** EN, TT, DN and ACC of a timer agree with each other. */
  predicate TimerShaped(d: Data) {
    d.TimerD? ==>
      && d.acc >= 0
      && (d.en ==> (d.dn <==> d.acc >= d.pre) && (d.tt <==> !d.dn))
      && (!d.en ==> d.acc == 0 && !d.tt && !d.dn)
  }

  predicate TimersShaped(s: Store) {
    forall k | 0 <= k < |s.tags| :: TimerShaped(s.tags[k].data)
  }

  lemma {:induction false} ExecuteShapesTimers(p: Program, c: Context, i: Instr, s: Store, power: bool)
    requires ProgramOk(p) && Consistent(p.decls, Slots(p.code), s) && i in p.code && !IsControl(i.op)
    requires TimersShaped(s) && Execute(c, i, s, power).Passed?
    ensures TimersShaped(Execute(c, i, s, power).st)
  {
    ExecuteKeepsShape(p, c, i, s, power);
    var s1 := Execute(c, i, s, power).st;
    forall k | 0 <= k < |s1.tags|
      ensures TimerShaped(s1.tags[k].data)
    {
      assert TimerShaped(s.tags[k].data);
      ExecuteShapesTimer(p, c, i, s, power, k);
    }
  }

  lemma {:induction false} ExecuteShapesTimer(p: Program, c: Context, i: Instr, s: Store, power: bool, k: nat)
    requires ProgramOk(p) && Consistent(p.decls, Slots(p.code), s) && i in p.code && !IsControl(i.op)
    requires k < |s.tags| && TimerShaped(s.tags[k].data) && Execute(c, i, s, power).Passed?
    ensures k < |Execute(c, i, s, power).st.tags| && TimerShaped(Execute(c, i, s, power).st.tags[k].data)
  {
    assert InstrOk(p.decls, i);
    ExecuteKeepsShape(p, c, i, s, power);
    if !s.tags[k].data.TimerD? {
      ExecuteIsSoundHere(p, c, i, s, power);
      assert TypeCode(s.tags[k].data) == p.decls[k].typ;
    } else if (IsStateful(i.op) || i.op == OP_RES) && i.args[0].raw == k {
      OwnTimer(p, c, i, s, power, k);
    } else {
      OthersKeepTag(p, c, i, s, power, k);
    }
  }

  lemma {:induction false} ExecuteIsSoundHere(p: Program, c: Context, i: Instr, s: Store, power: bool)
    requires ProgramOk(p) && Consistent(p.decls, Slots(p.code), s) && i in p.code && !IsControl(i.op)
    ensures WellTyped(p.decls, Execute(c, i, s, power).st)
  {
    if IsStateful(i.op) {
      SlotsMember(p.code, i);
      SlotIsFound(s.states, Slots(p.code), i.slot);
    }
    ExecuteIsSound(p.decls, c, i, s, power);
  }

  lemma {:induction false} OwnTimer(p: Program, c: Context, i: Instr, s: Store, power: bool, k: nat)
    requires InstrOk(p.decls, i) && WellTyped(p.decls, s)
    requires (IsStateful(i.op) || i.op == OP_RES) && i.args[0].raw == k < |s.tags|
    requires s.tags[k].data.TimerD? && TimerShaped(s.tags[k].data) && Execute(c, i, s, power).Passed?
    ensures k < |Execute(c, i, s, power).st.tags| && TimerShaped(Execute(c, i, s, power).st.tags[k].data)
  {
    assert TypeCode(s.tags[k].data) == p.decls[k].typ;
  }

  lemma {:induction false} ShapedIsInductive(p: Program)
    requires ProgramOk(p)
    ensures Inductive(p, {}, (log: seq<Stamped>, s: Store) => TimersShaped(s))
  {
    var r := (log: seq<Stamped>, s: Store) => TimersShaped(s);
    forall log, c, i, s, power | CarriedBefore(p, r, log, c, i, s, power)
      ensures CarriedAfter(r, log, c, i, s, power)
    {
      ExecuteShapesTimers(p, c, i, s, power);
    }
  }

  lemma {:induction false} IdleCodeKeepsTimers(s: Store, code: seq<Instr>, prescan: bool)
    requires CoilsHaveOperands(code) && TimersShaped(s)
    ensures TimersShaped(IdleCode(s, code, prescan).store)
    decreases |code|
  {
    if code != [] {
      var v := IdleWrite(code[0], prescan);
      if v.None? {
        IdleCodeKeepsTimers(s, code[1..], prescan);
      } else if Write(s, code[0].args[0], v.value).Some? {
        IdleCodeKeepsTimers(Write(s, code[0].args[0], v.value).value, code[1..], prescan);
      }
    }
  }

  /** In every state that can be reached in RUN or TEST, each timer's members agree; in
   *  particular ACC is never negative, so the interpreter never subtracts below it. */
  lemma {:induction false} TimersStayShaped(p: Program, reals: RealOps, st: State, calls: seq<Call>)
    requires ProgramOk(p) && CoilsHaveOperands(p.code) && Invariant(p, st)
    requires (st.mode == RUN || st.mode == TEST) ==> TimersShaped(st.store)
    ensures var end := Calls(p, reals, st, calls); (end.mode == RUN || end.mode == TEST) ==> TimersShaped(end.store)
    decreases |calls|
  {
    if calls != [] {
      ApplyIsSound(p, reals, st, calls[0]);
      CallShapesTimers(p, reals, st, calls[0]);
      TimersStayShaped(p, reals, Apply(p, reals, st, calls[0]).0, calls[1..]);
    }
  }

  lemma {:induction false} CallShapesTimers(p: Program, reals: RealOps, st: State, call: Call)
    requires ProgramOk(p) && CoilsHaveOperands(p.code) && Invariant(p, st)
    requires (st.mode == RUN || st.mode == TEST) ==> TimersShaped(st.store)
    ensures var next := Apply(p, reals, st, call).0;
            (next.mode == RUN || next.mode == TEST) ==> TimersShaped(next.store)
  {
    match call
    case CallSetMode(mode) =>
      var starts := (mode == RUN || mode == TEST) && st.mode == PROGRAM;
      IdleCodeKeepsTimers(Idle(st.store, starts), Visible(p, st.visible), starts);
    case CallPass(prescan) =>
      IdleCodeKeepsTimers(Idle(st.store, prescan), Visible(p, st.visible), prescan);
    case CallScan(hal) =>
      if st.mode == RUN || st.mode == TEST {
        ScanIsSound(p, reals, st, hal);
        if Scan(p, reals, st, hal).status == OK {
          ShapedIsInductive(p);
          ScanCarries(p, reals, {}, (log: seq<Stamped>, s: Store) => TimersShaped(s), [], st, hal);
        }
      }
    case _ =>
      CallIsHostChangeHere(p, reals, st, call);
  }

  lemma {:induction false} CallIsHostChangeHere(p: Program, reals: RealOps, st: State, call: Call)
    requires CoilsHaveOperands(p.code) && Shape(p, st)
    requires !call.CallSetMode? && !call.CallPass? && !call.CallScan?
    ensures var next := Apply(p, reals, st, call).0;
            next.mode == st.mode && (TimersShaped(st.store) ==> TimersShaped(next.store))
  {
    CallIsHostChange(p, reals, st, call, {});
    var s1 := Apply(p, reals, st, call).0.store;
    if TimersShaped(st.store) {
      forall k | 0 <= k < |s1.tags|
        ensures TimerShaped(s1.tags[k].data)
      {
        assert TimerShaped(st.store.tags[k].data);
      }
    }
  }
}
