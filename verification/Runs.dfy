/** Runs of host calls as event logs, and induction over them: the frame in which the laws of
 *  timers, counters and one-shots are stated. */
module Runs {
  import opened Bytes
  import opened Instructions
  import opened ControlFlow
  import opened Brackets
  import opened Admission
  import opened Semantics
  import opened Soundness
  import opened Machine
  import opened Safety

  /** An executed instruction with the tick of its scan. */
  datatype Stamped = Stamped(event: Event, tick: uint64)

  function Stamp(log: seq<Event>, tick: uint64): seq<Stamped> {
    seq(|log|, k requires 0 <= k < |log| => Stamped(log[k], tick))
  }

  function Join(log: seq<seq<Event>>): seq<Event> {
    if log == [] then [] else log[0] + Join(log[1..])
  }

  lemma {:induction false} JoinAppend(log: seq<seq<Event>>, last: seq<Event>)
    ensures Join(log + [last]) == Join(log) + last
  {
    if log == [] {
      assert [last][1..] == [] && log + [last] == [last];
      assert last + [] == last && [] + last == last;
    } else {
      assert (log + [last])[1..] == log[1..] + [last];
      JoinAppend(log[1..], last);
    }
  }

  // ----- every instruction exactly once -----

  lemma {:induction false} RungExecutes(
      p: Program, reals: RealOps, tick: uint64, s: Store, pos: nat, end: nat, log: seq<seq<Event>>)
    requires pos <= end <= |p.code| && Instrs(Join(log)) == Executed(p.code[..pos])
    requires var o := RungRun(p, reals, tick, s, pos, end); o.Done? && o.rest == []
    ensures Instrs(Join(log + [RungRun(p, reals, tick, s, pos, end).log])) == Executed(p.code[..end])
  {
    hide Run, Executed, Join;
    var stretch := p.code[pos..end];
    var o := RungRun(p, reals, tick, s, pos, end);
    RunConsumes(RuntimeMachine(Context(reals, tick, p.code[..end])), stretch, s, true, 0);
    assert stretch[..|stretch|] == stretch && p.code[..end] == p.code[..pos] + stretch;
    ExecutedAppend(p.code[..pos], stretch);
    JoinAppend(log, o.log);
    assert Instrs(Join(log) + o.log) == Instrs(Join(log)) + Instrs(o.log);
  }

  lemma {:induction false} RungsExecute(
      p: Program, reals: RealOps, tick: uint64, s: Store, power: seq<bool>, pos: nat, rung: nat, visible: nat,
      log: seq<seq<Event>>)
    requires Ready(p, s, pos, rung, visible) && |power| == |p.counts|
    requires Instrs(Join(log)) == Executed(p.code[..pos])
    ensures var r := Rungs(p, reals, tick, s, power, pos, rung, visible, log);
            r.finished ==> Instrs(Join(r.log)) == Executed(p.code[..visible])
    decreases |p.counts| - rung
  {
    hide Run, Consistent, ProgramOk, AtBoundary, Executed, Join, Instrs;
    if pos < visible {
      RungIsSound(p, reals, tick, s, pos, rung, visible);
      var end := pos + p.counts[rung];
      var o := RungRun(p, reals, tick, s, pos, end);
      if o.Done? {
        RungExecutes(p, reals, tick, s, pos, end, log);
        RungsExecute(p, reals, tick, o.st, power[rung := o.power], end, rung + 1, visible, log + [o.log]);
      }
    }
  }

  /** A scan that answers OK executed every visible instruction exactly once, in program order. */
  lemma {:induction false} ScanExecutesEachOnce(p: Program, reals: RealOps, st: State, hal: Hal)
    requires ProgramOk(p) && Invariant(p, st) && Scan(p, reals, st, hal).status == OK
    ensures Instrs(Join(Scan(p, reals, st, hal).log)) == Executed(p.code[..st.visible])
    ensures Scan(p, reals, st, hal).state.visible == st.visible
  {
    var captured := Capture(st.store, hal, 0);
    CaptureIsSound(p.decls, Slots(p.code), st.store, hal, 0);
    ReadyAtStart(p, captured.store, st.visible);
    assert p.code[..0] == [];
    RungsExecute(p, reals, hal.now, captured.store, st.power, 0, 0, st.visible, []);
    RungsKeepShape(p, reals, hal.now, captured.store, st.power, 0, 0, st.visible, []);
  }

  // ----- runs -----

  /** What the host and the inputs may change between instructions: scalar values and forces, but
   *  not the tags in ids, whose forces may only be cleared. */
  predicate HostChange(s: Store, s1: Store, ids: set<nat>) {
    && s1.states == s.states && |s1.tags| == |s.tags|
    && (forall k | 0 <= k < |s.tags| ::
          || s1.tags[k] == s.tags[k]
          || (k !in ids && s1.tags[k].storage == s.tags[k].storage && Scalar(s.tags[k].data).Some?
            && Scalar(s1.tags[k].data).Some?))
    && (forall k | 0 <= k < |s.tags| && k in ids :: s1.forces[k] == s.forces[k] || s1.forces[k] == None)
  }

  /** A property of a log and the store it ends in that every instruction and every host change
   *  carries on. */
  ghost predicate Inductive(p: Program, ids: set<nat>, r: (seq<Stamped>, Store) -> bool) {
    && (forall log, c, i, s, power | CarriedBefore(p, r, log, c, i, s, power) :: CarriedAfter(r, log, c, i, s, power))
    && (forall log, s, s1 | r(log, s) && HostChange(s, s1, ids) :: r(log, s1))
  }

  predicate CarriedBefore(
      p: Program, r: (seq<Stamped>, Store) -> bool, log: seq<Stamped>, c: Context, i: Instr, s: Store, power: bool) {
    && i in p.code && !IsControl(i.op)
    && (forall j | j in c.visible :: j in p.code)
    && Consistent(p.decls, Slots(p.code), s)
    && r(log, s) && Execute(c, i, s, power).Passed?
  }

  predicate CarriedAfter(
      r: (seq<Stamped>, Store) -> bool, log: seq<Stamped>, c: Context, i: Instr, s: Store, power: bool)
    requires Execute(c, i, s, power).Passed?
  {
    var e := Execute(c, i, s, power);
    r(log + [Stamped(Event(i, power, e.power), c.tick)], e.st)
  }

  lemma {:induction false} StepCarries(
      p: Program, ids: set<nat>, r: (seq<Stamped>, Store) -> bool, before: seq<Stamped>, c: Context, i: Instr,
      s: Store, power: bool)
    requires ProgramOk(p) && Inductive(p, ids, r) && r(before, s) && Consistent(p.decls, Slots(p.code), s)
    requires i in p.code && !IsControl(i.op) && forall j | j in c.visible :: j in p.code
    requires Execute(c, i, s, power).Passed?
    ensures var e := Execute(c, i, s, power);
            r(before + [Stamped(Event(i, power, e.power), c.tick)], e.st) && Consistent(p.decls, Slots(p.code), e.st)
  {
    hide Execute;
    assert CarriedBefore(p, r, before, c, i, s, power);
    assert CarriedAfter(r, before, c, i, s, power);
    if IsStateful(i.op) {
      SlotsMember(p.code, i);
      SlotIsFound(s.states, Slots(p.code), i.slot);
    }
    ExecuteIsSound(p.decls, c, i, s, power);
  }

  lemma {:induction false} ReplayCarries(
      p: Program, ids: set<nat>, r: (seq<Stamped>, Store) -> bool, before: seq<Stamped>, c: Context, log: seq<Event>,
      s: Store)
    requires ProgramOk(p) && Inductive(p, ids, r) && r(before, s) && Consistent(p.decls, Slots(p.code), s)
    requires forall j | j in c.visible :: j in p.code
    requires forall e | e in log :: e.instr in p.code && !IsControl(e.instr.op)
    requires Replay(RuntimeMachine(c), log, s).Some?
    ensures r(before + Stamp(log, c.tick), Replay(RuntimeMachine(c), log, s).value)
    decreases |log|
  {
    hide Execute, ProgramOk, Inductive, Consistent;
    if log == [] {
      assert before + Stamp(log, c.tick) == before;
    } else {
      var e := Execute(c, log[0].instr, s, log[0].inp);
      assert RuntimeMachine(c).exec(log[0].instr, s, log[0].inp) == e;
      StepCarries(p, ids, r, before, c, log[0].instr, s, log[0].inp);
      var next := before + [Stamped(log[0], c.tick)];
      assert log[0] == Event(log[0].instr, log[0].inp, e.power);
      ReplayCarries(p, ids, r, next, c, log[1..], e.st);
      assert next + Stamp(log[1..], c.tick) == before + Stamp(log, c.tick);
    }
  }

  lemma {:induction false} ExecutedIn(code: seq<Instr>, i: Instr)
    requires i in Executed(code)
    ensures i in code && !IsControl(i.op)
    decreases |code|
  {
    if code[0] != i || IsControl(code[0].op) {
      ExecutedIn(code[1..], i);
    }
  }

  lemma {:induction false} RungCarries(
      p: Program, reals: RealOps, ids: set<nat>, r: (seq<Stamped>, Store) -> bool, before: seq<Stamped>, tick: uint64,
      s: Store, pos: nat, end: nat)
    requires ProgramOk(p) && Consistent(p.decls, Slots(p.code), s) && Inductive(p, ids, r) && r(before, s)
    requires pos <= end <= |p.code|
    requires var o := RungRun(p, reals, tick, s, pos, end); o.Done? && o.rest == []
    ensures var o := RungRun(p, reals, tick, s, pos, end); r(before + Stamp(o.log, tick), o.st)
  {
    hide Run;
    var stretch := p.code[pos..end];
    var c := Context(reals, tick, p.code[..end]);
    var o := RungRun(p, reals, tick, s, pos, end);
    RunConsumes(RuntimeMachine(c), stretch, s, true, 0);
    assert stretch[..|stretch|] == stretch;
    forall e | e in o.log
      ensures e.instr in p.code && !IsControl(e.instr.op)
    {
      var k :| 0 <= k < |o.log| && o.log[k] == e;
      assert Instrs(o.log)[k] == e.instr;
      ExecutedIn(stretch, e.instr);
    }
    ReplayCarries(p, ids, r, before, c, o.log, s);
  }

  lemma {:induction false} RungsCarry(
      p: Program, reals: RealOps, ids: set<nat>, r: (seq<Stamped>, Store) -> bool, before: seq<Stamped>, tick: uint64,
      s: Store, power: seq<bool>, pos: nat, rung: nat, visible: nat, log: seq<seq<Event>>)
    requires Ready(p, s, pos, rung, visible) && |power| == |p.counts|
    requires Inductive(p, ids, r) && r(before + Stamp(Join(log), tick), s)
    ensures var o := Rungs(p, reals, tick, s, power, pos, rung, visible, log);
            o.finished ==> r(before + Stamp(Join(o.log), tick), o.store)
    decreases |p.counts| - rung
  {
    hide Run, Consistent, ProgramOk, AtBoundary, Join, Inductive;
    if pos < visible {
      RungIsSound(p, reals, tick, s, pos, rung, visible);
      var end := pos + p.counts[rung];
      var o := RungRun(p, reals, tick, s, pos, end);
      if o.Done? {
        JoinAppend(log, o.log);
        RungCarries(p, reals, ids, r, before + Stamp(Join(log), tick), tick, s, pos, end);
        assert before + Stamp(Join(log), tick) + Stamp(o.log, tick) == before + Stamp(Join(log + [o.log]), tick);
        RungsCarry(p, reals, ids, r, before, tick, o.st, power[rung := o.power], end, rung + 1, visible, log + [o.log]);
      }
    }
  }

  lemma {:induction false} CaptureIsHostChange(s: Store, hal: Hal, k: nat, ids: set<nat>)
    requires forall j | j in ids :: j < |s.tags| ==> s.tags[j].storage != 1
    ensures HostChange(s, Capture(s, hal, k).store, ids)
    decreases |s.tags| - k
  {
    if k < |s.tags| {
      if s.tags[k].storage != 1 || !hal.readsInputs {
        CaptureIsHostChange(s, hal, k + 1, ids);
      } else if hal.input(k).Some? && ValueCode(hal.input(k).value) == TypeCode(s.tags[k].data) {
        var s1 := SetData(s, k, DataOf(hal.input(k).value));
        CaptureIsHostChange(s1, hal, k + 1, ids);
        var s2 := Capture(s1, hal, k + 1).store;
        forall j | 0 <= j < |s.tags|
          ensures s2.tags[j] == s.tags[j]
                  || (j !in ids && s2.tags[j].storage == s.tags[j].storage && Scalar(s.tags[j].data).Some?
                    && Scalar(s2.tags[j].data).Some?)
        {
          assert s1.tags[j] == s.tags[j] || j == k;
        }
      }
    }
  }

  /** A scan that answers OK carries an inductive property over its log. */
  lemma {:induction false} ScanCarries(
      p: Program, reals: RealOps, ids: set<nat>, r: (seq<Stamped>, Store) -> bool, before: seq<Stamped>, st: State,
      hal: Hal)
    requires ProgramOk(p) && Invariant(p, st) && Inductive(p, ids, r) && r(before, st.store)
    requires forall j | j in ids :: j < |p.decls| ==> p.decls[j].storage != 1
    requires Scan(p, reals, st, hal).status == OK
    ensures r(before + Stamp(Join(Scan(p, reals, st, hal).log), hal.now), Scan(p, reals, st, hal).state.store)
  {
    var captured := Capture(st.store, hal, 0);
    CaptureIsSound(p.decls, Slots(p.code), st.store, hal, 0);
    CaptureIsHostChange(st.store, hal, 0, ids);
    assert r(before, captured.store);
    ReadyAtStart(p, captured.store, st.visible);
    assert before + Stamp(Join([]), hal.now) == before;
    RungsCarry(p, reals, ids, r, before, hal.now, captured.store, st.power, 0, 0, st.visible, []);
  }

  /** A stretch of host calls without mode changes and lifecycle passes: every scan answers OK, and
   *  the host neither writes nor forces the tags in ids. */
  predicate Steady(p: Program, reals: RealOps, st: State, calls: seq<Call>, ids: set<nat>)
    requires CoilsHaveOperands(p.code) && Shape(p, st)
    decreases |calls|
  {
    calls == [] ||
    (&& (match calls[0]
         case CallSetMode(_) => false
         case CallPass(_) => false
         case CallScan(hal) => Scan(p, reals, st, hal).status == OK
         case CallWrite(id, _) => id !in ids
         case CallForce(id, _) => id !in ids
         case CallClearForce(_) => true
         case CallClearAll => true)
     && (ApplyKeepsShape(p, reals, st, calls[0]);
         Steady(p, reals, Apply(p, reals, st, calls[0]).0, calls[1..], ids)))
  }

  function CallLog(p: Program, reals: RealOps, st: State, call: Call): seq<Stamped>
    requires Shape(p, st)
  {
    match call
    case CallScan(hal) => Stamp(Join(Scan(p, reals, st, hal).log), hal.now)
    case _ => []
  }

  /** The instructions executed by the scans of a run, in order. */
  function RunLog(p: Program, reals: RealOps, st: State, calls: seq<Call>): seq<Stamped>
    requires CoilsHaveOperands(p.code) && Shape(p, st)
    decreases |calls|
  {
    if calls == [] then []
    else
      ApplyKeepsShape(p, reals, st, calls[0]);
      CallLog(p, reals, st, calls[0]) + RunLog(p, reals, Apply(p, reals, st, calls[0]).0, calls[1..])
  }

  lemma {:induction false} CallIsHostChange(p: Program, reals: RealOps, st: State, call: Call, ids: set<nat>)
    requires CoilsHaveOperands(p.code) && Shape(p, st)
    requires call.CallWrite? || call.CallForce? || call.CallClearForce? || call.CallClearAll?
    requires (call.CallWrite? || call.CallForce?) ==> call.id !in ids
    ensures HostChange(st.store, Apply(p, reals, st, call).0.store, ids)
  {
  }

  lemma {:induction false} CallCarries(
      p: Program, reals: RealOps, ids: set<nat>, r: (seq<Stamped>, Store) -> bool, before: seq<Stamped>, st: State,
      calls: seq<Call>)
    requires ProgramOk(p) && CoilsHaveOperands(p.code) && Invariant(p, st)
    requires Inductive(p, ids, r) && r(before, st.store)
    requires forall j | j in ids :: j < |p.decls| ==> p.decls[j].storage != 1
    requires calls != [] && Steady(p, reals, st, calls, ids)
    ensures r(before + CallLog(p, reals, st, calls[0]), Apply(p, reals, st, calls[0]).0.store)
  {
    if calls[0].CallScan? {
      ScanCarries(p, reals, ids, r, before, st, calls[0].hal);
    } else {
      CallIsHostChange(p, reals, st, calls[0], ids);
      assert before + [] == before;
    }
  }

  /** Induction over runs. */
  lemma {:induction false} RunCarries(
      p: Program, reals: RealOps, ids: set<nat>, r: (seq<Stamped>, Store) -> bool, before: seq<Stamped>, st: State,
      calls: seq<Call>)
    requires ProgramOk(p) && CoilsHaveOperands(p.code) && Invariant(p, st)
    requires Inductive(p, ids, r) && r(before, st.store)
    requires forall j | j in ids :: j < |p.decls| ==> p.decls[j].storage != 1
    requires Steady(p, reals, st, calls, ids)
    ensures r(before + RunLog(p, reals, st, calls), Calls(p, reals, st, calls).store)
    decreases |calls|
  {
    hide Apply, Scan, ProgramOk, Inductive;
    if calls == [] {
      assert before + [] == before;
    } else {
      ApplyIsSound(p, reals, st, calls[0]);
      CallCarries(p, reals, ids, r, before, st, calls);
      var next, events := Apply(p, reals, st, calls[0]).0, CallLog(p, reals, st, calls[0]);
      RunCarries(p, reals, ids, r, before + events, next, calls[1..]);
      assert before + events + RunLog(p, reals, next, calls[1..])
             == before + (events + RunLog(p, reals, next, calls[1..]));
    }
  }

  // ----- what other instructions leave alone -----

  /** A tag that is a timer or a counter changes only through its own instructions. */
  lemma {:induction false} OthersKeepTag(p: Program, c: Context, i: Instr, s: Store, power: bool, id: nat)
    requires ProgramOk(p) && i in p.code && !IsControl(i.op) && Consistent(p.decls, Slots(p.code), s)
    requires id < |s.tags| && Scalar(s.tags[id].data).None?
    requires (IsStateful(i.op) || i.op == OP_RES) ==> i.args[0].raw != id
    requires Execute(c, i, s, power).Passed?
    ensures Execute(c, i, s, power).st.tags[id] == s.tags[id]
  {
    assert InstrOk(p.decls, i);
  }

  /** A state record changes only through its own instruction, and through RES of its tag. */
  lemma {:induction false} OthersKeepSlot(p: Program, c: Context, i: Instr, s: Store, power: bool, own: Instr)
    requires ProgramOk(p) && i in p.code && !IsControl(i.op) && Consistent(p.decls, Slots(p.code), s)
    requires own in p.code && IsStateful(own.op) && i != own
    requires forall j | j in c.visible :: j in p.code
    requires i.op == OP_RES ==> i.args[0].raw != own.args[0].raw
    requires Execute(c, i, s, power).Passed?
    ensures var k, s1 := SlotIndex(s.states, own.slot), Execute(c, i, s, power).st;
            k < |s.states| && k < |s1.states| && s1.states[k] == s.states[k] && SlotIndex(s1.states, own.slot) == k
  {
    SlotsMember(p.code, own);
    SlotIsFound(s.states, Slots(p.code), own.slot);
    SlotIndexFinds(s.states, own.slot);
    var k, s1 := SlotIndex(s.states, own.slot), Execute(c, i, s, power).st;
    if IsStateful(i.op) {
      if i.slot == own.slot {
        OneSlotEach(p.code, i, own);
      }
      StatefulStates(c, i, s, power, k);
    } else if i.op == OP_RES {
      assert InstrOk(p.decls, i) && InstrOk(p.decls, own);
      if SlotOf(c.visible, i.args[0].raw, own.slot) {
        var j :| j in c.visible && Drives(j, i.args[0].raw) && SlotNumber(j) == own.slot;
        assert InstrOk(p.decls, j);
        OneSlotEach(p.code, j, own);
      }
      ResetStatesOnly(c, i, s, power, k);
    } else {
      PlainStates(c, i, s, power);
    }
    SameSlots(s.states, s1.states, own.slot);
  }

  lemma {:induction false} StatefulStates(c: Context, i: Instr, s: Store, power: bool, k: nat)
    requires IsStateful(i.op) && Execute(c, i, s, power).Passed?
    requires k < |s.states| && s.states[k].slot != i.slot
    ensures var s1 := Execute(c, i, s, power).st;
            |s1.states| == |s.states| && s1.states[k] == s.states[k]
              && forall j | 0 <= j < |s.states| :: s1.states[j].slot == s.states[j].slot
  {
    SlotIndexFinds(s.states, i.slot);
  }

  lemma {:induction false} ResetStatesOnly(c: Context, i: Instr, s: Store, power: bool, k: nat)
    requires i.op == OP_RES && Execute(c, i, s, power).Passed?
    requires k < |s.states| && !SlotOf(c.visible, i.args[0].raw, s.states[k].slot)
    ensures var s1 := Execute(c, i, s, power).st;
            |s1.states| == |s.states| && s1.states[k] == s.states[k]
              && forall j | 0 <= j < |s.states| :: s1.states[j].slot == s.states[j].slot
  {
  }

  lemma {:induction false} PlainStates(c: Context, i: Instr, s: Store, power: bool)
    requires !IsStateful(i.op) && i.op != OP_RES
    ensures Execute(c, i, s, power).st.states == s.states
  {
  }

  lemma {:induction false} SameSlots(a: seq<StateRecord>, b: seq<StateRecord>, slot: int)
    requires |a| == |b| && forall k | 0 <= k < |a| :: a[k].slot == b[k].slot
    ensures SlotIndex(a, slot) == SlotIndex(b, slot)
  {
    if a != [] && a[0].slot != slot {
      SameSlots(a[1..], b[1..], slot);
    }
  }

  /** Two different stateful instructions of an accepted program have different slots. */
  lemma {:induction false} OneSlotEach(code: seq<Instr>, i: Instr, j: Instr)
    requires Increasing(Slots(code), -1) && i in code && j in code
    requires IsStateful(i.op) && IsStateful(j.op) && i.slot == j.slot
    ensures i == j
  {
    var a :| 0 <= a < |code| && code[a] == i;
    var b :| 0 <= b < |code| && code[b] == j;
    if a < b {
      DifferentSlots(code, -1, a, b);
    } else if b < a {
      DifferentSlots(code, -1, b, a);
    }
  }

  lemma {:induction false} DifferentSlots(code: seq<Instr>, last: int, a: nat, b: nat)
    requires Increasing(Slots(code), last) && a < b < |code|
    requires IsStateful(code[a].op) && IsStateful(code[b].op)
    ensures code[a].slot < code[b].slot
    decreases |code|
  {
    assert Slots(code)[if IsStateful(code[0].op) then 1 else 0..] == Slots(code[1..]);
    if a > 0 {
      DifferentSlots(code[1..], if IsStateful(code[0].op) then code[0].slot else last, a - 1, b - 1);
    } else {
      assert code[b] in code[1..];
      SlotsMember(code[1..], code[b]);
      IncreasingAbove(Slots(code[1..]), code[0].slot, code[b].slot);
    }
  }

  lemma {:induction false} IncreasingAbove(slots: seq<int>, last: int, x: int)
    requires Increasing(slots, last) && x in slots
    ensures last < x
    decreases |slots|
  {
    if x != slots[0] {
      IncreasingAbove(slots[1..], slots[0], x);
    }
  }
}
