/** Counter conservation over runs. */
module CounterLaw {
  import opened Bytes
  import opened Instructions
  import opened ControlFlow
  import opened Admission
  import opened Semantics
  import opened Soundness
  import opened Machine
  import opened Safety
  import opened Runs

  /** The instruction counts on tag id. */
  predicate CountsOn(i: Instr, id: nat) {
    (i.op == OP_CTU || i.op == OP_CTD) && i.args != [] && i.args[0].raw == id
  }

  /** The power the instruction that owns a slot received when it last ran, or edge0 if it has not
   *  run yet. */
  function LastPower(log: seq<Stamped>, slot: int, edge0: bool): bool {
    if log == [] then edge0
    else
      var e := log[|log| - 1].event;
      if IsStateful(e.instr.op) && e.instr.slot == slot then e.inp else LastPower(log[..|log| - 1], slot, edge0)
  }

  /** Event n of the log is a rising edge of a counting instruction of tag id. */
  predicate Rises(log: seq<Stamped>, n: nat, id: nat, edge0: int -> bool)
    requires n < |log|
  {
    var e := log[n].event;
    CountsOn(e.instr, id) && e.inp && !LastPower(log[..n], e.instr.slot, edge0(e.instr.slot))
  }

  /** The up edges minus the down edges. */
  function Net(log: seq<Stamped>, id: nat, edge0: int -> bool): int {
    if log == [] then 0
    else
      var n := |log| - 1;
      Net(log[..n], id, edge0)
      + if !Rises(log, n, id, edge0) then 0 else if log[n].event.instr.op == OP_CTU then 1 else -1
  }

  /** Event n counts the accumulator over the end of its range, in the direction of op. */
  predicate Wraps(log: seq<Stamped>, n: nat, id: nat, edge0: int -> bool, acc0: int, op: byte)
    requires n < |log|
  {
    && Rises(log, n, id, edge0) && log[n].event.instr.op == op
    && Wrap32(acc0 + Net(log[..n], id, edge0)) == if op == OP_CTU then INT32_MAX else INT32_MIN
  }

  ghost predicate Wrapped(log: seq<Stamped>, id: nat, edge0: int -> bool, acc0: int, op: byte) {
    exists n | 0 <= n < |log| :: Wraps(log, n, id, edge0, acc0, op)
  }

  function EdgeOf(s: Store, slot: int): bool {
    var k := SlotIndex(s.states, slot);
    k < |s.states| && s.states[k].edge
  }

  /** The counter after a log, from its data before it. */
  ghost predicate Tracks(p: Program, id: nat, d0: Data, edge0: int -> bool, log: seq<Stamped>, s: Store) {
    && id < |s.tags| && d0.CounterD? && s.tags[id].data.CounterD?
    && var d := s.tags[id].data;
    && d.pre == d0.pre
    && d.acc == Wrap32(d0.acc + Net(log, id, edge0))
    && d.ov == (d0.ov || Wrapped(log, id, edge0, d0.acc, OP_CTU))
    && d.un == (d0.un || Wrapped(log, id, edge0, d0.acc, OP_CTD))
    && EdgesTrack(p, id, edge0, log, s)
  }

  ghost predicate EdgesTrack(p: Program, id: nat, edge0: int -> bool, log: seq<Stamped>, s: Store) {
    forall own | own in p.code && CountsOn(own, id) :: EdgeOf(s, own.slot) == LastPower(log, own.slot, edge0(own.slot))
  }

  predicate NeverReset(p: Program, id: nat) {
    forall i | i in p.code && i.op == OP_RES && i.args != [] :: i.args[0].raw != id
  }

  lemma {:induction false} NetStep(log: seq<Stamped>, e: Stamped, id: nat, edge0: int -> bool)
    ensures var all := log + [e];
            Net(all, id, edge0) == Net(log, id, edge0)
                                   + if !Rises(all, |log|, id, edge0) then 0 else if e.event.instr.op == OP_CTU then 1
                                     else -1
  {
    assert (log + [e])[..|log|] == log;
  }

  lemma {:induction false} WrappedStep(log: seq<Stamped>, e: Stamped, id: nat, edge0: int -> bool, acc0: int, op: byte)
    ensures Wrapped(log + [e], id, edge0, acc0, op) <==>
              Wrapped(log, id, edge0, acc0, op) || Wraps(log + [e], |log|, id, edge0, acc0, op)
  {
    assert forall n | 0 <= n <= |log| :: (log + [e])[..n] == log[..n];
    if Wrapped(log, id, edge0, acc0, op) {
      var n :| 0 <= n < |log| && Wraps(log, n, id, edge0, acc0, op);
      assert Wraps(log + [e], n, id, edge0, acc0, op);
    }
    if Wrapped(log + [e], id, edge0, acc0, op) {
      var n :| 0 <= n < |log + [e]| && Wraps(log + [e], n, id, edge0, acc0, op);
      assert n < |log| ==> Wraps(log, n, id, edge0, acc0, op);
    }
  }

  lemma {:induction false} OtherKeepsEdges(
      p: Program, id: nat, edge0: int -> bool, log: seq<Stamped>, c: Context, i: Instr, s: Store, power: bool)
    requires ProgramOk(p) && NeverReset(p, id) && !CountsOn(i, id)
    requires Consistent(p.decls, Slots(p.code), s) && i in p.code && !IsControl(i.op)
             && forall j | j in c.visible :: j in p.code
    requires EdgesTrack(p, id, edge0, log, s) && Execute(c, i, s, power).Passed?
    ensures var e := Execute(c, i, s, power);
            EdgesTrack(p, id, edge0, log + [Stamped(Event(i, power, e.power), c.tick)], e.st)
  {
    assert InstrOk(p.decls, i);
    hide Execute;
    var e := Execute(c, i, s, power);
    var stamped := Stamped(Event(i, power, e.power), c.tick);
    assert (log + [stamped])[..|log|] == log;
    forall own | own in p.code && CountsOn(own, id)
      ensures EdgeOf(e.st, own.slot) == LastPower(log + [stamped], own.slot, edge0(own.slot))
    {
      assert InstrOk(p.decls, own);
      OthersKeepSlot(p, c, i, s, power, own);
      if IsStateful(i.op) && i.slot == own.slot {
        OneSlotEach(p.code, i, own);
      }
    }
  }

  lemma {:induction false} OtherNamesOther(p: Program, i: Instr, id: nat, s: Store)
    requires ProgramOk(p) && NeverReset(p, id) && !CountsOn(i, id) && i in p.code && !IsControl(i.op)
    requires Consistent(p.decls, Slots(p.code), s) && id < |s.tags| && s.tags[id].data.CounterD?
    ensures (IsStateful(i.op) || i.op == OP_RES) ==> i.args != [] && i.args[0].raw != id
  {
    assert InstrOk(p.decls, i);
    assert p.decls[id].typ == 5 by { assert TypeCode(s.tags[id].data) == p.decls[id].typ; }
  }

  /** An instruction that does not count on the tag. */
  lemma {:induction false} OtherKeepsCounter(
      p: Program, id: nat, d0: Data, edge0: int -> bool, log: seq<Stamped>, c: Context, i: Instr, s: Store, power: bool)
    requires ProgramOk(p) && NeverReset(p, id) && !CountsOn(i, id)
    requires Consistent(p.decls, Slots(p.code), s) && i in p.code && !IsControl(i.op)
             && forall j | j in c.visible :: j in p.code
    requires Tracks(p, id, d0, edge0, log, s) && Execute(c, i, s, power).Passed?
    ensures var e := Execute(c, i, s, power);
            Tracks(p, id, d0, edge0, log + [Stamped(Event(i, power, e.power), c.tick)], e.st)
  {
    hide Execute, ProgramOk, Consistent, EdgesTrack, Wrap32, Wrapped, Wraps, Net, Rises, LastPower, CountsOn,
         NeverReset, InstrOk;
    OtherKeepsEdges(p, id, edge0, log, c, i, s, power);
    OtherNamesOther(p, i, id, s);
    OthersKeepTag(p, c, i, s, power, id);
    ExecuteKeepsCount(p, c, i, s, power);
    var stamped := Stamped(Event(i, power, Execute(c, i, s, power).power), c.tick);
    OtherDoesNotRise(log, stamped, id, edge0, d0.acc);
    NetStep(log, stamped, id, edge0);
    WrappedStep(log, stamped, id, edge0, d0.acc, OP_CTU);
    WrappedStep(log, stamped, id, edge0, d0.acc, OP_CTD);
  }

  lemma {:induction false} OtherDoesNotRise(log: seq<Stamped>, e: Stamped, id: nat, edge0: int -> bool, acc0: int)
    requires !CountsOn(e.event.instr, id)
    ensures var all := log + [e];
            && !Rises(all, |log|, id, edge0)
            && !Wraps(all, |log|, id, edge0, acc0, OP_CTU) && !Wraps(all, |log|, id, edge0, acc0, OP_CTD)
  {
  }

  lemma {:induction false} ExecuteKeepsCount(p: Program, c: Context, i: Instr, s: Store, power: bool)
    requires ProgramOk(p) && Consistent(p.decls, Slots(p.code), s) && i in p.code && !IsControl(i.op)
    ensures |Execute(c, i, s, power).st.tags| == |s.tags|
  {
    if IsStateful(i.op) {
      SlotsMember(p.code, i);
      SlotIsFound(s.states, Slots(p.code), i.slot);
    }
    ExecuteIsSound(p.decls, c, i, s, power);
  }

  lemma {:induction false} WrapStep(x: int)
    ensures Wrap32(x + 1) == if Wrap32(x) == INT32_MAX then INT32_MIN else Wrap32(x) + 1
    ensures Wrap32(x - 1) == if Wrap32(x) == INT32_MIN then INT32_MAX else Wrap32(x) - 1
  {
    WrapUp(x);
    WrapUp(x - 1);
  }

  lemma {:induction false} WrapUp(x: int)
    ensures Wrap32(x + 1) == if Wrap32(x) == INT32_MAX then INT32_MIN else Wrap32(x) + 1
  {
    var m := x % 0x1_0000_0000;
    assert (x + 1) % 0x1_0000_0000 == if m == 0xffff_ffff then 0 else m + 1;
  }

  lemma {:induction false} CountKeepsEdges(
      p: Program, id: nat, edge0: int -> bool, log: seq<Stamped>, c: Context, i: Instr, s: Store, power: bool)
    requires ProgramOk(p) && CountsOn(i, id)
    requires Consistent(p.decls, Slots(p.code), s) && i in p.code && forall j | j in c.visible :: j in p.code
    requires EdgesTrack(p, id, edge0, log, s) && Execute(c, i, s, power).Passed?
    ensures var e := Execute(c, i, s, power);
            EdgesTrack(p, id, edge0, log + [Stamped(Event(i, power, e.power), c.tick)], e.st)
  {
    assert InstrOk(p.decls, i);
    SlotsMember(p.code, i);
    SlotIsFound(s.states, Slots(p.code), i.slot);
    SlotIndexFinds(s.states, i.slot);
    var e := Execute(c, i, s, power);
    var stamped := Stamped(Event(i, power, e.power), c.tick);
    assert (log + [stamped])[..|log|] == log;
    forall own | own in p.code && CountsOn(own, id)
      ensures EdgeOf(e.st, own.slot) == LastPower(log + [stamped], own.slot, edge0(own.slot))
    {
      if own == i {
        SameSlots(s.states, e.st.states, i.slot);
      } else {
        OthersKeepSlot(p, c, i, s, power, own);
        if i.slot == own.slot {
          OneSlotEach(p.code, i, own);
        }
      }
    }
  }

  /** What a counter instruction does to its tag. */
  lemma {:induction false} CountEffect(p: Program, id: nat, c: Context, i: Instr, s: Store, power: bool)
    requires ProgramOk(p) && CountsOn(i, id) && Consistent(p.decls, Slots(p.code), s) && i in p.code
    requires id < |s.tags| && s.tags[id].data.CounterD? && Execute(c, i, s, power).Passed?
    ensures var e, t, rise := Execute(c, i, s, power), s.tags[id].data, power && !EdgeOf(s, i.slot);
            id < |e.st.tags| && e.st.tags[id].data == if i.op == OP_CTU then CountUp(t, power, rise)
              else CountDown(t, power, rise)
  {
    assert InstrOk(p.decls, i);
    SlotsMember(p.code, i);
    SlotIsFound(s.states, Slots(p.code), i.slot);
  }

  lemma {:induction false} CountTracks(
      p: Program, id: nat, d0: Data, edge0: int -> bool, log: seq<Stamped>, c: Context, i: Instr, s: Store, power: bool)
    requires ProgramOk(p) && CountsOn(i, id)
    requires Consistent(p.decls, Slots(p.code), s) && i in p.code && forall j | j in c.visible :: j in p.code
    requires Tracks(p, id, d0, edge0, log, s) && Execute(c, i, s, power).Passed?
    ensures var e := Execute(c, i, s, power);
            Tracks(p, id, d0, edge0, log + [Stamped(Event(i, power, e.power), c.tick)], e.st)
  {
    hide Execute, ProgramOk, Consistent, EdgesTrack, Wrap32, Wrapped, EdgeOf, LastPower, Rises, Net, CountsOn;
    CountKeepsEdges(p, id, edge0, log, c, i, s, power);
    CountEffect(p, id, c, i, s, power);
    var e := Execute(c, i, s, power);
    var stamped := Stamped(Event(i, power, e.power), c.tick);
    assert (log + [stamped])[..|log|] == log;
    CountRises(p, id, edge0, log, stamped, s);
    NetStep(log, stamped, id, edge0);
    WrapStep(d0.acc + Net(log, id, edge0));
    WrappedStep(log, stamped, id, edge0, d0.acc, OP_CTU);
    WrappedStep(log, stamped, id, edge0, d0.acc, OP_CTD);
    OpsOfCounters(i, id);
  }

  lemma {:induction false} OpsOfCounters(i: Instr, id: nat)
    requires CountsOn(i, id)
    ensures i.op == OP_CTU || i.op == OP_CTD
  {
  }

  lemma {:induction false} CountRises(p: Program, id: nat, edge0: int -> bool, log: seq<Stamped>, e: Stamped, s: Store)
    requires CountsOn(e.event.instr, id) && e.event.instr in p.code && EdgesTrack(p, id, edge0, log, s)
    ensures Rises(log + [e], |log|, id, edge0) == (e.event.inp && !EdgeOf(s, e.event.instr.slot))
  {
    assert (log + [e])[..|log|] == log;
  }

  lemma {:induction false} TracksIsInductive(p: Program, id: nat, d0: Data, edge0: int -> bool)
    requires ProgramOk(p) && NeverReset(p, id)
    ensures Inductive(p, {}, (log: seq<Stamped>, s: Store) => Tracks(p, id, d0, edge0, log, s))
  {
    hide Execute, ProgramOk, Consistent, CountsOn, NeverReset;
    var r := (log: seq<Stamped>, s: Store) => Tracks(p, id, d0, edge0, log, s);
    forall log, c, i, s, power | CarriedBefore(p, r, log, c, i, s, power)
      ensures CarriedAfter(r, log, c, i, s, power)
    {
      if CountsOn(i, id) {
        CountTracks(p, id, d0, edge0, log, c, i, s, power);
      } else {
        OtherKeepsCounter(p, id, d0, edge0, log, c, i, s, power);
      }
    }
  }

  lemma {:induction false} TracksAtStart(p: Program, id: nat, edge0: int -> bool, s: Store)
    requires id < |s.tags| && s.tags[id].data.CounterD?
    requires forall slot :: edge0(slot) == EdgeOf(s, slot)
    ensures Tracks(p, id, s.tags[id].data, edge0, [], s)
  {
  }

  /** Counter conservation. Over any run of OK scans, host writes and forces, of a program that
   *  never resets the counter: ACC is its start value plus the up edges minus the down edges, as a
   *  signed 32-bit value; PRE is unchanged; OV and UN are set exactly by an up count that wrapped
   *  and a down count that wrapped. */
  lemma {:induction false} CounterConservation(p: Program, reals: RealOps, st: State, calls: seq<Call>, id: nat)
    requires ProgramOk(p) && CoilsHaveOperands(p.code) && Invariant(p, st)
    requires Steady(p, reals, st, calls, {}) && NeverReset(p, id)
    requires id < |st.store.tags| && st.store.tags[id].data.CounterD?
    ensures Conserved(st.store.tags[id].data, Calls(p, reals, st, calls).store, id, slot => EdgeOf(st.store, slot),
            RunLog(p, reals, st, calls))
  {
    var d0 := st.store.tags[id].data;
    var edge0 := (slot: int) => EdgeOf(st.store, slot);
    var r := (log: seq<Stamped>, s: Store) => Tracks(p, id, d0, edge0, log, s);
    TracksIsInductive(p, id, d0, edge0);
    TracksAtStart(p, id, edge0, st.store);
    hide *;
    RunCarries(p, reals, {}, r, [], st, calls);
    var log := RunLog(p, reals, st, calls);
    assert [] + log == log;
    TracksConserve(p, id, d0, edge0, log, Calls(p, reals, st, calls).store);
  }

  /** The law for one counter: d0 is its data before the log, s the store after it. */
  ghost predicate Conserved(d0: Data, s: Store, id: nat, edge0: int -> bool, log: seq<Stamped>)
    requires d0.CounterD?
  {
    && id < |s.tags| && s.tags[id].data.CounterD?
    && var d := s.tags[id].data;
    && d.pre == d0.pre
    && d.acc == Wrap32(d0.acc + Net(log, id, edge0))
    && d.ov == (d0.ov || Wrapped(log, id, edge0, d0.acc, OP_CTU))
    && d.un == (d0.un || Wrapped(log, id, edge0, d0.acc, OP_CTD))
  }

  lemma {:induction false} TracksConserve(
      p: Program, id: nat, d0: Data, edge0: int -> bool, log: seq<Stamped>, s: Store)
    requires Tracks(p, id, d0, edge0, log, s)
    ensures Conserved(d0, s, id, edge0, log)
  {
  }

  /** Entering RUN or TEST from PROGRAM counts as a powered scan for every counter. */
  lemma {:induction false} EdgesStartTrue(p: Program, st: State, mode: Mode, slot: int)
    requires ProgramOk(p) && CoilsHaveOperands(p.code) && Invariant(p, st)
    requires st.mode == PROGRAM && (mode == RUN || mode == TEST) && slot in Slots(p.code)
    ensures EdgeOf(SetMode(p, st, mode).0.store, slot)
  {
    SetModeIsSound(p, st, mode);
    IdleIsSound(p.decls, Slots(p.code), st.store, true);
    IdleCodeKeepsStates(Idle(st.store, true), Visible(p, st.visible), true);
    var s1 := SetMode(p, st, mode).0.store;
    SlotIsFound(s1.states, Slots(p.code), slot);
  }

  /** The exact running count stays inside the accumulator's range. */
  ghost predicate StaysInRange(log: seq<Stamped>, id: nat, edge0: int -> bool, acc0: int) {
    forall n | 0 <= n <= |log| :: INT32_MIN <= acc0 + Net(log[..n], id, edge0) <= INT32_MAX
  }

  lemma {:induction false} RangeStep(log: seq<Stamped>, e: Stamped, id: nat, edge0: int -> bool, acc0: int)
    ensures StaysInRange(log + [e], id, edge0, acc0)
       <==> StaysInRange(log, id, edge0, acc0) && INT32_MIN <= acc0 + Net(log + [e], id, edge0) <= INT32_MAX
    ensures StaysInRange(log, id, edge0, acc0) ==> INT32_MIN <= acc0 + Net(log, id, edge0) <= INT32_MAX
  {
    var all := log + [e];
    assert forall n | 0 <= n <= |log| :: all[..n] == log[..n];
    assert all[..|all|] == all && log[..|log|] == log;
    if StaysInRange(all, id, edge0, acc0) {
      forall n | 0 <= n <= |log|
        ensures INT32_MIN <= acc0 + Net(log[..n], id, edge0) <= INT32_MAX
      {
        assert all[..n] == log[..n];
      }
    }
  }

  lemma {:induction false} NothingWraps(id: nat, edge0: int -> bool, acc0: int32)
    ensures StaysInRange([], id, edge0, acc0) && Net([], id, edge0) == 0 && Wrap32(acc0) == acc0
    ensures !Wrapped([], id, edge0, acc0, OP_CTU) && !Wrapped([], id, edge0, acc0, OP_CTD)
  {
    var log: seq<Stamped> := [];
    assert log[..0] == [];
  }

  /** The counter wraps exactly when the exact count leaves the range; otherwise ACC is exact. */
  lemma {:induction false} WrapsIffOutOfRange(log: seq<Stamped>, id: nat, edge0: int -> bool, acc0: int32)
    ensures StaysInRange(log, id, edge0, acc0)
       <==> !Wrapped(log, id, edge0, acc0, OP_CTU) && !Wrapped(log, id, edge0, acc0, OP_CTD)
    ensures StaysInRange(log, id, edge0, acc0) ==> Wrap32(acc0 + Net(log, id, edge0)) == acc0 + Net(log, id, edge0)
    decreases |log|
  {
    hide StaysInRange, Wrapped, Wrap32, LastPower, Net;
    if log == [] {
      NothingWraps(id, edge0, acc0);
    } else {
      var n := |log| - 1;
      var prefix := log[..n];
      assert log == prefix + [log[n]];
      WrapsIffOutOfRange(prefix, id, edge0, acc0);
      WrappedStep(prefix, log[n], id, edge0, acc0, OP_CTU);
      WrappedStep(prefix, log[n], id, edge0, acc0, OP_CTD);
      RangeStep(prefix, log[n], id, edge0, acc0);
      NetStep(prefix, log[n], id, edge0);
      WrapStep(acc0 + Net(prefix, id, edge0));
      InRangeIsExact(acc0 + Net(log, id, edge0));
    }
  }

  lemma {:induction false} InRangeIsExact(x: int)
    ensures INT32_MIN <= x <= INT32_MAX ==> Wrap32(x) == x
  {
  }
}
