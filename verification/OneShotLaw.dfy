/** One-shots over runs. */
module OneShotLaw {
  import opened Bytes
  import opened Instructions
  import opened ControlFlow
  import opened Admission
  import opened Semantics
  import opened Soundness
  import opened Machine
  import opened Safety
  import opened Runs

  /** own is a one-shot with storage tag id, and no other instruction of the program names the tag. */
  predicate OwnsStorage(p: Program, id: nat, own: Instr) {
    && own in p.code && own.op == OP_ONS && own.args != [] && own.args[0].raw == id
    && forall i, o | i in p.code && o in i.args && o.kind == 1 && o.raw == id :: i == own
  }

  /** The input of the instruction when it last ran, or before if it has not run yet. */
  function LastInput(log: seq<Stamped>, own: Instr, before: bool): bool {
    if log == [] then before
    else
      var e := log[|log| - 1].event;
      if e.instr == own then e.inp else LastInput(log[..|log| - 1], own, before)
  }

  /** Every run of the one-shot passed power exactly when its input rose. */
  predicate PulsesOnRise(log: seq<Stamped>, own: Instr, before: bool) {
    forall n | 0 <= n < |log| && log[n].event.instr == own ::
      log[n].event.out == (log[n].event.inp && !LastInput(log[..n], own, before))
  }

  predicate TracksOneShot(id: nat, own: Instr, before: bool, log: seq<Stamped>, s: Store) {
    && id < |s.tags| && s.forces[id] == None
    && s.tags[id].data == BoolD(LastInput(log, own, before))
    && PulsesOnRise(log, own, before)
  }

  lemma {:induction false} PulseStep(log: seq<Stamped>, e: Stamped, own: Instr, before: bool)
    requires PulsesOnRise(log, own, before)
    requires e.event.instr == own ==> e.event.out == (e.event.inp && !LastInput(log, own, before))
    ensures PulsesOnRise(log + [e], own, before)
    ensures LastInput(log + [e], own, before) == if e.event.instr == own then e.event.inp
            else LastInput(log, own, before)
  {
    var all := log + [e];
    assert forall n | 0 <= n <= |log| :: all[..n] == log[..n];
    assert log[..|log|] == log;
  }

  /** An instruction that does not name the tag leaves it alone. */
  lemma {:induction false} OthersKeepStorage(p: Program, c: Context, i: Instr, s: Store, power: bool, id: nat)
    requires ProgramOk(p) && i in p.code && !IsControl(i.op) && Consistent(p.decls, Slots(p.code), s)
    requires id < |s.tags| && forall o | o in i.args && o.kind == 1 :: o.raw != id
    requires Execute(c, i, s, power).Passed?
    ensures var s1 := Execute(c, i, s, power).st; id < |s1.tags| && s1.tags[id] == s.tags[id]
  {
    assert InstrOk(p.decls, i);
    assert i.args[0] in i.args;
    assert |i.args| > 1 ==> i.args[1] in i.args;
    assert |i.args| > 2 ==> i.args[2] in i.args;
  }

  lemma {:induction false} ForcesStay(c: Context, i: Instr, s: Store, power: bool)
    ensures Execute(c, i, s, power).st.forces == s.forces
  {
  }

  lemma {:induction false} OwnPulse(p: Program, c: Context, own: Instr, s: Store, power: bool, id: nat)
    requires ProgramOk(p) && OwnsStorage(p, id, own) && Consistent(p.decls, Slots(p.code), s)
    requires id < |s.tags| && s.forces[id] == None && s.tags[id].data.BoolD? && Execute(c, own, s, power).Passed?
    ensures var e := Execute(c, own, s, power);
            && id < |e.st.tags| && e.st.tags[id].data == BoolD(power)
            && e.power == (power && !s.tags[id].data.b)
  {
    assert InstrOk(p.decls, own);
  }

  lemma {:induction false} TracksOneShotIsInductive(p: Program, id: nat, own: Instr, before: bool)
    requires ProgramOk(p) && OwnsStorage(p, id, own)
    ensures Inductive(p, {id}, (log: seq<Stamped>, s: Store) => TracksOneShot(id, own, before, log, s))
  {
    var r := (log: seq<Stamped>, s: Store) => TracksOneShot(id, own, before, log, s);
    forall log, c, i, s, power | CarriedBefore(p, r, log, c, i, s, power)
      ensures CarriedAfter(r, log, c, i, s, power)
    {
      hide Execute, PulsesOnRise;
      var e := Stamped(Event(i, power, Execute(c, i, s, power).power), c.tick);
      ForcesStay(c, i, s, power);
      if i == own {
        OwnPulse(p, c, own, s, power, id);
      } else {
        OthersKeepStorage(p, c, i, s, power, id);
      }
      PulseStep(log, e, own, before);
    }
    forall log, s, s1 | r(log, s) && HostChange(s, s1, {id})
      ensures r(log, s1)
    {
      assert id in {id};
    }
  }

  /** The one-shot law. In any run of OK scans in which the host neither writes nor forces its
   *  storage, a one-shot that owns its storage passes power in a scan exactly when its input is
   *  true and was false when it last ran; before the first run the stored value stands for it. */
  lemma {:induction false} OneShotPulsesOnRise(
      p: Program, reals: RealOps, st: State, calls: seq<Call>, id: nat, own: Instr)
    requires ProgramOk(p) && CoilsHaveOperands(p.code) && Invariant(p, st) && OwnsStorage(p, id, own)
    requires Steady(p, reals, st, calls, {id})
    requires id < |st.store.tags| && st.store.forces[id] == None && st.store.tags[id].data.BoolD?
    ensures var before, log, end := st.store.tags[id].data.b, RunLog(p, reals, st, calls),
            Calls(p, reals, st, calls).store;
            && PulsesOnRise(log, own, before)
            && id < |end.tags| && end.tags[id].data == BoolD(LastInput(log, own, before))
  {
    var before := st.store.tags[id].data.b;
    var r := (log: seq<Stamped>, s: Store) => TracksOneShot(id, own, before, log, s);
    TracksOneShotIsInductive(p, id, own, before);
    assert r([], st.store);
    StorageIsNoInput(p, id, own);
    hide ProgramOk, Invariant, Apply, Steady, RunLog, Calls, CoilsHaveOperands, Inductive, PulsesOnRise, OwnsStorage;
    RunCarries(p, reals, {id}, r, [], st, calls);
    assert [] + RunLog(p, reals, st, calls) == RunLog(p, reals, st, calls);
  }

  lemma {:induction false} StorageIsNoInput(p: Program, id: nat, own: Instr)
    requires ProgramOk(p) && OwnsStorage(p, id, own)
    ensures id < |p.decls| && p.decls[id].storage != 1 && p.decls[id].typ == 1
  {
    assert InstrOk(p.decls, own);
  }

  /** Entering RUN or TEST from PROGRAM sets the storage: the input before the first scan counts as
   *  true, and a rung that is already true gives no pulse. */
  lemma {:induction false} StorageStartsTrue(p: Program, st: State, mode: Mode, id: nat, own: Instr)
    requires ProgramOk(p) && CoilsHaveOperands(p.code) && Invariant(p, st) && OwnsStorage(p, id, own)
    requires st.mode == PROGRAM && (mode == RUN || mode == TEST) && own in Visible(p, st.visible)
    ensures var s1 := SetMode(p, st, mode).0.store; id < |s1.tags| && s1.tags[id].data == BoolD(true)
  {
    StorageIsNoInput(p, id, own);
    SetModeIsSound(p, st, mode);
    IdleIsSound(p.decls, Slots(p.code), st.store, true);
    StorageIsSet(p, Idle(st.store, true), Visible(p, st.visible), id, own);
  }

  lemma {:induction false} StorageIsSet(p: Program, s: Store, code: seq<Instr>, id: nat, own: Instr)
    requires ProgramOk(p) && CoilsHaveOperands(code) && OwnsStorage(p, id, own)
    requires Consistent(p.decls, Slots(p.code), s) && id < |s.tags|
    requires forall i | i in code :: i in p.code
    requires own in code || s.tags[id].data == BoolD(true)
    ensures var s1 := IdleCode(s, code, true).store; id < |s1.tags| && s1.tags[id].data == BoolD(true)
    decreases |code|
  {
    if code != [] {
      var i := code[0];
      assert i in code && InstrOk(p.decls, i);
      var v := IdleWrite(i, true);
      if v.None? {
        StorageIsSet(p, s, code[1..], id, own);
      } else {
        assert i.args[0] in i.args;
        WriteIsTyped(p.decls, s, i.args[0], v.value);
        var s1 := Write(s, i.args[0], v.value).value;
        if i != own {
          assert i.args[0].raw != id;
        }
        StorageIsSet(p, s1, code[1..], id, own);
      }
    }
  }
}
