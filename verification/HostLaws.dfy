/** What the host sees and does: inputs, outputs, forces, writes and modes, stated on the tags and
 *  their forces. */
module HostLaws {
  import opened Bytes
  import opened Instructions
  import opened ControlFlow
  import opened Brackets
  import opened Admission
  import opened Semantics
  import opened Soundness
  import opened Machine
  import opened Safety
  import opened Runs
  import opened InstructionLaws

  const IS_INPUT: byte := 1
  const IS_OUTPUT: byte := 2

  // ----- inputs -----

  /** After a clean capture every INPUT tag stores what the host answered for its number, and nothing
   *  else has changed. */
  lemma {:induction false} CaptureStoresAnswers(s: Store, hal: Hal, k: nat)
    requires Capture(s, hal, k).fault.None?
    ensures var s1 := Capture(s, hal, k).store;
            && |s1.tags| == |s.tags| && s1.forces == s.forces && s1.states == s.states
            && (forall j | 0 <= j < |s.tags| ::
                  s1.tags[j].storage == s.tags[j].storage && TypeCode(s1.tags[j].data) == TypeCode(s.tags[j].data))
            && (forall j | 0 <= j < |s.tags| && (j < k || s.tags[j].storage != IS_INPUT || !hal.readsInputs) ::
                  s1.tags[j] == s.tags[j])
            && (forall j | k <= j < |s.tags| && s.tags[j].storage == IS_INPUT && hal.readsInputs ::
                  hal.input(j).Some? && Stores(s1, j, hal.input(j).value))
    decreases |s.tags| - k
  {
    if k < |s.tags| {
      if s.tags[k].storage != IS_INPUT || !hal.readsInputs {
        CaptureStoresAnswers(s, hal, k + 1);
      } else {
        CaptureStoresAnswers(SetData(s, k, DataOf(hal.input(k).value)), hal, k + 1);
      }
    }
  }

  /** The capture stops at the first INPUT tag the host has no answer for, or one of another type. */
  lemma {:induction false} CaptureStops(s: Store, hal: Hal, k: nat)
    requires Capture(s, hal, k).fault.Some?
    ensures var f := Capture(s, hal, k).fault.value;
            && f.category == Category.HAL && k <= f.tag < |s.tags| && hal.readsInputs
            && s.tags[f.tag].storage == IS_INPUT
            && (f.code == 1 <==> hal.input(f.tag).None?)
            && (f.code != 1 ==> f.code == 2 && !Stores(Capture(s, hal, k).store, f.tag, hal.input(f.tag).value))
    decreases |s.tags| - k
  {
    if k < |s.tags| {
      if s.tags[k].storage != IS_INPUT || !hal.readsInputs {
        CaptureStops(s, hal, k + 1);
      } else if hal.input(k).Some? && ValueCode(hal.input(k).value) == TypeCode(s.tags[k].data) {
        CaptureStops(SetData(s, k, DataOf(hal.input(k).value)), hal, k + 1);
      }
    }
  }

  /** No accepted instruction changes a scalar INPUT tag. */
  lemma {:induction false} InputStays(p: Program, c: Context, i: Instr, s: Store, power: bool, k: nat)
    requires ProgramOk(p) && i in p.code && !IsControl(i.op) && Consistent(p.decls, Slots(p.code), s)
    requires k < |s.tags| && s.tags[k].storage == IS_INPUT && Scalar(s.tags[k].data).Some?
    requires Execute(c, i, s, power).Passed?
    ensures var s1 := Execute(c, i, s, power).st; k < |s1.tags| && s1.tags[k] == s.tags[k]
  {
    assert InstrOk(p.decls, i);
    if IsStateful(i.op) || i.op == OP_RES {
      assert TypeCode(s.tags[i.args[0].raw].data) == p.decls[i.args[0].raw].typ;
    }
  }

  lemma {:induction false} InputStaysInductive(p: Program, k: nat, t: Tag)
    requires ProgramOk(p) && t.storage == IS_INPUT && Scalar(t.data).Some?
    ensures Inductive(p, {k}, (log: seq<Stamped>, s: Store) => k < |s.tags| && s.tags[k] == t)
  {
    var r := (log: seq<Stamped>, s: Store) => k < |s.tags| && s.tags[k] == t;
    hide Execute, ProgramOk, Consistent;
    forall log, c, i, s, power | CarriedBefore(p, r, log, c, i, s, power)
      ensures CarriedAfter(r, log, c, i, s, power)
    {
      InputStays(p, c, i, s, power, k);
    }
  }

  /** After a scan of an accepted program that answers OK, every INPUT tag stores what the host answered
   *  for its number in that scan. */
  lemma {:induction false} ScanStoresAnswers(p: Program, reals: RealOps, st: State, hal: Hal, k: nat)
    requires ProgramOk(p) && Invariant(p, st) && Scan(p, reals, st, hal).status == OK
    requires k < |st.store.tags| && st.store.tags[k].storage == IS_INPUT && hal.readsInputs
    ensures hal.input(k).Some? && Stores(Scan(p, reals, st, hal).state.store, k, hal.input(k).value)
  {
    var captured := Capture(st.store, hal, 0);
    CaptureStoresAnswers(st.store, hal, 0);
    CaptureIsSound(p.decls, Slots(p.code), st.store, hal, 0);
    ReadyAtStart(p, captured.store, st.visible);
    var t := captured.store.tags[k];
    var r := (log: seq<Stamped>, s: Store) => k < |s.tags| && s.tags[k] == t;
    InputStaysInductive(p, k, t);
    hide Capture, Inductive, ProgramOk, WriteOutputs, Rungs, Ready, Consistent;
    RungsCarry(p, reals, {k}, r, [], hal.now, captured.store, st.power, 0, 0, st.visible, []);
  }

  // ----- outputs -----

  /** The entries are OUTPUT tags from k on in ascending order, each with the value it shows. */
  predicate ShownOutputs(s: Store, k: nat, written: seq<(nat, Value)>) {
    && (forall n | 0 <= n < |written| ::
          && k <= written[n].0 < |s.tags| && s.tags[written[n].0].storage == IS_OUTPUT
          && Shows(s, written[n].0, written[n].1))
    && (forall m, n | 0 <= m < n < |written| :: written[m].0 < written[n].0)
  }

  /** Every OUTPUT tag is among them. */
  predicate AllOutputs(s: Store, k: nat, written: seq<(nat, Value)>) {
    forall id | k <= id < |s.tags| && s.tags[id].storage == IS_OUTPUT ::
      exists n :: 0 <= n < |written| && written[n].0 == id
  }

  /** The host is handed the OUTPUT tags one by one, each with its force where it has one and its stored
   *  value where it has none: all of them, unless it refuses one. */
  lemma {:induction false} OutputsAreShown(s: Store, hal: Hal, k: nat)
    ensures var o := WriteOutputs(s, hal, k);
            && ShownOutputs(s, k, o.written)
            && (o.fault.None? ==> AllOutputs(s, k, o.written))
            && (o.fault.None? ==> forall n | 0 <= n < |o.written| :: hal.output(o.written[n].0, o.written[n].1))
    decreases |s.tags| - k
  {
    hide *;
    OutputTurn(s, hal, k);
    if k >= |s.tags| || (s.tags[k].storage == IS_OUTPUT && ReadTag(s, k).None?) {
      NoOutputs(s, k);
    } else {
      OutputsAreShown(s, hal, k + 1);
      var rest := WriteOutputs(s, hal, k + 1).written;
      if s.tags[k].storage != IS_OUTPUT {
        NoOutput(s, k, rest);
      } else {
        var v := ReadTag(s, k).value;
        ReadTagShows(s, k, v);
        OneMoreOutput(s, k, v, rest);
        OneMoreOutput(s, k, v, []);
      }
    }
  }

  lemma {:induction false} ReadTagShows(s: Store, k: nat, v: Value)
    requires ReadTag(s, k) == Some(v)
    ensures Shows(s, k, v)
  {
    ReadDenotes(s, Operand(1, 0, 0, k), v);
  }

  /** One turn of the loop over the tags. */
  lemma {:induction false} OutputTurn(s: Store, hal: Hal, k: nat)
    ensures var o := WriteOutputs(s, hal, k);
            && (k >= |s.tags| ==> o == Outputs([], None))
            && (k < |s.tags| && s.tags[k].storage != IS_OUTPUT ==> o == WriteOutputs(s, hal, k + 1))
            && (k < |s.tags| && s.tags[k].storage == IS_OUTPUT ==>
                  match ReadTag(s, k)
                  case None => o.written == [] && o.fault.Some?
                  case Some(v) =>
                    var rest := WriteOutputs(s, hal, k + 1);
                    if hal.output(k, v) then o == Outputs([(k, v)] + rest.written, rest.fault)
                    else o.written == [(k, v)] + [] && o.fault.Some?)
  {
  }

  lemma {:induction false} NoOutputs(s: Store, k: nat)
    ensures ShownOutputs(s, k, []) && (k >= |s.tags| ==> AllOutputs(s, k, []))
  {
  }

  lemma {:induction false} NoOutput(s: Store, k: nat, rest: seq<(nat, Value)>)
    requires k < |s.tags| && s.tags[k].storage != IS_OUTPUT && ShownOutputs(s, k + 1, rest)
    ensures ShownOutputs(s, k, rest) && (AllOutputs(s, k + 1, rest) ==> AllOutputs(s, k, rest))
  {
    hide Shows;
  }

  lemma {:induction false} OneMoreOutput(s: Store, k: nat, v: Value, rest: seq<(nat, Value)>)
    requires k < |s.tags| && s.tags[k].storage == IS_OUTPUT && Shows(s, k, v)
    requires ShownOutputs(s, k + 1, rest) || rest == []
    ensures ShownOutputs(s, k, [(k, v)] + rest)
    ensures AllOutputs(s, k + 1, rest) ==> AllOutputs(s, k, [(k, v)] + rest)
  {
    hide Shows;
    var all := [(k, v)] + rest;
    if AllOutputs(s, k + 1, rest) {
      forall id | k <= id < |s.tags| && s.tags[id].storage == IS_OUTPUT
        ensures exists n :: 0 <= n < |all| && all[n].0 == id
      {
        if id == k {
          assert all[0].0 == id;
        } else {
          var n :| 0 <= n < |rest| && rest[n].0 == id;
          assert all[n + 1].0 == id;
        }
      }
    }
  }

  /** A scan in RUN that answers OK has handed the host every OUTPUT tag once, in ascending order, as it
   *  stands after the rungs; in TEST, or without an output call, none. */
  lemma {:induction false} ScanHandsOutputs(p: Program, reals: RealOps, st: State, hal: Hal)
    requires Shape(p, st) && Scan(p, reals, st, hal).status == OK
    ensures var r := Scan(p, reals, st, hal);
            if st.mode == RUN && hal.writesOutputs then
              ShownOutputs(r.state.store, 0, r.written) && AllOutputs(r.state.store, 0, r.written)
            else r.written == []
  {
    var captured := Capture(st.store, hal, 0);
    var run := Rungs(p, reals, hal.now, captured.store, st.power, 0, 0, st.visible, []);
    OutputsAreShown(run.store, hal, 0);
    hide Capture, Rungs, WriteOutputs, ShownOutputs, AllOutputs;
  }

  // ----- scans and modes -----

  /** A scan does nothing in PROGRAM and FAULTED; one that answers OK leaves mode and fault alone; one
   *  that records a fault ends in FAULTED. */
  lemma {:induction false} ScanModes(p: Program, reals: RealOps, st: State, hal: Hal)
    requires Shape(p, st)
    ensures var r := Scan(p, reals, st, hal);
            && (st.mode == PROGRAM ==> r.status == INVALID_STATE && r.state == st && r.written == [])
            && (st.mode == FAULTED ==> r.status == FAULT_STATUS && r.state == st && r.written == [])
            && (r.status == OK ==>
                  && (st.mode == RUN || st.mode == TEST)
                  && r.state.mode == st.mode && r.state.fault == st.fault && r.state.scans == st.scans + 1)
            && (st.mode == RUN || st.mode == TEST ==> r.state.fault != st.fault ==> r.state.mode == FAULTED)
  {
    hide Capture, Rungs, WriteOutputs;
  }

  /** The only way out of FAULTED leads to PROGRAM; of an accepted program every other change of mode
   *  succeeds. */
  lemma {:induction false} Modes(p: Program, st: State, mode: Mode)
    requires ProgramOk(p) && Invariant(p, st) && CoilsHaveOperands(p.code)
    ensures var r := SetMode(p, st, mode);
            if st.mode == FAULTED && mode != PROGRAM then r == (st, INVALID_STATE)
            else
              && r.1 == OK && r.0.mode == mode && r.0.fault == st.fault && r.0.visible == st.visible
              && r.0.power == st.power
  {
    SetModeIsSound(p, st, mode);
  }

  /** A loaded program waits in PROGRAM, unforced, with all its code visible and nothing recorded. */
  lemma {:induction false} Initially(p: Program, tags: seq<Tag>)
    requires forall k | 0 <= k < |Slots(p.code)| :: 0 <= Slots(p.code)[k] <= UINT32_MAX
    ensures var st := Initial(p, tags);
            && st.mode == PROGRAM && st.fault == None && st.visible == |p.code| && st.scans == 0
            && st.store.tags == tags && (forall k | 0 <= k < |tags| :: st.store.forces[k] == None)
            && (forall k | 0 <= k < |st.store.states| :: !st.store.states[k].valid && !st.store.states[k].edge)
            && (forall k | 0 <= k < |st.power| :: !st.power[k])
  {
  }

  // ----- writes and forces -----

  predicate SameType(d: Data, v: Value) {
    match v
    case BoolV(_) => d.BoolD?
    case DintV(_) => d.DintD?
    case RealV(_) => d.RealD?
  }

  /** A host write stores the value in a tag that exists, is not an INPUT and has its type; otherwise it
   *  says why not and changes nothing. */
  lemma {:induction false} Writes(st: State, id: nat, v: Value)
    ensures var r := WriteTag(st, id, v);
            && r.0 == st.(store := r.0.store)
            && (r.1 == OK <==>
                  id < |st.store.tags| && st.store.tags[id].storage != IS_INPUT && SameType(st.store.tags[id].data, v))
            && (r.1 == OK ==>
                  OnlyTag(st.store, r.0.store, id) && r.0.store.states == st.store.states && Stores(r.0.store, id, v))
            && (r.1 != OK ==> r.0 == st)
            && (r.1 == TAG_NOT_FOUND <==> id >= |st.store.tags|)
            && (r.1 == NOT_WRITABLE <==> id < |st.store.tags| && st.store.tags[id].storage == IS_INPUT)
  {
  }

  /** A force makes the tag show the value and stores nothing. */
  lemma {:induction false} Forces(st: State, id: nat, v: Value)
    ensures var r := ForceTag(st, id, v);
            && r.0 == st.(store := st.store.(forces := r.0.store.forces))
            && (r.1 == OK <==> id < |st.store.tags| && SameType(st.store.tags[id].data, v))
            && (r.1 == OK ==> Shows(r.0.store, id, v))
            && (r.1 == OK ==> forall k | 0 <= k < |st.store.tags|
              && k != id :: r.0.store.forces[k] == st.store.forces[k])
            && (r.1 != OK ==> r.0 == st)
  {
  }

  /** Without its force the tag shows what it stores. */
  lemma {:induction false} ForcesEnd(st: State, id: nat, v: Value)
    requires id < |st.store.tags| && SameType(st.store.tags[id].data, v)
    ensures Shows(ClearForce(st, id).0.store, id, v) <==> Stores(st.store, id, v)
    ensures Shows(ClearAllForces(st).0.store, id, v) <==> Stores(st.store, id, v)
    ensures ClearForce(st, id).0.store.tags == st.store.tags == ClearAllForces(st).0.store.tags
    ensures forall k | 0 <= k < |st.store.tags| && k != id :: ClearForce(st, id).0.store.forces[k] == st.store.forces[k]
  {
  }

  /** The call neither forces the tag nor clears its force. */
  predicate LeavesForce(call: Call, id: nat) {
    match call
    case CallForce(k, _) => k != id
    case CallClearForce(k) => k != id
    case CallClearAll => false
    case _ => true
  }

  lemma {:induction false} ExecuteKeepsForces(c: Context, i: Instr, s: Store, power: bool)
    ensures Execute(c, i, s, power).st.forces == s.forces
  {
  }

  lemma {:induction false} RunKeepsForces(c: Context, code: seq<Instr>, s: Store, power: bool, stop: byte)
    ensures Run(RuntimeMachine(c), code, s, power, stop).st.forces == s.forces
    decreases |code|, 1
  {
    hide Execute;
    var m := RuntimeMachine(c);
    if code == [] || code[0].op == stop {
    } else if code[0].op == OP_BRANCH_BEGIN {
      LanesKeepForces(c, code[1..], s, power, false, 0);
      var o := RunLanes(m, code[1..], s, power, false, 0);
      if o.Done? {
        RunKeepsForces(c, o.rest, o.st, o.power, stop);
      }
    } else if !IsControl(code[0].op) {
      ExecuteKeepsForces(c, code[0], s, power);
      var e := m.exec(code[0], s, power);
      if e.Passed? {
        RunKeepsForces(c, code[1..], e.st, e.power, stop);
      }
    }
  }

  lemma {:induction false} LanesKeepForces(
      c: Context, code: seq<Instr>, s: Store, input: bool, merged: bool, lanes: nat)
    ensures RunLanes(RuntimeMachine(c), code, s, input, merged, lanes).st.forces == s.forces
    decreases |code|, 0
  {
    hide Execute;
    if code != [] && code[0].op == OP_LANE_BEGIN {
      RunKeepsForces(c, code[1..], s, input, OP_LANE_END);
      var o := Run(RuntimeMachine(c), code[1..], s, input, OP_LANE_END);
      if o.Done? {
        LanesKeepForces(c, o.rest[1..], o.st, input, merged || o.power, lanes + 1);
      }
    }
  }

  lemma {:induction false} RungsKeepForces(
      p: Program, reals: RealOps, tick: uint64, s: Store, power: seq<bool>, pos: nat, rung: nat, visible: nat,
      log: seq<seq<Event>>)
    requires pos <= visible <= |p.code| && rung <= |p.counts| == |power|
    ensures Rungs(p, reals, tick, s, power, pos, rung, visible, log).store.forces == s.forces
    decreases |p.counts| - rung, visible - pos
  {
    hide Run;
    if pos < visible && rung < |p.counts| {
      var end := pos + p.counts[rung];
      if end <= visible {
        var c := Context(reals, tick, p.code[..end]);
        RunKeepsForces(c, p.code[pos..end], s, true, 0);
        var o := Run(RuntimeMachine(c), p.code[pos..end], s, true, 0);
        if o.Done? {
          RungsKeepForces(p, reals, tick, o.st, power[rung := o.power], end, rung + 1, visible, log + [o.log]);
        }
      }
    } else if pos < visible {
      RunKeepsForces(Context(reals, tick, p.code[..visible]), p.code[pos..visible], s, true, 0);
    }
  }

  lemma {:induction false} CaptureKeepsForces(s: Store, hal: Hal, k: nat)
    ensures Capture(s, hal, k).store.forces == s.forces && |Capture(s, hal, k).store.tags| == |s.tags|
    decreases |s.tags| - k
  {
    if k < |s.tags| {
      if s.tags[k].storage != 1 || !hal.readsInputs {
        CaptureKeepsForces(s, hal, k + 1);
      } else if hal.input(k).Some? && ValueCode(hal.input(k).value) == TypeCode(s.tags[k].data) {
        CaptureKeepsForces(SetData(s, k, DataOf(hal.input(k).value)), hal, k + 1);
      }
    }
  }

  lemma {:induction false} IdleCodeKeepsForces(s: Store, code: seq<Instr>, prescan: bool)
    requires CoilsHaveOperands(code)
    ensures IdleCode(s, code, prescan).store.forces == s.forces
    decreases |code|
  {
    if code != [] {
      IdleCodeKeepsForces(IdleStep(s, code[0], prescan).store, code[1..], prescan);
    }
  }

  lemma {:induction false} CallKeepsForce(p: Program, reals: RealOps, st: State, call: Call, id: nat)
    requires CoilsHaveOperands(p.code) && Shape(p, st) && id < |st.store.forces| && LeavesForce(call, id)
    ensures var s1 := Apply(p, reals, st, call).0.store; id < |s1.forces| && s1.forces[id] == st.store.forces[id]
  {
    match call
    case CallSetMode(mode) =>
      IdleCodeKeepsForces(Idle(st.store, true), Visible(p, st.visible), true);
      IdleCodeKeepsForces(Idle(st.store, false), Visible(p, st.visible), false);
    case CallPass(prescan) =>
      IdleCodeKeepsForces(Idle(st.store, prescan), Visible(p, st.visible), prescan);
    case CallScan(hal) =>
      CaptureKeepsForces(st.store, hal, 0);
      RungsKeepForces(p, reals, hal.now, Capture(st.store, hal, 0).store, st.power, 0, 0, st.visible, []);
      hide Capture, Rungs, WriteOutputs;
    case _ =>
  }

  /** A force stays in place, whatever else the host calls, until it is replaced or cleared. */
  lemma {:induction false} ForceStays(p: Program, reals: RealOps, st: State, calls: seq<Call>, id: nat)
    requires CoilsHaveOperands(p.code) && Shape(p, st) && id < |st.store.forces|
    requires forall c | c in calls :: LeavesForce(c, id)
    ensures var s1 := Calls(p, reals, st, calls).store; id < |s1.forces| && s1.forces[id] == st.store.forces[id]
    decreases |calls|
  {
    hide Apply;
    if calls != [] {
      ApplyKeepsShape(p, reals, st, calls[0]);
      CallKeepsForce(p, reals, st, calls[0], id);
      ForceStays(p, reals, Apply(p, reals, st, calls[0]).0, calls[1..], id);
    }
  }
}
