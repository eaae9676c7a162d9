/** The loaded runtime as a state machine over its host calls: the specification the Runtime class
 *  is proved against. */
module Machine {
  import opened Bytes
  import opened Instructions
  import opened ControlFlow
  import opened Brackets
  import opened Admission
  import opened Semantics

  /** A loaded program: the tag declarations, the code, and the instruction count of each rung. */
  datatype Program = Program(decls: seq<Decl>, code: seq<Instr>, counts: seq<nat>)

  datatype Mode = PROGRAM | RUN | TEST | FAULTED

  /** visible counts the instructions inside `code_size`; a fault inside a rung leaves it there. */
  datatype State = State(store: Store, power: seq<bool>, visible: nat, mode: Mode, fault: Option<FaultRecord>,
    scans: nat)

  /** The host's answers during one scan. An input of None is a failing call. */
  datatype Hal = Hal(
    now: uint64,
    readsInputs: bool, input: nat -> Option<Value>,
    writesOutputs: bool, output: (nat, Value) -> bool,
    kicksWatchdog: bool, watchdog: bool)

  datatype Status = OK | INVALID_STATE | NOT_WRITABLE | TAG_NOT_FOUND | TYPE_MISMATCH | FAULT_STATUS

  // ----- loading -----

  /** One zeroed state record per slot, in stream order. */
  function FreshStates(slots: seq<int>): seq<StateRecord>
    requires forall k | 0 <= k < |slots| :: 0 <= slots[k] <= UINT32_MAX
  {
    seq(|slots|, k requires 0 <= k < |slots| => StateRecord(slots[k], false, false, 0))
  }

  /** The state `rsm_runtime_load_image` builds from the tag table and the code. */
  function Initial(p: Program, tags: seq<Tag>): State
    requires forall k | 0 <= k < |Slots(p.code)| :: 0 <= Slots(p.code)[k] <= UINT32_MAX
  {
    State(Store(tags, seq(|tags|, _ => None), FreshStates(Slots(p.code))), seq(|p.counts|, _ => false), |p.code|,
      PROGRAM, None, 0)
  }

  // ----- input capture -----

  datatype Captured = Captured(store: Store, fault: Option<FaultRecord>)

  function HalFault(code: nat, tag: nat): FaultRecord {
    FaultRecord(HAL, code, NO_ID, 0, tag)
  }

  /** Inputs are read once, in tag order, from tag k on. */
  function Capture(s: Store, hal: Hal, k: nat): Captured
    decreases |s.tags| - k
  {
    if k >= |s.tags| then Captured(s, None)
    else if s.tags[k].storage != 1 || !hal.readsInputs then Capture(s, hal, k + 1)
    else
      match hal.input(k)
      case None => Captured(s, Some(HalFault(1, k)))
      case Some(v) =>
        if ValueCode(v) != TypeCode(s.tags[k].data) then Captured(s, Some(HalFault(2, k)))
        else Capture(SetData(s, k, DataOf(v)), hal, k + 1)
  }

  // ----- the rungs -----

  /** fault None with finished false is a run that left a lane at the end of the code: the scan
   *  answers FAULTED and records nothing. */
  datatype Scanned = Scanned(store: Store, power: seq<bool>, visible: nat, finished: bool, fault: Option<FaultRecord>,
    log: seq<seq<Event>>)

  /** The code up to a position. */
  function Visible(p: Program, n: nat): seq<Instr>
  {
    if n <= |p.code| then p.code[..n] else p.code
  }

  function Rungs(
      p: Program, reals: RealOps, tick: uint64, s: Store, power: seq<bool>, pos: nat, rung: nat, visible: nat,
      log: seq<seq<Event>>): Scanned
    requires pos <= visible <= |p.code| && rung <= |p.counts| == |power|
    decreases |p.counts| - rung, visible - pos
  {
    if pos == visible then Scanned(s, power, visible, true, None, log)
    else if rung < |p.counts| then
      var end := pos + p.counts[rung];
      if end > visible then
        Scanned(s, power, visible, false, Some(FaultRecord(EXECUTION, 21, NO_ID, 0, NO_ID)), log)
      else
        match Run(RuntimeMachine(Context(reals, tick, p.code[..end])), p.code[pos..end], s, true, 0)
        case Done(s1, out, _, events) =>
          Rungs(p, reals, tick, s1, power[rung := out], end, rung + 1, visible, log + [events])
        case Faulted(s1, f) => Scanned(s1, power, end, false, Some(f), log)
        case RanOff(s1) => Scanned(s1, power, end, false, None, log)
    else
      match Run(RuntimeMachine(Context(reals, tick, p.code[..visible])), p.code[pos..visible], s, true, 0)
      case Done(s1, out, _, events) =>
        Scanned(s1, if rung > 0 then power[rung - 1 := out] else power, visible, true, None, log + [events])
      case Faulted(s1, f) => Scanned(s1, power, visible, false, Some(f), log)
      case RanOff(s1) => Scanned(s1, power, visible, false, None, log)
  }

  // ----- outputs -----

  /** written lists the outputs handed to the host, in tag order. */
  datatype Outputs = Outputs(written: seq<(nat, Value)>, fault: Option<FaultRecord>)

  function WriteOutputs(s: Store, hal: Hal, k: nat): Outputs
    decreases |s.tags| - k
  {
    if k >= |s.tags| then Outputs([], None)
    else if s.tags[k].storage != 2 then WriteOutputs(s, hal, k + 1)
    else
      match ReadTag(s, k)
      case None => Outputs([], Some(HalFault(3, k)))
      case Some(v) =>
        if !hal.output(k, v) then Outputs([(k, v)], Some(HalFault(3, k)))
        else
          var rest := WriteOutputs(s, hal, k + 1);
          Outputs([(k, v)] + rest.written, rest.fault)
  }

  // ----- a scan -----

  /** What a scan did: the new state, the answer, the executed instructions of each finished rung
   *  and the outputs written. */
  datatype ScanResult = ScanResult(state: State, status: Status, log: seq<seq<Event>>, written: seq<(nat, Value)>)

  function Halt(st: State, f: FaultRecord): State {
    st.(mode := FAULTED, fault := Some(f))
  }

  /** `rsm_runtime_scan`. */
  function Scan(p: Program, reals: RealOps, st: State, hal: Hal): ScanResult
    requires st.visible <= |p.code| && |st.power| == |p.counts|
  {
    if st.mode == FAULTED then ScanResult(st, FAULT_STATUS, [], [])
    else if st.mode == PROGRAM then ScanResult(st, INVALID_STATE, [], [])
    else
      var captured := Capture(st.store, hal, 0);
      var st1 := st.(store := captured.store);
      match captured.fault
      case Some(f) => ScanResult(Halt(st1, f), FAULT_STATUS, [], [])
      case None =>
        var r := Rungs(p, reals, hal.now, captured.store, st.power, 0, 0, st.visible, []);
        var st2 := st1.(store := r.store, power := r.power, visible := r.visible);
        if !r.finished then
          ScanResult(match r.fault case None => st2 case Some(f) => Halt(st2, f), FAULT_STATUS, r.log, [])
        else
          var outs := if st.mode == RUN && hal.writesOutputs then WriteOutputs(r.store, hal, 0) else Outputs([], None);
          match outs.fault
          case Some(f) => ScanResult(Halt(st2, f), FAULT_STATUS, r.log, outs.written)
          case None =>
            var st3 := st2.(scans := st.scans + 1);
            if hal.kicksWatchdog && !hal.watchdog then
              ScanResult(Halt(st3, FaultRecord(WATCHDOG, 1, NO_ID, 0, NO_ID)), FAULT_STATUS, r.log, outs.written)
            else
              ScanResult(st3, OK, r.log, outs.written)
  }

  // ----- mode changes -----

  datatype Lifecycle = Lifecycle(store: Store, ok: bool)

  function IdleState(r: StateRecord, prescan: bool): StateRecord {
    StateRecord(r.slot, prescan, false, r.time)
  }

  function IdleData(d: Data): Data {
    match d
    case TimerD(pre, _, _, _, _) => TimerD(pre, 0, false, false, false)
    case CounterD(pre, acc, _, _, dn, ov, un) => CounterD(pre, acc, false, false, dn, ov, un)
    case _ => d
  }

  /** Timers and counters at rest, the edge memories set as for a true rung before a prescan. */
  function Idle(s: Store, prescan: bool): Store {
    Store(seq(|s.tags|, k requires 0 <= k < |s.tags| => Tag(s.tags[k].storage, IdleData(s.tags[k].data))),
          s.forces,
          seq(|s.states|, k requires 0 <= k < |s.states| => IdleState(s.states[k], prescan)))
  }

  /** What the lifecycle pass writes for one instruction: coils off, and one-shot storage on before
   *  the first scan, so that a rung that is already true gives no pulse. */
  function IdleWrite(i: Instr, prescan: bool): Option<Value> {
    if i.op == OP_OTE then Some(BoolV(false))
    else if prescan && i.op == OP_ONS then Some(BoolV(true))
    else None
  }

  function IdleStep(s: Store, i: Instr, prescan: bool): Lifecycle
    requires (i.op == OP_OTE || i.op == OP_ONS) ==> i.args != []
  {
    match IdleWrite(i, prescan)
    case None => Lifecycle(s, true)
    case Some(v) =>
      match Write(s, i.args[0], v)
      case None => Lifecycle(s, false)
      case Some(s1) => Lifecycle(s1, true)
  }

  function IdleCode(s: Store, code: seq<Instr>, prescan: bool): Lifecycle
    requires CoilsHaveOperands(code)
    decreases |code|
  {
    if code == [] then Lifecycle(s, true)
    else
      var l := IdleStep(s, code[0], prescan);
      if l.ok then IdleCode(l.store, code[1..], prescan) else l
  }

  lemma {:induction false} IdleTurn(s: Store, code: seq<Instr>, prescan: bool)
    requires CoilsHaveOperands(code) && code != []
    ensures CoilsHaveOperands(code[1..]) && ((code[0].op == OP_OTE || code[0].op == OP_ONS) ==> code[0].args != [])
    ensures var l := IdleStep(s, code[0], prescan);
            IdleCode(s, code, prescan) == if l.ok then IdleCode(l.store, code[1..], prescan) else l
  {
  }

  predicate CoilsHaveOperands(code: seq<Instr>) {
    forall i | i in code && (i.op == OP_OTE || i.op == OP_ONS) :: i.args != []
  }

  lemma {:induction false} IdleCodeKeepsStates(s: Store, code: seq<Instr>, prescan: bool)
    requires CoilsHaveOperands(code)
    ensures IdleCode(s, code, prescan).store.states == s.states
    decreases |code|
  {
    if code != [] {
      var v := IdleWrite(code[0], prescan);
      if v.None? {
        IdleCodeKeepsStates(s, code[1..], prescan);
      } else if Write(s, code[0].args[0], v.value).Some? {
        IdleCodeKeepsStates(Write(s, code[0].args[0], v.value).value, code[1..], prescan);
      }
    }
  }

  /** `lifecycle_outputs`. */
  function LifecycleOutputs(p: Program, st: State, prescan: bool): Lifecycle
    requires CoilsHaveOperands(p.code)
  {
    IdleCode(Idle(st.store, prescan), Visible(p, st.visible), prescan)
  }

  /** `rsm_runtime_set_mode`. */
  function SetMode(p: Program, st: State, mode: Mode): (State, Status)
    requires CoilsHaveOperands(p.code)
  {
    var starts := (mode == RUN || mode == TEST) && st.mode == PROGRAM;
    var stops := mode == PROGRAM && (st.mode == RUN || st.mode == TEST);
    if st.mode == FAULTED && mode != PROGRAM then (st, INVALID_STATE)
    else if starts || stops then
      var l := LifecycleOutputs(p, st, starts);
      if l.ok then (st.(store := l.store, mode := mode), OK) else (st.(store := l.store), NOT_WRITABLE)
    else (st.(mode := mode), OK)
  }

  /** `rsm_runtime_prescan` and `rsm_runtime_postscan`: the lifecycle pass without a mode change. */
  function Pass(p: Program, st: State, prescan: bool): (State, Status)
    requires CoilsHaveOperands(p.code)
  {
    var l := LifecycleOutputs(p, st, prescan);
    (st.(store := l.store), if l.ok then OK else NOT_WRITABLE)
  }

  // ----- host access to tags -----

  /** `rsm_runtime_write_tag`. */
  function WriteTag(st: State, id: nat, v: Value): (State, Status) {
    match Put(st.store, id, v)
    case Some(s) => (st.(store := s), OK)
    case None =>
      if id >= |st.store.tags| then (st, TAG_NOT_FOUND)
      else if st.store.tags[id].storage == 1 then (st, NOT_WRITABLE)
      else (st, TYPE_MISMATCH)
  }

  function SetForce(s: Store, id: nat, v: Option<Value>): Store
    requires id < |s.forces|
  {
    s.(forces := s.forces[id := v])
  }

  /** `rsm_runtime_force_tag`. */
  function ForceTag(st: State, id: nat, v: Value): (State, Status) {
    if id >= |st.store.tags| then (st, TAG_NOT_FOUND)
    else if ValueCode(v) != TypeCode(st.store.tags[id].data) then (st, TYPE_MISMATCH)
    else (st.(store := SetForce(st.store, id, Some(v))), OK)
  }

  /** `rsm_runtime_clear_force`. */
  function ClearForce(st: State, id: nat): (State, Status) {
    if id >= |st.store.tags| then (st, TAG_NOT_FOUND)
    else (st.(store := SetForce(st.store, id, None)), OK)
  }

  /** `rsm_runtime_clear_all_forces`. */
  function ClearAllForces(st: State): (State, Status) {
    (st.(store := st.store.(forces := seq(|st.store.forces|, _ => None))), OK)
  }

  // ----- runs of host calls -----

  datatype Call =
    | CallSetMode(mode: Mode)
    | CallPass(prescan: bool)
    | CallScan(hal: Hal)
    | CallWrite(id: nat, v: Value)
    | CallForce(id: nat, v: Value)
    | CallClearForce(id: nat)
    | CallClearAll

  function Apply(p: Program, reals: RealOps, st: State, call: Call): (r: (State, Status))
    requires CoilsHaveOperands(p.code) && st.visible <= |p.code| && |st.power| == |p.counts|
  {
    match call
    case CallSetMode(mode) => SetMode(p, st, mode)
    case CallPass(prescan) => Pass(p, st, prescan)
    case CallScan(hal) => var r := Scan(p, reals, st, hal); (r.state, r.status)
    case CallWrite(id, v) => WriteTag(st, id, v)
    case CallForce(id, v) => ForceTag(st, id, v)
    case CallClearForce(id) => ClearForce(st, id)
    case CallClearAll => ClearAllForces(st)
  }

  /** The scan keeps the shape of the state. */
  lemma {:induction false} RungsKeepShape(
      p: Program, reals: RealOps, tick: uint64, s: Store, power: seq<bool>, pos: nat, rung: nat, visible: nat,
      log: seq<seq<Event>>)
    requires pos <= visible <= |p.code| && rung <= |p.counts| == |power|
    ensures var r := Rungs(p, reals, tick, s, power, pos, rung, visible, log);
            r.visible <= visible && |r.power| == |p.counts| && (r.finished ==> r.visible == visible)
    decreases |p.counts| - rung, visible - pos
  {
    if pos < visible && rung < |p.counts| {
      var end := pos + p.counts[rung];
      if end <= visible {
        var o := Run(RuntimeMachine(Context(reals, tick, p.code[..end])), p.code[pos..end], s, true, 0);
        if o.Done? {
          RungsKeepShape(p, reals, tick, o.st, power[rung := o.power], end, rung + 1, visible, log + [o.log]);
        }
      }
    }
  }

  /** The states a runtime that holds the program can be in, as far as their shape goes. */
  predicate Shape(p: Program, st: State) {
    st.visible <= |p.code| && |st.power| == |p.counts|
  }

  lemma {:induction false} ApplyKeepsShape(p: Program, reals: RealOps, st: State, call: Call)
    requires CoilsHaveOperands(p.code) && Shape(p, st)
    ensures Shape(p, Apply(p, reals, st, call).0)
  {
    match call
    case CallScan(hal) =>
      var captured := Capture(st.store, hal, 0);
      RungsKeepShape(p, reals, hal.now, captured.store, st.power, 0, 0, st.visible, []);
    case _ =>
  }

  function Calls(p: Program, reals: RealOps, st: State, calls: seq<Call>): (r: State)
    requires CoilsHaveOperands(p.code) && Shape(p, st)
    ensures Shape(p, r)
    decreases |calls|
  {
    if calls == [] then st
    else
      ApplyKeepsShape(p, reals, st, calls[0]);
      Calls(p, reals, Apply(p, reals, st, calls[0]).0, calls[1..])
  }
}
