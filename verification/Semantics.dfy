/** The runtime's store and the effect of one ordinary instruction on it.
 *
 *  REAL values are opaque bit patterns and their arithmetic is a parameter: every statement
 *  holds for any binary32 implementation. */
module Semantics {
  import opened Bytes
  import opened Instructions
  import opened ControlFlow

  // ----- values and tags -----

  datatype Value = BoolV(b: bool) | DintV(d: int32) | RealV(bits: uint32)

  datatype Data =
    | BoolD(b: bool)
    | DintD(d: int32)
    | RealD(bits: uint32)
    | TimerD(pre: int32, acc: int32, en: bool, tt: bool, dn: bool)
    | CounterD(pre: int32, acc: int32, cu: bool, cd: bool, dn: bool, ov: bool, un: bool)

  /** storage: 0 internal, 1 input, 2 output. */
  datatype Tag = Tag(storage: byte, data: Data)

  /** A state record: the edge memory of a counter, the time base of a timer. */
  datatype StateRecord = StateRecord(slot: uint32, edge: bool, valid: bool, time: uint64)

  datatype RawStore = Store(tags: seq<Tag>, forces: seq<Option<Value>>, states: seq<StateRecord>)

  type Store = s: RawStore | |s.forces| == |s.tags| witness Store([], [], [])

  function TypeCode(d: Data): byte {
    match d
    case BoolD(_) => 1
    case DintD(_) => 2
    case RealD(_) => 3
    case TimerD(_, _, _, _, _) => 4
    case CounterD(_, _, _, _, _, _, _) => 5
  }

  function ValueCode(v: Value): byte {
    match v
    case BoolV(_) => 1
    case DintV(_) => 2
    case RealV(_) => 3
  }

  /** binary32 operations: conversions, arithmetic by opcode, and comparison by opcode of two
   *  numbers at least one of which is REAL (the C code compares them as doubles). */
  datatype RealOps = RealOps(
    ofDint: int32 -> uint32,
    toDint: uint32 -> Option<int32>,
    arith: (byte, uint32, uint32) -> uint32,
    isZero: uint32 -> bool,
    isFinite: uint32 -> bool,
    negate: uint32 -> uint32,
    absolute: uint32 -> uint32,
    compare: (byte, Value, Value) -> bool)

  /** What an instruction sees besides the store: the tick of the scan, and the code that is
   *  visible to RES, from the start of the program to the end of the current rung. */
  datatype Context = Context(reals: RealOps, tick: uint64, visible: seq<Instr>)

  // ----- faults -----

  datatype Category = EXECUTION | NUMERIC | TIMER | COUNTER | HAL | WATCHDOG

  const NO_ID: nat := UINT32_MAX

  datatype FaultRecord = FaultRecord(category: Category, code: nat, id: nat, op: byte, tag: nat)

  // ----- reading and writing -----

  function Scalar(d: Data): Option<Value> {
    match d
    case BoolD(b) => Some(BoolV(b))
    case DintD(v) => Some(DintV(v))
    case RealD(r) => Some(RealV(r))
    case TimerD(_, _, _, _, _) => None
    case CounterD(_, _, _, _, _, _, _) => None
  }

  /** `value`: an enabled force overlays the stored value. */
  function ReadTag(s: Store, id: nat): Option<Value> {
    if id >= |s.tags| || Scalar(s.tags[id].data).None? then None
    else if s.forces[id].Some? then s.forces[id]
    else Scalar(s.tags[id].data)
  }

  /** `rsm_runtime_read_member`. */
  function ReadMember(s: Store, id: nat, member: byte): Option<Value> {
    if id >= |s.tags| then None else
      match s.tags[id].data
      case TimerD(pre, acc, en, tt, dn) =>
        if member == 1 then Some(DintV(pre)) else if member == 2 then Some(DintV(acc))
        else if member == 3 then Some(BoolV(en)) else if member == 4 then Some(BoolV(tt))
        else if member == 5 then Some(BoolV(dn)) else None
      case CounterD(pre, acc, cu, cd, dn, ov, un) =>
        if member == 1 then Some(DintV(pre)) else if member == 2 then Some(DintV(acc))
        else if member == 5 then Some(BoolV(dn)) else if member == 6 then Some(BoolV(cu))
        else if member == 7 then Some(BoolV(cd)) else if member == 8 then Some(BoolV(ov))
        else if member == 9 then Some(BoolV(un)) else None
      case _ => None
  }

  function Low32(raw: nat): uint32 {
    raw % 0x1_0000_0000
  }

  /** `operand`. */
  function Read(s: Store, o: Operand): Option<Value> {
    if o.kind == 1 then
      if o.member != 0 then ReadMember(s, o.raw, o.member) else ReadTag(s, o.raw)
    else if o.typ == 1 then Some(BoolV(o.raw != 0))
    else if o.typ == 2 then Some(DintV(Signed(Low32(o.raw))))
    else if o.typ == 3 then Some(RealV(Low32(o.raw)))
    else None
  }

  function DataOf(v: Value): Data {
    match v
    case BoolV(b) => BoolD(b)
    case DintV(d) => DintD(d)
    case RealV(r) => RealD(r)
  }

  function SetData(s: Store, id: nat, d: Data): Store
    requires id < |s.tags|
  {
    s.(tags := s.tags[id := s.tags[id].(data := d)])
  }

  /** `put`: the stored value changes; a force stays on top of it. */
  function Put(s: Store, id: nat, v: Value): Option<Store> {
    if id >= |s.tags| || s.tags[id].storage == 1 || TypeCode(s.tags[id].data) != ValueCode(v) then None
    else Some(SetData(s, id, DataOf(v)))
  }

  /** `destination`. */
  function Write(s: Store, o: Operand, v: Value): Option<Store> {
    if o.kind != 1 || o.member != 0 then None else Put(s, o.raw, v)
  }

  /** The index of a state record, or the number of records. */
  function SlotIndex(states: seq<StateRecord>, slot: int): nat {
    if states == [] then 0 else if states[0].slot == slot then 0 else 1 + SlotIndex(states[1..], slot)
  }

  lemma {:induction false} SlotIndexFinds(states: seq<StateRecord>, slot: int)
    ensures SlotIndex(states, slot) <= |states|
    ensures SlotIndex(states, slot) < |states| ==> states[SlotIndex(states, slot)].slot == slot
    ensures forall k | 0 <= k < SlotIndex(states, slot) && k < |states| :: states[k].slot != slot
  {
    if states != [] && states[0].slot != slot {
      SlotIndexFinds(states[1..], slot);
      assert forall k | 1 <= k < |states| :: states[k] == states[1..][k - 1];
    }
  }

  // ----- the instructions -----

  function Fail(s: Store, c: Category, code: nat, i: Instr, tag: nat): Effect<Store, FaultRecord> {
    Failed(s, FaultRecord(c, code, i.id, i.op, tag))
  }

  function Written(s: Store, r: Option<Store>, power: bool, code: nat, i: Instr, tag: nat): Effect<Store, FaultRecord> {
    match r
    case None => Fail(s, EXECUTION, code, i, tag)
    case Some(s1) => Passed(s1, power)
  }

  function ExecContact(i: Instr, s: Store, power: bool, x: Value): Effect<Store, FaultRecord>
    requires |i.args| > 0
  {
    if |i.args| != 1 then Fail(s, EXECUTION, 2, i, NO_ID)
    else if !x.BoolV? then Fail(s, EXECUTION, 3, i, i.args[0].raw)
    else Passed(s, power && (if i.op == OP_XIC then x.b else !x.b))
  }

  function ExecCoil(i: Instr, s: Store, power: bool): Effect<Store, FaultRecord> {
    if |i.args| != 1 then Fail(s, EXECUTION, 2, i, NO_ID)
    else
      var a := i.args[0];
      if i.op == OP_OTE then Written(s, Write(s, a, BoolV(power)), power, 4, i, a.raw)
      else if power then Written(s, Write(s, a, BoolV(i.op == OP_OTL)), power, 4, i, a.raw)
      else Passed(s, power)
  }

  function ExecOneShot(i: Instr, s: Store, power: bool, x: Value): Effect<Store, FaultRecord> {
    if |i.args| != 1 then Fail(s, EXECUTION, 2, i, NO_ID)
    else
      var a := i.args[0];
      if a.kind != 1 || a.typ != 1 || a.member != 0 then Fail(s, EXECUTION, 5, i, NO_ID)
      else Written(s, Write(s, a, BoolV(power)), power && !(x.BoolV? && x.b), 5, i, a.raw)
  }

  /** Elapsed time in milliseconds since the time base; the tick counter wraps at 64 bits. */
  function Elapsed(st: StateRecord, tick: uint64): nat {
    if st.valid then (tick - st.time) % 0x1_0000_0000_0000_0000 / 1000 else 0
  }

  function TimerOn(t: Data, ms: nat): Data
    requires t.TimerD?
  {
    var acc: int32 := if ms > INT32_MAX - t.acc then INT32_MAX else t.acc + ms;
    var dn := acc >= t.pre;
    TimerD(t.pre, acc, true, !dn, dn)
  }

  function TimerOff(t: Data): Data
    requires t.TimerD?
  {
    TimerD(t.pre, 0, false, false, false)
  }

  function ExecTimer(c: Context, i: Instr, s: Store, power: bool): Effect<Store, FaultRecord> {
    if |i.args| != 1 then Fail(s, EXECUTION, 2, i, NO_ID)
    else
      var a := i.args[0];
      if a.kind != 1 || a.raw >= |s.tags| || !s.tags[a.raw].data.TimerD? then Fail(s, TIMER, 1, i, a.raw)
      else
        var k := SlotIndex(s.states, i.slot);
        if k >= |s.states| then Fail(s, TIMER, 2, i, a.raw)
        else
          var t := s.tags[a.raw].data;
          if t.pre < 0 then Fail(s, TIMER, 3, i, a.raw)
          else if power then
            Passed(SetData(s, a.raw, TimerOn(t, Elapsed(s.states[k], c.tick)))
                   .(states := s.states[k := s.states[k].(valid := true, time := c.tick)]), power)
          else
            Passed(SetData(s, a.raw, TimerOff(t)).(states := s.states[k := s.states[k].(valid := false)]), power)
  }

  function CountUp(t: Data, power: bool, rise: bool): Data
    requires t.CounterD?
  {
    var wrap := rise && t.acc == INT32_MAX;
    var acc: int32 := if wrap then INT32_MIN else if rise then t.acc + 1 else t.acc;
    CounterD(t.pre, acc, power, t.cd, acc >= t.pre, t.ov || wrap, t.un)
  }

  function CountDown(t: Data, power: bool, rise: bool): Data
    requires t.CounterD?
  {
    var wrap := rise && t.acc == INT32_MIN;
    var acc: int32 := if wrap then INT32_MAX else if rise then t.acc - 1 else t.acc;
    CounterD(t.pre, acc, t.cu, power, acc >= t.pre, t.ov, t.un || wrap)
  }

  function ExecCounter(i: Instr, s: Store, power: bool): Effect<Store, FaultRecord> {
    if |i.args| != 1 then Fail(s, EXECUTION, 2, i, NO_ID)
    else
      var a := i.args[0];
      if a.kind != 1 || a.raw >= |s.tags| || !s.tags[a.raw].data.CounterD? then Fail(s, COUNTER, 1, i, a.raw)
      else
        var k := SlotIndex(s.states, i.slot);
        if k >= |s.states| then Fail(s, COUNTER, 2, i, a.raw)
        else
          var rise := power && !s.states[k].edge;
          var t := s.tags[a.raw].data;
          var t1 := if i.op == OP_CTU then CountUp(t, power, rise) else CountDown(t, power, rise);
          Passed(SetData(s, a.raw, t1).(states := s.states[k := s.states[k].(edge := power)]), power)
  }

  function ResetData(d: Data): Data {
    match d
    case TimerD(pre, _, _, _, _) => TimerD(pre, 0, false, false, false)
    case CounterD(pre, _, _, _, _, _, _) => CounterD(pre, 0, false, false, false, false, false)
    case _ => d
  }

  /** The instruction drives the tag from a state slot: RES clears that slot with the tag. */
  predicate Drives(i: Instr, tag: nat) {
    IsStateful(i.op) && |i.args| == 1 && i.args[0].raw == tag
  }

  predicate SlotOf(visible: seq<Instr>, tag: nat, slot: int) {
    exists i | i in visible :: Drives(i, tag) && SlotNumber(i) == slot
  }

  /** `(uint32_t)slot`. */
  function SlotNumber(i: Instr): int {
    if i.slot < 0 then i.slot + 0x1_0000_0000 else i.slot
  }

  function ResetStates(states: seq<StateRecord>, visible: seq<Instr>, tag: nat): seq<StateRecord> {
    seq(|states|, k requires 0 <= k < |states| =>
      if SlotOf(visible, tag, states[k].slot) then StateRecord(states[k].slot, false, false, 0) else states[k])
  }

  function ExecReset(c: Context, i: Instr, s: Store, power: bool): Effect<Store, FaultRecord> {
    if |i.args| != 1 then Fail(s, EXECUTION, 2, i, NO_ID)
    else if !power then Passed(s, power)
    else
      var a := i.args[0];
      if a.kind != 1 || a.raw >= |s.tags| then Fail(s, EXECUTION, 6, i, a.raw)
      else if !s.tags[a.raw].data.TimerD? && !s.tags[a.raw].data.CounterD? then Fail(s, EXECUTION, 7, i, a.raw)
      else Passed(SetData(s, a.raw, ResetData(s.tags[a.raw].data)).(states := ResetStates(s.states, c.visible,
        a.raw)), power)
  }

  predicate Numeric(v: Value) {
    v.DintV? || v.RealV?
  }

  function Compare(reals: RealOps, op: byte, x: Value, y: Value): bool {
    if x.DintV? && y.DintV? then
      if op == OP_EQ then x.d == y.d else if op == OP_NE then x.d != y.d
      else if op == OP_GT then x.d > y.d else if op == OP_GE then x.d >= y.d
      else if op == OP_LT then x.d < y.d else x.d <= y.d
    else reals.compare(op, x, y)
  }

  function ExecCompare(c: Context, i: Instr, s: Store, power: bool, x: Value): Effect<Store, FaultRecord> {
    if |i.args| != 2 then Fail(s, EXECUTION, 2, i, NO_ID)
    else
      match Read(s, i.args[1])
      case None => Fail(s, EXECUTION, 8, i, NO_ID)
      case Some(y) =>
        if !Numeric(x) || !Numeric(y) then Fail(s, EXECUTION, 8, i, NO_ID)
        else Passed(s, power && Compare(c.reals, i.op, x, y))
  }

  function Zero(d: Data): Option<Value> {
    match d
    case BoolD(_) => Some(BoolV(false))
    case DintD(_) => Some(DintV(0))
    case RealD(_) => Some(RealV(0))
    case _ => None
  }

  function ExecClear(i: Instr, s: Store, power: bool): Effect<Store, FaultRecord> {
    if |i.args| != 1 then Fail(s, EXECUTION, 2, i, NO_ID)
    else if !power then Passed(s, power)
    else
      var a := i.args[0];
      if a.raw >= |s.tags| then Fail(s, EXECUTION, 9, i, a.raw)
      else
        match Zero(s.tags[a.raw].data)
        case None => Fail(s, EXECUTION, 9, i, a.raw)
        case Some(z) => Written(s, Write(s, a, z), power, 10, i, a.raw)
  }

  /** The value as the destination's type, or None where the conversion faults. */
  function Convert(reals: RealOps, d: Data, x: Value): Option<Value> {
    if TypeCode(d) == ValueCode(x) then Some(x)
    else if d.RealD? && x.DintV? then Some(RealV(reals.ofDint(x.d)))
    else if d.DintD? && x.RealV? then
      (match reals.toDint(x.bits)
       case None => None
       case Some(v) => Some(DintV(v)))
    else None
  }

  function ExecMove(c: Context, i: Instr, s: Store, power: bool, x: Value): Effect<Store, FaultRecord> {
    if |i.args| != 2 then Fail(s, EXECUTION, 2, i, NO_ID)
    else if !power then Passed(s, power)
    else
      var b := i.args[1];
      if b.kind != 1 || b.raw >= |s.tags| then Fail(s, EXECUTION, 11, i, NO_ID)
      else
        match Convert(c.reals, s.tags[b.raw].data, x)
        case None => Fail(s, NUMERIC, 1, i, b.raw)
        case Some(z) => Written(s, Write(s, b, z), power, 12, i, b.raw)
  }

  /** C division: the quotient rounds toward zero. */
  function Quotient(x: int, y: int): int
    requires y != 0
  {
    var q := (if x < 0 then -x else x) / (if y < 0 then -y else y);
    if (x < 0) == (y < 0) then q else -q
  }

  datatype Computed = Answer(v: Value) | NumericFault(code: nat) | TypeFault

  function DintMath(op: byte, x: int32, y: int32): Computed {
    if op == OP_DIV && y == 0 then NumericFault(2)
    else
      var q: int := if op == OP_DIV then Quotient(x, y) else if op == OP_ADD then x + y else if op
          == OP_SUB then x - y else x * y;
      if INT32_MIN <= q <= INT32_MAX then Answer(DintV(q)) else NumericFault(3)
  }

  /** `(float)number(v)`. */
  function ToReal(reals: RealOps, v: Value): uint32 {
    match v
    case DintV(d) => reals.ofDint(d)
    case RealV(r) => r
    case BoolV(_) => 0
  }

  function RealMath(reals: RealOps, op: byte, x: uint32, y: uint32): Computed {
    if op == OP_DIV && reals.isZero(y) then NumericFault(2)
    else
      var q := reals.arith(op, x, y);
      if reals.isFinite(q) then Answer(RealV(q)) else NumericFault(3)
  }

  function Math(reals: RealOps, op: byte, d: Data, x: Value, y: Value): Computed {
    if d.DintD? && x.DintV? && y.DintV? then DintMath(op, x.d, y.d)
    else if d.RealD? then RealMath(reals, op, ToReal(reals, x), ToReal(reals, y))
    else TypeFault
  }

  function ExecMath(c: Context, i: Instr, s: Store, power: bool, x: Value): Effect<Store, FaultRecord> {
    if |i.args| != 3 then Fail(s, EXECUTION, 2, i, NO_ID)
    else if !power then Passed(s, power)
    else
      var d := i.args[2];
      match Read(s, i.args[1])
      case None => Fail(s, EXECUTION, 13, i, NO_ID)
      case Some(y) =>
        if !Numeric(x) || !Numeric(y) || d.kind != 1 || d.raw >= |s.tags| then Fail(s, EXECUTION, 13, i, NO_ID)
        else
          match Math(c.reals, i.op, s.tags[d.raw].data, x, y)
          case NumericFault(code) => Fail(s, NUMERIC, code, i, d.raw)
          case TypeFault => Fail(s, EXECUTION, 14, i, d.raw)
          case Answer(z) => Written(s, Write(s, d, z), power, 15, i, d.raw)
  }

  function Unary(reals: RealOps, op: byte, d: Data, x: Value): Computed {
    if d.DintD? && x.DintV? then
      if x.d == INT32_MIN then NumericFault(3)
      else Answer(DintV(if op == OP_NEG || x.d < 0 then -x.d else x.d))
    else if d.RealD? && Numeric(x) then
      var r := ToReal(reals, x);
      Answer(RealV(if op == OP_NEG then reals.negate(r) else reals.absolute(r)))
    else TypeFault
  }

  function ExecUnary(c: Context, i: Instr, s: Store, power: bool, x: Value): Effect<Store, FaultRecord> {
    if |i.args| != 2 then Fail(s, EXECUTION, 2, i, NO_ID)
    else if !power then Passed(s, power)
    else
      var b := i.args[1];
      if b.kind != 1 || b.raw >= |s.tags| then Fail(s, EXECUTION, 16, i, NO_ID)
      else
        match Unary(c.reals, i.op, s.tags[b.raw].data, x)
        case NumericFault(code) => Fail(s, NUMERIC, code, i, b.raw)
        case TypeFault => Fail(s, EXECUTION, 17, i, NO_ID)
        case Answer(z) => Written(s, Write(s, b, z), power, 18, i, b.raw)
  }

  /** `execute`. */
  function Execute(c: Context, i: Instr, s: Store, power: bool): Effect<Store, FaultRecord> {
    if i.op == OP_TON then ExecTimer(c, i, s, power)
    else if i.op == OP_CTU || i.op == OP_CTD then ExecCounter(i, s, power)
    else if i.op == OP_RES then ExecReset(c, i, s, power)
    else if i.args == [] then
      if KnownOrdinary(i.op) then Fail(s, EXECUTION, 2, i, NO_ID) else Fail(s, EXECUTION, 19, i, NO_ID)
    else
      match Read(s, i.args[0])
      case None => Fail(s, EXECUTION, 1, i, i.args[0].raw)
      case Some(x) => ExecRead(c, i, s, power, x)
  }

  /** The instructions that read their first operand before anything else. */
  function ExecRead(c: Context, i: Instr, s: Store, power: bool, x: Value): Effect<Store, FaultRecord>
    requires i.args != []
  {
    if i.op == OP_XIC || i.op == OP_XIO then ExecContact(i, s, power, x)
    else if OP_OTE <= i.op <= OP_OTU then ExecCoil(i, s, power)
    else if i.op == OP_ONS then ExecOneShot(i, s, power, x)
    else if OP_EQ <= i.op <= OP_LE then ExecCompare(c, i, s, power, x)
    else if i.op == OP_CLR then ExecClear(i, s, power)
    else if i.op == OP_MOV then ExecMove(c, i, s, power, x)
    else if OP_ADD <= i.op <= OP_DIV then ExecMath(c, i, s, power, x)
    else if i.op == OP_NEG || i.op == OP_ABS then ExecUnary(c, i, s, power, x)
    else Fail(s, EXECUTION, 19, i, NO_ID)
  }

  predicate KnownOrdinary(op: byte) {
    OP_XIC <= op <= OP_ONS || OP_TON <= op <= OP_RES || OP_EQ <= op <= OP_LE || OP_MOV <= op <= OP_ABS
  }

  function BranchFault(op: byte): FaultRecord {
    FaultRecord(EXECUTION, 20, NO_ID, op, NO_ID)
  }

  /** The interpreter instantiated with these instructions. */
  function RuntimeMachine(c: Context): Interpreter<Store, FaultRecord> {
    Interpreter((i: Instr, s: Store, power: bool) => Execute(c, i, s, power), BranchFault)
  }
}
