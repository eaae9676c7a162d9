/** The C runtime as an object: byte code read through offsets, tag, force and state arrays
 *  updated in place. Every method is proved against the specification on stores. */
module Runtime {
  import opened Bytes
  import opened Instructions
  import opened ControlFlow
  import opened Brackets
  import opened Admission
  import opened Semantics
  import opened Machine

  /** A method's result against the specified effect: f is the fault it recorded, if any. */
  ghost predicate Matches(e: Effect<Store, FaultRecord>, f: Option<FaultRecord>, out: bool, after: Store) {
    match e
    case Passed(st, p) => f == None && out == p && after == st
    case Failed(st, g) => f == Some(g) && after == st
  }

  class Runtime {
    const reals: RealOps
    const code: seq<byte>
    const rungCounts: seq<nat>
    const tag: array<Tag>
    const force: array<Option<Value>>
    const state: array<StateRecord>
    const rungPower: array<bool>
    var codeSize: nat
    var mode: Mode
    var fault: Option<FaultRecord>
    var scans: nat

    /** The program the bytes spell, and how many of its instructions lie inside codeSize. */
    ghost const program: Program
    ghost var visible: nat

    /** What loading an accepted image establishes once and for all. */
    ghost predicate Loaded() {
      && Parse(code) == Some(program.code)
      && rungCounts == program.counts
      && rungPower.Length == |rungCounts|
      && NoEndMarker(program.code)
      && CoilsHaveOperands(program.code)
      && forall i | i in program.code && IsControl(i.op) :: i.args == []
    }

    ghost predicate Valid()
      reads this`codeSize, this`visible, state
    {
      && Loaded()
      && force.Length == tag.Length
      && visible <= |program.code|
      && codeSize == Sizes(program.code[..visible])
      && Sorted()
    }

    ghost predicate Sorted()
      reads state
    {
      forall j, k | 0 <= j < k < state.Length :: state[j].slot < state[k].slot
    }

    ghost function Contents(): Store
      requires force.Length == tag.Length
      reads tag, force, state
    {
      Store(tag[..], force[..], state[..])
    }

    /** The abstract state of the machine specification. */
    ghost function Abstract(): State
      requires force.Length == tag.Length
      reads this, tag, force, state, rungPower
    {
      State(Contents(), rungPower[..], visible, mode, fault, scans)
    }

    /** The code inside codeSize. */
    ghost function Seen(): seq<Instr>
      requires visible <= |program.code|
      reads this`visible
    {
      program.code[..visible]
    }

    lemma {:induction false} SeenParses()
      requires Valid()
      ensures codeSize <= |code| && Parse(code[..codeSize]) == Some(Seen())
    {
      ParseSplit(code, visible);
    }

    // ----- reading -----

    /** `value`. */
    method ReadValue(id: nat) returns (v: Option<Value>)
      requires force.Length == tag.Length
      ensures v == ReadTag(Contents(), id)
    {
      if id >= tag.Length {
        return None;
      }
      v := Scalar(tag[id].data);
      if v.Some? && force[id].Some? {
        v := force[id];
      }
    }

    /** `operand`. */
    method ReadOperandValue(o: Operand) returns (v: Option<Value>)
      requires force.Length == tag.Length
      ensures v == Read(Contents(), o)
    {
      if o.kind == 1 && o.member == 0 {
        v := ReadValue(o.raw);
      } else if o.kind == 1 {
        v := ReadMemberValue(o.raw, o.member);
      } else if o.typ == 1 {
        v := Some(BoolV(o.raw != 0));
      } else if o.typ == 2 {
        v := Some(DintV(Signed(Low32(o.raw))));
      } else if o.typ == 3 {
        v := Some(RealV(Low32(o.raw)));
      } else {
        v := None;
      }
    }

    /** `rsm_runtime_read_member`. */
    method ReadMemberValue(id: nat, member: byte) returns (v: Option<Value>)
      requires force.Length == tag.Length
      ensures v == ReadMember(Contents(), id, member)
    {
      if id >= tag.Length {
        return None;
      }
      v := None;
      match tag[id].data
      case TimerD(pre, acc, en, tt, dn) =>
        if 1 <= member <= 2 {
          v := Some(DintV(if member == 1 then pre else acc));
        } else if 3 <= member <= 5 {
          v := Some(BoolV(if member == 3 then en else if member == 4 then tt else dn));
        }
      case CounterD(pre, acc, cu, cd, dn, ov, un) =>
        if 1 <= member <= 2 {
          v := Some(DintV(if member == 1 then pre else acc));
        } else if 5 <= member <= 9 {
          v := Some(BoolV(if member == 5 then dn else if member == 6 then cu else if member == 7 then cd
            else if member == 8 then ov else un));
        }
      case _ =>
    }

    /** `state_for_slot`: binary search in the slot-sorted records. */
    method StateForSlot(slot: int) returns (k: nat)
      requires Sorted()
      ensures k <= state.Length && k == SlotIndex(state[..], slot)
    {
      var low, high := 0, state.Length;
      while low < high
        invariant 0 <= low <= high <= state.Length
        invariant forall j | 0 <= j < low :: state[j].slot < slot
        invariant forall j | high <= j < state.Length :: state[j].slot >= slot
      {
        var middle := low + (high - low) / 2;
        if state[middle].slot < slot {
          low := middle + 1;
        } else {
          high := middle;
        }
      }
      SlotIndexFinds(state[..], slot);
      ghost var found := SlotIndex(state[..], slot);
      assert found < state.Length ==> state[..][found].slot == slot;
      if low < state.Length && state[low].slot == slot {
        assert state[..][low].slot == slot;
        k := low;
      } else {
        k := state.Length;
      }
    }

    // ----- writing -----

    method SetTag(id: nat, d: Data)
      requires force.Length == tag.Length && id < tag.Length
      modifies tag
      ensures Contents() == SetData(old(Contents()), id, d)
    {
      tag[id] := tag[id].(data := d);
    }

    method SetState(k: nat, r: StateRecord)
      requires force.Length == tag.Length && k < state.Length && Sorted() && r.slot == state[k].slot
      modifies state
      ensures Contents() == old(Contents()).(states := old(state[..])[k := r]) && Sorted()
    {
      state[k] := r;
    }

    /** `put`. */
    method PutValue(id: nat, v: Value) returns (ok: bool)
      requires force.Length == tag.Length
      modifies tag
      ensures ok == Put(old(Contents()), id, v).Some?
      ensures Contents() == if ok then Put(old(Contents()), id, v).value else old(Contents())
    {
      ok := id < tag.Length && tag[id].storage != 1 && TypeCode(tag[id].data) == ValueCode(v);
      if ok {
        SetTag(id, DataOf(v));
      }
    }

    /** `destination`. */
    method Destination(o: Operand, v: Value) returns (ok: bool)
      requires force.Length == tag.Length
      modifies tag
      ensures ok == Write(old(Contents()), o, v).Some?
      ensures Contents() == if ok then Write(old(Contents()), o, v).value else old(Contents())
    {
      ok := o.kind == 1 && o.member == 0;
      if ok {
        ok := PutValue(o.raw, v);
      }
    }

    // ----- instructions -----

    method DoCoil(i: Instr, power: bool) returns (f: Option<FaultRecord>)
      requires force.Length == tag.Length
      modifies tag
      ensures Matches(ExecCoil(i, old(Contents()), power), f, power, Contents())
    {
      if |i.args| != 1 {
        return Some(FaultRecord(EXECUTION, 2, i.id, i.op, NO_ID));
      }
      var ok := true;
      if i.op == OP_OTE {
        ok := Destination(i.args[0], BoolV(power));
      } else if power {
        ok := Destination(i.args[0], BoolV(i.op == OP_OTL));
      }
      f := if ok then None else Some(FaultRecord(EXECUTION, 4, i.id, i.op, i.args[0].raw));
    }

    method DoOneShot(i: Instr, power: bool, x: Value) returns (f: Option<FaultRecord>, out: bool)
      requires force.Length == tag.Length
      modifies tag
      ensures Matches(ExecOneShot(i, old(Contents()), power, x), f, out, Contents())
    {
      out := power;
      if |i.args| != 1 {
        return Some(FaultRecord(EXECUTION, 2, i.id, i.op, NO_ID)), out;
      }
      var a := i.args[0];
      if a.kind != 1 || a.typ != 1 || a.member != 0 {
        return Some(FaultRecord(EXECUTION, 5, i.id, i.op, NO_ID)), out;
      }
      var stored := x.BoolV? && x.b;
      var ok := Destination(a, BoolV(power));
      if !ok {
        return Some(FaultRecord(EXECUTION, 5, i.id, i.op, a.raw)), out;
      }
      out := power && !stored;
      f := None;
    }

    method DoTimer(i: Instr, power: bool, tick: uint64, ghost c: Context) returns (f: Option<FaultRecord>)
      requires force.Length == tag.Length && Sorted() && c.tick == tick
      modifies tag, state
      ensures Sorted()
      ensures Matches(ExecTimer(c, i, old(Contents()), power), f, power, Contents())
    {
      if |i.args| != 1 {
        return Some(FaultRecord(EXECUTION, 2, i.id, i.op, NO_ID));
      }
      var a := i.args[0];
      if a.kind != 1 || a.raw >= tag.Length || !tag[a.raw].data.TimerD? {
        return Some(FaultRecord(TIMER, 1, i.id, i.op, a.raw));
      }
      var k := StateForSlot(i.slot);
      if k >= state.Length {
        return Some(FaultRecord(TIMER, 2, i.id, i.op, a.raw));
      }
      var t := tag[a.raw].data;
      if t.pre < 0 {
        return Some(FaultRecord(TIMER, 3, i.id, i.op, a.raw));
      }
      if power {
        var ms := if state[k].valid then (tick - state[k].time) % 0x1_0000_0000_0000_0000 / 1000 else 0;
        SetState(k, state[k].(valid := true, time := tick));
        var acc: int32 := if ms > INT32_MAX - t.acc then INT32_MAX else t.acc + ms;
        var dn := acc >= t.pre;
        SetTag(a.raw, TimerD(t.pre, acc, true, !dn, dn));
      } else {
        SetState(k, state[k].(valid := false));
        SetTag(a.raw, TimerD(t.pre, 0, false, false, false));
      }
      f := None;
    }

    method DoCounter(i: Instr, power: bool) returns (f: Option<FaultRecord>)
      requires force.Length == tag.Length && Sorted()
      modifies tag, state
      ensures Sorted()
      ensures Matches(ExecCounter(i, old(Contents()), power), f, power, Contents())
    {
      if |i.args| != 1 {
        return Some(FaultRecord(EXECUTION, 2, i.id, i.op, NO_ID));
      }
      var a := i.args[0];
      if a.kind != 1 || a.raw >= tag.Length || !tag[a.raw].data.CounterD? {
        return Some(FaultRecord(COUNTER, 1, i.id, i.op, a.raw));
      }
      var k := StateForSlot(i.slot);
      if k >= state.Length {
        return Some(FaultRecord(COUNTER, 2, i.id, i.op, a.raw));
      }
      var t := tag[a.raw].data;
      var rise := power && !state[k].edge;
      SetState(k, state[k].(edge := power));
      var acc, cu, cd, ov, un := t.acc, t.cu, t.cd, t.ov, t.un;
      if i.op == OP_CTU {
        cu := power;
        if rise {
          if acc == INT32_MAX {
            acc, ov := INT32_MIN, true;
          } else {
            acc := acc + 1;
          }
        }
      } else {
        cd := power;
        if rise {
          if acc == INT32_MIN {
            acc, un := INT32_MAX, true;
          } else {
            acc := acc - 1;
          }
        }
      }
      SetTag(a.raw, CounterD(t.pre, acc, cu, cd, acc >= t.pre, ov, un));
      f := None;
    }

    /** The walk of RES over the code inside codeSize. */
    method ResetSlots(id: nat)
      requires Valid()
      modifies state
      ensures Valid() && state[..] == ResetStates(old(state[..]), Seen(), id)
    {
      hide Parse, ReadInstr, Fits, ResetStates, SlotIndex, Sizes, Loaded;
      SeenParses();
      SizesOfNone(Seen());
      ghost var seen, n, before := Seen(), 0, state[..];
      var q := 0;
      ResetNone(before, seen[..0], id);
      while q < codeSize
        invariant 0 <= n <= |seen| && q == Sizes(seen[..n])
        invariant Sorted() && state[..] == ResetStates(before, seen[..n], id)
        decreases codeSize - q
      {
        NotAtEnd(code[..codeSize], n);
        assert code[q..codeSize] == code[..codeSize][q..];
        var i := Fetch(code, q, codeSize);
        ghost var here := state[..];
        if IsStateful(i.op) && |i.args| == 1 && i.args[0].raw == id {
          ResetSlot(SlotNumber(i));
        }
        ResetOneMore(before, here, state[..], seen[..n], i, id);
        assert seen[..n + 1] == seen[..n] + [i];
        q := q + 12 + 8 * |i.args|;
        n := n + 1;
      }
      AtEnd(code[..codeSize], n);
      assert seen[..n] == seen;
    }

    method ResetSlot(slot: int)
      requires Sorted()
      modifies state
      ensures Sorted()
      ensures var n := SlotIndex(old(state[..]), slot);
              state[..]
              == if n < state.Length then old(state[..])[n := StateRecord(old(state[n].slot), false, false, 0)]
                 else old(state[..])
    {
      var k := StateForSlot(slot);
      if k < state.Length {
        state[k] := StateRecord(state[k].slot, false, false, 0);
      }
    }

    static lemma {:induction false} ResetNone(before: seq<StateRecord>, seen: seq<Instr>, id: nat)
      requires seen == []
      ensures before == ResetStates(before, seen, id)
    {
    }

    static lemma {:induction false} ResetOneMore(before: seq<StateRecord>, here: seq<StateRecord>,
      after: seq<StateRecord>, seen: seq<Instr>, i: Instr, id: nat)
      requires here == ResetStates(before, seen, id) && |after| == |here|
      requires forall j, k | 0 <= j < k < |here| :: here[j].slot != here[k].slot
      requires var n := SlotIndex(here, SlotNumber(i));
               after == if Drives(i, id) && n < |here| then here[n := StateRecord(here[n].slot, false, false, 0)]
                 else here
      ensures after == ResetStates(before, seen + [i], id)
    {
      SlotIndexFinds(here, SlotNumber(i));
      forall k | 0 <= k < |after|
        ensures after[k] == ResetStates(before, seen + [i], id)[k]
      {
        var slot := before[k].slot;
        if Drives(i, id) && SlotNumber(i) == slot {
          assert i in seen + [i];
          assert here[k].slot == slot;
        } else if SlotOf(seen, id, slot) {
          var j :| j in seen && Drives(j, id) && SlotNumber(j) == slot;
          assert j in seen + [i];
        }
      }
    }

    method DoReset(i: Instr, power: bool, ghost c: Context) returns (f: Option<FaultRecord>)
      requires Valid() && c.visible == Seen()
      modifies tag, state
      ensures Valid()
      ensures Matches(ExecReset(c, i, old(Contents()), power), f, power, Contents())
    {
      if |i.args| != 1 {
        return Some(FaultRecord(EXECUTION, 2, i.id, i.op, NO_ID));
      }
      if !power {
        return None;
      }
      var a := i.args[0];
      if a.kind != 1 || a.raw >= tag.Length {
        return Some(FaultRecord(EXECUTION, 6, i.id, i.op, a.raw));
      }
      match tag[a.raw].data {
        case TimerD(pre, _, _, _, _) => SetTag(a.raw, TimerD(pre, 0, false, false, false));
        case CounterD(pre, _, _, _, _, _, _) => SetTag(a.raw, CounterD(pre, 0, false, false, false, false, false));
        case _ => return Some(FaultRecord(EXECUTION, 7, i.id, i.op, a.raw));
      }
      ResetSlots(a.raw);
      f := None;
    }

    method DoClear(i: Instr, power: bool) returns (f: Option<FaultRecord>)
      requires force.Length == tag.Length
      modifies tag
      ensures Matches(ExecClear(i, old(Contents()), power), f, power, Contents())
    {
      if |i.args| != 1 {
        return Some(FaultRecord(EXECUTION, 2, i.id, i.op, NO_ID));
      }
      f := None;
      if power {
        var a := i.args[0];
        var z := if a.raw < tag.Length then Zero(tag[a.raw].data) else None;
        if z.None? {
          return Some(FaultRecord(EXECUTION, 9, i.id, i.op, a.raw));
        }
        var ok := Destination(a, z.value);
        if !ok {
          f := Some(FaultRecord(EXECUTION, 10, i.id, i.op, a.raw));
        }
      }
    }

    method DoMove(i: Instr, power: bool, x: Value, ghost c: Context) returns (f: Option<FaultRecord>)
      requires force.Length == tag.Length && c.reals == reals
      modifies tag
      ensures Matches(ExecMove(c, i, old(Contents()), power, x), f, power, Contents())
    {
      if |i.args| != 2 {
        return Some(FaultRecord(EXECUTION, 2, i.id, i.op, NO_ID));
      }
      f := None;
      if power {
        var b := i.args[1];
        if b.kind != 1 || b.raw >= tag.Length {
          return Some(FaultRecord(EXECUTION, 11, i.id, i.op, NO_ID));
        }
        var z := Convert(reals, tag[b.raw].data, x);
        if z.None? {
          return Some(FaultRecord(NUMERIC, 1, i.id, i.op, b.raw));
        }
        var ok := Destination(b, z.value);
        if !ok {
          f := Some(FaultRecord(EXECUTION, 12, i.id, i.op, b.raw));
        }
      }
    }

    method DoMath(i: Instr, power: bool, x: Value, ghost c: Context) returns (f: Option<FaultRecord>)
      requires force.Length == tag.Length && c.reals == reals
      modifies tag
      ensures Matches(ExecMath(c, i, old(Contents()), power, x), f, power, Contents())
    {
      if |i.args| != 3 {
        return Some(FaultRecord(EXECUTION, 2, i.id, i.op, NO_ID));
      }
      f := None;
      if power {
        var d := i.args[2];
        var y := ReadOperandValue(i.args[1]);
        if y.None? || !Numeric(x) || !Numeric(y.value) || d.kind != 1 || d.raw >= tag.Length {
          return Some(FaultRecord(EXECUTION, 13, i.id, i.op, NO_ID));
        }
        match Math(reals, i.op, tag[d.raw].data, x, y.value) {
          case NumericFault(code) => return Some(FaultRecord(NUMERIC, code, i.id, i.op, d.raw));
          case TypeFault => return Some(FaultRecord(EXECUTION, 14, i.id, i.op, d.raw));
          case Answer(z) =>
            var ok := Destination(d, z);
            if !ok {
              f := Some(FaultRecord(EXECUTION, 15, i.id, i.op, d.raw));
            }
        }
      }
    }

    method DoUnary(i: Instr, power: bool, x: Value, ghost c: Context) returns (f: Option<FaultRecord>)
      requires force.Length == tag.Length && c.reals == reals
      modifies tag
      ensures Matches(ExecUnary(c, i, old(Contents()), power, x), f, power, Contents())
    {
      if |i.args| != 2 {
        return Some(FaultRecord(EXECUTION, 2, i.id, i.op, NO_ID));
      }
      f := None;
      if power {
        var b := i.args[1];
        if b.kind != 1 || b.raw >= tag.Length {
          return Some(FaultRecord(EXECUTION, 16, i.id, i.op, NO_ID));
        }
        match Unary(reals, i.op, tag[b.raw].data, x) {
          case NumericFault(code) => return Some(FaultRecord(NUMERIC, code, i.id, i.op, b.raw));
          case TypeFault => return Some(FaultRecord(EXECUTION, 17, i.id, i.op, NO_ID));
          case Answer(z) =>
            var ok := Destination(b, z);
            if !ok {
              f := Some(FaultRecord(EXECUTION, 18, i.id, i.op, b.raw));
            }
        }
      }
    }

    method DoCompare(i: Instr, power: bool, x: Value, ghost c: Context) returns (f: Option<FaultRecord>, out: bool)
      requires force.Length == tag.Length && c.reals == reals
      ensures Matches(ExecCompare(c, i, Contents(), power, x), f, out, Contents())
    {
      out := power;
      if |i.args| != 2 {
        return Some(FaultRecord(EXECUTION, 2, i.id, i.op, NO_ID)), out;
      }
      var y := ReadOperandValue(i.args[1]);
      if y.None? || !Numeric(x) || !Numeric(y.value) {
        return Some(FaultRecord(EXECUTION, 8, i.id, i.op, NO_ID)), out;
      }
      f, out := None, power && Compare(reals, i.op, x, y.value);
    }

    /** The instructions that read their first operand before anything else. */
    method DoRead(i: Instr, power: bool, x: Value, ghost c: Context) returns (f: Option<FaultRecord>, out: bool)
      requires force.Length == tag.Length && c.reals == reals && i.args != []
      modifies tag
      ensures Matches(ExecRead(c, i, old(Contents()), power, x), f, out, Contents())
    {
      f, out := None, power;
      if i.op == OP_XIC || i.op == OP_XIO {
        if |i.args| != 1 {
          f := Some(FaultRecord(EXECUTION, 2, i.id, i.op, NO_ID));
        } else if !x.BoolV? {
          f := Some(FaultRecord(EXECUTION, 3, i.id, i.op, i.args[0].raw));
        } else {
          out := power && (if i.op == OP_XIC then x.b else !x.b);
        }
      } else if OP_OTE <= i.op <= OP_OTU {
        f := DoCoil(i, power);
      } else if i.op == OP_ONS {
        f, out := DoOneShot(i, power, x);
      } else if OP_EQ <= i.op <= OP_LE {
        f, out := DoCompare(i, power, x, c);
      } else if i.op == OP_CLR {
        f := DoClear(i, power);
      } else if i.op == OP_MOV {
        f := DoMove(i, power, x, c);
      } else if OP_ADD <= i.op <= OP_DIV {
        f := DoMath(i, power, x, c);
      } else if i.op == OP_NEG || i.op == OP_ABS {
        f := DoUnary(i, power, x, c);
      } else {
        f := Some(FaultRecord(EXECUTION, 19, i.id, i.op, NO_ID));
      }
    }

    /** `execute`, up to the recording of the fault. */
    method DoExecute(i: Instr, power: bool, tick: uint64, ghost c: Context) returns (f: Option<FaultRecord>, out: bool)
      requires Valid() && c == Context(reals, tick, Seen())
      modifies tag, state
      ensures Valid()
      ensures Matches(Execute(c, i, old(Contents()), power), f, out, Contents())
    {
      out := power;
      if i.op == OP_TON {
        f := DoTimer(i, power, tick, c);
      } else if i.op == OP_CTU || i.op == OP_CTD {
        f := DoCounter(i, power);
      } else if i.op == OP_RES {
        f := DoReset(i, power, c);
      } else if i.args == [] {
        f := Some(FaultRecord(EXECUTION, if KnownOrdinary(i.op) then 2 else 19, i.id, i.op, NO_ID));
      } else {
        var x := ReadOperandValue(i.args[0]);
        if x.None? {
          f := Some(FaultRecord(EXECUTION, 1, i.id, i.op, i.args[0].raw));
        } else {
          f, out := DoRead(i, power, x.value, c);
        }
      }
    }

    /** `fail`. */
    method Fail(f: FaultRecord)
      modifies this`mode, this`fault
      ensures mode == FAULTED && fault == Some(f)
    {
      fault := Some(f);
      mode := FAULTED;
    }

    // ----- the interpreter loop -----

    /** The result of a run against its specification; k is the number of the record at next. */
    ghost predicate Ran(
        o: Outcome<Store, FaultRecord>, ok: bool, out: bool, next: nat, k: nat, mode0: Mode,
        fault0: Option<FaultRecord>)
      requires force.Length == tag.Length && visible <= |program.code|
      reads this`visible, this`mode, this`fault, tag, force, state
    {
      match o
      case Done(st, p, rest, _) =>
        && ok && out == p && Contents() == st && mode == mode0 && fault == fault0
        && k <= visible && rest == Seen()[k..] && next == Sizes(Seen()[..k])
      case Faulted(st, f) => !ok && Contents() == st && mode == FAULTED && fault == Some(f)
      case RanOff(st) => !ok && Contents() == st && mode == mode0 && fault == fault0
    }

    /** `execute`. */
    method Step(i: Instr, power: bool, tick: uint64, ghost c: Context) returns (ok: bool, out: bool)
      requires Valid() && c == Context(reals, tick, Seen())
      modifies this`mode, this`fault, tag, state
      ensures Valid()
      ensures match Execute(c, i, old(Contents()), power)
              case Passed(st, p) => ok && out == p && Contents() == st && mode == old(mode) && fault == old(fault)
              case Failed(st, f) => !ok && Contents() == st && mode == FAULTED && fault == Some(f)
    {
      var f: Option<FaultRecord>;
      f, out := DoExecute(i, power, tick, c);
      ok := f.None?;
      if f.Some? {
        Fail(f.value);
      }
    }

    method FetchHere(next: nat, ghost k: nat) returns (i: Instr)
      requires Valid() && k <= visible && next == Sizes(Seen()[..k]) < codeSize
      ensures k < visible && i == Seen()[k] && Seen()[k..] != [] && Seen()[k..][0] == i
              && Seen()[k..][1..] == Seen()[k + 1..]
      ensures next + 12 + 8 * |i.args| == Sizes(Seen()[..k + 1]) <= codeSize <= |code| && i.op == code[next]
    {
      SeenParses();
      NotAtEnd(code[..codeSize], k);
      assert code[next..codeSize] == code[..codeSize][next..];
      i := Fetch(code, next, codeSize);
    }

    /** One turn of the loop: a branch, a stray bracket, or one instruction. */
    method Turn(offset: nat, power: bool, tick: uint64, stop: byte, ghost c: Context, ghost n: nat)
      returns (ok: bool, next: nat, out: bool, ghost k: nat)
      requires Valid() && c == Context(reals, tick, Seen())
      requires n <= visible && offset == Sizes(Seen()[..n]) < codeSize <= |code| && code[offset] != stop
      modifies this`mode, this`fault, tag, state
      ensures Valid()
      ensures var whole := Bare(Run(RuntimeMachine(c), Seen()[n..], old(Contents()), power, stop));
              if ok then
                && n < k <= visible && next == Sizes(Seen()[..k]) && offset < next && mode == old(mode)
                  && fault == old(fault)
                && whole == Bare(Run(RuntimeMachine(c), Seen()[k..], Contents(), out, stop))
              else !whole.Done? && Ran(whole, ok, out, next, k, old(mode), old(fault))
      decreases codeSize - offset, 1
    {
      hide Parse, ReadInstr, Fits, Execute, Run, RunLanes, Loaded, Sorted, Sizes;
      var i := FetchHere(offset, n);
      RunTurn(RuntimeMachine(c), Seen()[n..], Contents(), power, stop);
      ok, next, out, k := false, offset, power, n;
      if i.op == OP_BRANCH_BEGIN {
        ok, next, out, k := RunBranch(offset + 12 + 8 * |i.args|, power, tick, c, n + 1);
      } else if IsControl(i.op) {
        Fail(BranchFault(i.op));
      } else {
        ok, out := Step(i, power, tick, c);
        next, k := offset + 12 + 8 * |i.args|, n + 1;
      }
    }

    lemma {:induction false} StopHere(
        m: Interpreter<Store, FaultRecord>, next: nat, k: nat, st: Store, power: bool, stop: byte) returns (k': nat)
      requires Valid() && k <= visible && next == Sizes(Seen()[..k]) < codeSize <= |code| && code[next] == stop
      ensures k' == k && Run(m, Seen()[k..], st, power, stop) == Done(st, power, Seen()[k..], [])
    {
      var i := RecordHere(next, k);
      RunStopped(m, Seen()[k..], st, power, stop, []);
      k' := k;
    }

    /** `run_until`: n is the number of the record at the offset. */
    method RunUntil(offset: nat, power: bool, tick: uint64, stop: byte, ghost c: Context, ghost n: nat)
      returns (ok: bool, next: nat, out: bool, ghost k: nat)
      requires Valid() && c == Context(reals, tick, Seen())
      requires n <= visible && offset == Sizes(Seen()[..n]) && (stop == 0 || stop == OP_LANE_END)
      modifies this`mode, this`fault, tag, state
      ensures Valid()
      ensures Ran(Bare(Run(RuntimeMachine(c), Seen()[n..], old(Contents()), power, stop)), ok, out, next, k,
              old(mode), old(fault))
      ensures ok ==> offset <= next <= codeSize <= |code| && (stop != 0 ==> next < codeSize && code[next] == stop)
      decreases codeSize - offset, 2
    {
      hide Parse, ReadInstr, Fits, Execute, Run, RunLanes, Loaded, Sorted, Sizes;
      ghost var m, seen := RuntimeMachine(c), Seen();
      ghost var whole := Bare(Run(m, seen[n..], Contents(), power, stop));
      ok, next, out, k := true, offset, power, n;
      SeenParses();
      while next < codeSize
        invariant Valid() && ok && mode == old(mode) && fault == old(fault)
        invariant n <= k <= visible && next == Sizes(seen[..k]) && offset <= next
        invariant whole == Bare(Run(m, seen[k..], Contents(), out, stop))
        decreases codeSize - next
      {
        if code[next] == stop {
          k := StopHere(m, next, k, Contents(), out, stop);
          return;
        }
        ok, next, out, k := Turn(next, out, tick, stop, c, k);
        if !ok {
          return;
        }
      }
      AtEnd(code[..codeSize], k);
      assert seen[k..] == [] && seen[..k] == seen;
      RunEnded(m, seen[k..], Contents(), out, stop);
      ok := stop == 0;
    }

    /** One lane of a branch; the offset is at its LANE_BEGIN. */
    method Lane(offset: nat, power: bool, merged: bool, ghost lanes: nat, tick: uint64, ghost c: Context, ghost n: nat)
      returns (ok: bool, next: nat, out: bool, ghost k: nat)
      requires Valid() && c == Context(reals, tick, Seen())
      requires n <= visible && offset == Sizes(Seen()[..n]) < codeSize <= |code| && code[offset] == OP_LANE_BEGIN
      modifies this`mode, this`fault, tag, state
      ensures Valid()
      ensures var whole := Bare(RunLanes(RuntimeMachine(c), Seen()[n..], old(Contents()), power, merged, lanes));
              if ok then
                && n < k <= visible && next == Sizes(Seen()[..k]) <= codeSize && offset < next && mode == old(mode)
                  && fault == old(fault)
                && whole == Bare(RunLanes(RuntimeMachine(c), Seen()[k..], Contents(), power, out, lanes + 1))
              else !whole.Done? && Ran(whole, ok, out, next, k, old(mode), old(fault))
      decreases codeSize - offset, 0
    {
      hide Parse, ReadInstr, Fits, Execute, Run, RunLanes, Loaded, Sorted, Sizes;
      ghost var i := BracketHere(offset, n);
      LanesTurn(RuntimeMachine(c), Seen()[n..], Contents(), power, merged, lanes);
      var lane: bool;
      ok, next, lane, k := RunUntil(offset + 12, power, tick, OP_LANE_END, c, n + 1);
      out := merged || lane;
      if ok {
        i := BracketHere(next, k);
        next, k := next + 12, k + 1;
      }
    }

    /** The lanes of a branch; the offset is just after BRANCH_BEGIN. */
    method RunBranch(offset: nat, power: bool, tick: uint64, ghost c: Context, ghost n: nat)
      returns (ok: bool, next: nat, out: bool, ghost k: nat)
      requires Valid() && c == Context(reals, tick, Seen())
      requires n <= visible && offset == Sizes(Seen()[..n]) <= codeSize
      modifies this`mode, this`fault, tag, state
      ensures Valid() && (ok ==> n <= k)
      ensures Ran(Bare(RunLanes(RuntimeMachine(c), Seen()[n..], old(Contents()), power, false, 0)), ok, out, next, k,
              old(mode), old(fault))
      ensures ok ==> offset <= next <= codeSize
      decreases codeSize - offset, 1
    {
      hide Parse, ReadInstr, Fits, Execute, Run, RunLanes, Loaded, Sorted, Sizes;
      ghost var m, seen := RuntimeMachine(c), Seen();
      ghost var whole := Bare(RunLanes(m, seen[n..], Contents(), power, false, 0));
      var lanes := 0;
      ok, next, out, k := true, offset, false, n;
      SeenParses();
      while next < codeSize && code[next] == OP_LANE_BEGIN
        invariant Valid() && ok && mode == old(mode) && fault == old(fault)
        invariant n <= k <= visible && next == Sizes(seen[..k]) <= codeSize && offset <= next
        invariant whole == Bare(RunLanes(m, seen[k..], Contents(), power, out, lanes))
        decreases codeSize - next
      {
        ok, next, out, k := Lane(next, power, out, lanes, tick, c, k);
        if !ok {
          return;
        }
        lanes := lanes + 1;
      }
      LanesTurn(m, seen[k..], Contents(), power, out, lanes);
      if next < codeSize {
        ghost var i := RecordHere(next, k);
      } else {
        AtEnd(code[..codeSize], k);
      }
      if lanes == 0 || next >= codeSize || code[next] != OP_BRANCH_END {
        Fail(BranchFault(OP_BRANCH_BEGIN));
        ok := false;
        return;
      }
      ghost var i := BracketHere(next, k);
      next, k := next + 12, k + 1;
    }

    /** The record at an offset that is not the end. */
    lemma {:induction false} RecordHere(next: nat, k: nat) returns (i: Instr)
      requires Valid() && k <= visible && next == Sizes(Seen()[..k]) < codeSize <= |code|
      ensures k < visible && i == Seen()[k] && Seen()[k..] != [] && Seen()[k..][0] == i
              && Seen()[k..][1..] == Seen()[k + 1..]
      ensures next + Size(i) == Sizes(Seen()[..k + 1]) <= codeSize
      ensures i.op == code[next]
    {
      SeenParses();
      NotAtEnd(code[..codeSize], k);
      i := Seen()[k];
      assert code[..codeSize][next..][0] == code[next];
    }

    lemma {:induction false} BracketHere(next: nat, k: nat) returns (i: Instr)
      requires Valid() && k <= visible && next == Sizes(Seen()[..k]) < codeSize <= |code| && IsControl(code[next])
      ensures k < visible && i == Seen()[k] && Seen()[k..] != [] && Seen()[k..][0] == i
              && Seen()[k..][1..] == Seen()[k + 1..]
      ensures next + 12 == Sizes(Seen()[..k + 1]) <= codeSize
      ensures i.op == code[next]
    {
      i := RecordHere(next, k);
      assert i in program.code;
    }

    // ----- mode changes -----

    method IdleStates(prescan: bool)
      requires Valid()
      modifies state
      ensures Valid()
      ensures state[..] == Idle(old(Contents()), prescan).states
    {
      var i := 0;
      while i < state.Length
        invariant 0 <= i <= state.Length && Sorted()
        invariant forall j | 0 <= j < i :: state[j] == IdleState(old(state[j]), prescan)
        invariant forall j | i <= j < state.Length :: state[j] == old(state[j])
      {
        state[i] := state[i].(valid := false, edge := prescan);
        i := i + 1;
      }
    }

    method IdleTags(ghost prescan: bool)
      requires force.Length == tag.Length
      modifies tag
      ensures tag[..] == Idle(old(Contents()), prescan).tags
    {
      var i := 0;
      while i < tag.Length
        invariant 0 <= i <= tag.Length
        invariant forall j | 0 <= j < i :: tag[j] == Tag(old(tag[j]).storage, IdleData(old(tag[j]).data))
        invariant forall j | i <= j < tag.Length :: tag[j] == old(tag[j])
      {
        match tag[i].data {
          case TimerD(pre, _, _, _, _) => tag[i] := Tag(tag[i].storage, TimerD(pre, 0, false, false, false));
          case CounterD(pre, acc, _, _, dn, ov, un) => tag[i] := Tag(tag[i].storage,
            CounterD(pre, acc, false, false, dn, ov, un));
          case _ =>
        }
        i := i + 1;
      }
    }

    /** The walk of the lifecycle pass over the code inside codeSize. */
    method IdleCoils(prescan: bool) returns (ok: bool)
      requires Valid()
      modifies tag
      ensures Valid() && SeenCoils()
      ensures Lifecycle(Contents(), ok) == IdleCode(old(Contents()), Seen(), prescan)
    {
      assert SeenCoils();
      hide Parse, ReadInstr, Fits, Sizes, Loaded, Sorted, IdleStep, IdleCode, CoilsHaveOperands, SeenCoils;
      SeenParses();
      ghost var seen, k := Seen(), 0;
      var o := 0;
      SizesOfNone(seen);
      assert seen[0..] == seen;
      while o < codeSize
        invariant 0 <= k <= visible && o == Sizes(seen[..k])
        invariant CoilsHaveOperands(seen[k..])
        invariant IdleCode(Contents(), seen[k..], prescan) == IdleCode(old(Contents()), seen, prescan)
        decreases codeSize - o
      {
        var i := FetchHere(o, k);
        IdleTurn(Contents(), seen[k..], prescan);
        ok := IdleCoil(i, prescan);
        if !ok {
          return;
        }
        o, k := o + 12 + 8 * |i.args|, k + 1;
      }
      AtEnd(code[..codeSize], k);
      IdleNothing(Contents(), seen[k..], prescan);
      ok := true;
    }

    static lemma {:induction false} IdleNothing(s: Store, code: seq<Instr>, prescan: bool)
      requires code == [] && CoilsHaveOperands(code)
      ensures IdleCode(s, code, prescan) == Lifecycle(s, true)
    {
    }

    method IdleCoil(i: Instr, prescan: bool) returns (ok: bool)
      requires force.Length == tag.Length && ((i.op == OP_OTE || i.op == OP_ONS) ==> i.args != [])
      modifies tag
      ensures Lifecycle(Contents(), ok) == IdleStep(old(Contents()), i, prescan)
    {
      ok := true;
      if i.op == OP_OTE || (prescan && i.op == OP_ONS) {
        ok := Destination(i.args[0], BoolV(i.op == OP_ONS));
      }
    }

    ghost predicate SeenCoils()
      requires visible <= |program.code|
      reads this`visible
    {
      CoilsHaveOperands(Seen())
    }

    /** `lifecycle_outputs`. */
    method LifecyclePass(prescan: bool) returns (ok: bool)
      requires Valid()
      modifies tag, state
      ensures Valid()
      ensures Lifecycle(Contents(), ok) == LifecycleOutputs(program, old(Abstract()), prescan)
    {
      IdleStates(prescan);
      IdleTags(prescan);
      assert Contents() == Idle(old(Contents()), prescan);
      ok := IdleCoils(prescan);
    }

    /** `rsm_runtime_set_mode`. */
    method ChangeMode(to: Mode) returns (status: Status)
      requires Valid()
      modifies this`mode, tag, state
      ensures Valid()
      ensures (Abstract(), status) == SetMode(program, old(Abstract()), to)
    {
      if mode == FAULTED && to != PROGRAM {
        return INVALID_STATE;
      }
      var ok := true;
      if (to == RUN || to == TEST) && mode == PROGRAM {
        ok := LifecyclePass(true);
      } else if to == PROGRAM && (mode == RUN || mode == TEST) {
        ok := LifecyclePass(false);
      }
      if !ok {
        return NOT_WRITABLE;
      }
      mode := to;
      status := OK;
    }

    /** `rsm_runtime_prescan` and `rsm_runtime_postscan`. */
    method HostPass(prescan: bool) returns (status: Status)
      requires Valid()
      modifies tag, state
      ensures Valid()
      ensures (Abstract(), status) == Pass(program, old(Abstract()), prescan)
    {
      var ok := LifecyclePass(prescan);
      status := if ok then OK else NOT_WRITABLE;
    }

    // ----- the scan -----

    method CaptureInputs(hal: Hal) returns (f: Option<FaultRecord>)
      requires force.Length == tag.Length
      modifies tag
      ensures Captured(Contents(), f) == Capture(old(Contents()), hal, 0)
    {
      var i := 0;
      while i < tag.Length
        invariant 0 <= i <= tag.Length
        invariant Capture(Contents(), hal, i) == Capture(old(Contents()), hal, 0)
      {
        if tag[i].storage == 1 && hal.readsInputs {
          var v := hal.input(i);
          if v.None? {
            return Some(HalFault(1, i));
          }
          if ValueCode(v.value) != TypeCode(tag[i].data) {
            return Some(HalFault(2, i));
          }
          SetTag(i, DataOf(v.value));
        }
        i := i + 1;
      }
      f := None;
    }

    static function Prepend(written: seq<(nat, Value)>, o: Outputs): Outputs {
      Outputs(written + o.written, o.fault)
    }

    method WriteAllOutputs(hal: Hal) returns (f: Option<FaultRecord>, ghost written: seq<(nat, Value)>)
      requires force.Length == tag.Length
      ensures Outputs(written, f) == WriteOutputs(Contents(), hal, 0)
    {
      var i := 0;
      written := [];
      ghost var whole := WriteOutputs(Contents(), hal, 0);
      assert [] + whole.written == whole.written;
      while i < tag.Length
        invariant 0 <= i <= tag.Length
        invariant whole == Prepend(written, WriteOutputs(Contents(), hal, i))
      {
        if tag[i].storage == 2 {
          var v := ReadValue(i);
          if v.None? {
            assert written + [] == written;
            return Some(HalFault(3, i)), written;
          }
          if !hal.output(i, v.value) {
            return Some(HalFault(3, i)), written + [(i, v.value)];
          }
          ghost var rest := WriteOutputs(Contents(), hal, i + 1);
          assert written + ([(i, v.value)] + rest.written) == (written + [(i, v.value)]) + rest.written;
          written := written + [(i, v.value)];
        }
        i := i + 1;
      }
      assert written + [] == written;
      f := None;
    }

    /** The end of a rung of so many records, if the code inside codeSize has that many left. */
    method RungEnd(offset: nat, count: nat, ghost n: nat) returns (ok: bool, end: nat)
      requires Valid() && n <= visible && offset == Sizes(Seen()[..n])
      ensures ok == (n + count <= visible)
      ensures ok ==> end == Sizes(Seen()[..n + count]) <= codeSize
    {
      hide Parse, ReadInstr, Fits, Sizes, Loaded, Sorted;
      SeenParses();
      var found := 0;
      end := offset;
      while end < codeSize && found < count
        invariant 0 <= found <= count && n + found <= visible && end == Sizes(Seen()[..n + found])
        decreases count - found
      {
        var i := FetchHere(end, n + found);
        end, found := end + 12 + 8 * |i.args|, found + 1;
      }
      ok := found == count;
      if found < count {
        AtEnd(code[..codeSize], n + found);
      } else {
        ParseSplit(code[..codeSize], n + count);
      }
    }

    /** One rung: the code is cut off at its end while it runs, and restored if it succeeds. */
    method RunRung(offset: nat, end: nat, tick: uint64, ghost n: nat, ghost e: nat) returns (ok: bool, out: bool)
      requires Valid() && n <= e <= visible && offset == Sizes(Seen()[..n]) && end == Sizes(Seen()[..e])
      modifies this`mode, this`fault, this`codeSize, this`visible, tag, state
      ensures Valid()
      ensures match Run(RuntimeMachine(Context(reals, tick, program.code[..e])), program.code[n..e], old(Contents()),
              true, 0)
              case Done(st, p, _, _) => ok && out == p && Contents() == st && mode == old(mode) && fault == old(fault)
                && visible == old(visible)
              case Faulted(st, f) => !ok && Contents() == st && mode == FAULTED && fault == Some(f) && visible == e
              case RanOff(st) => !ok && Contents() == st && mode == old(mode) && fault == old(fault) && visible == e
    {
      ghost var total := visible;
      var saved := codeSize;
      assert Seen()[..e] == program.code[..e] && Seen()[..n] == program.code[..n] == program.code[..e][..n];
      assert program.code[..e][n..] == program.code[n..e];
      codeSize, visible := end, e;
      ghost var c := Context(reals, tick, program.code[..e]);
      RunFinishes(RuntimeMachine(c), program.code[n..e], Contents(), true);
      var next: nat;
      ghost var k: nat;
      ok, next, out, k := RunUntil(offset, true, tick, 0, c, n);
      if ok {
        codeSize, visible := saved, total;
      }
    }

    /** The rungs, from the start of the code to codeSize. */
    method RunRungs(tick: uint64) returns (ok: bool, ghost log: seq<seq<Event>>)
      requires Valid()
      modifies this`mode, this`fault, this`codeSize, this`visible, tag, state, rungPower
      ensures Valid()
      ensures var r := Rungs(program, reals, tick, old(Contents()), old(rungPower[..]), 0, 0, old(visible), []);
              && ok == r.finished && (ok ==> r.fault == None) && log == r.log
              && Contents() == r.store && rungPower[..] == r.power && visible == r.visible
              && (match r.fault
                  case None => mode == old(mode) && fault == old(fault)
                  case Some(f) => mode == FAULTED && fault == Some(f))
    {
      hide Parse, Run, Sizes, Sorted, CoilsHaveOperands, NoEndMarker;
      ghost var total, whole := visible, Rungs(program, reals, tick, Contents(), rungPower[..], 0, 0, visible, []);
      var offset, rung := 0, 0;
      ghost var n := 0;
      log := [];
      SizesOfNone(program.code);
      while offset < codeSize
        invariant Valid() && visible == total && mode == old(mode) && fault == old(fault)
        invariant 0 <= n <= visible && offset == Sizes(program.code[..n]) <= codeSize && 0 <= rung <= |rungCounts|
        invariant whole == Rungs(program, reals, tick, Contents(), rungPower[..], n, rung, visible, log)
        decreases |rungCounts| - rung, codeSize - offset
      {
        PrefixSizes(program.code, n, visible);
        ghost var e := visible;
        var end, out := codeSize, true;
        ghost var before := Contents();
        if rung < |rungCounts| {
          assert Seen()[..n] == program.code[..n];
          ok, end := RungEnd(offset, rungCounts[rung], n);
          if !ok {
            Fail(FaultRecord(EXECUTION, 21, NO_ID, 0, NO_ID));
            return;
          }
          e := n + rungCounts[rung];
          assert Seen()[..e] == program.code[..e];
        }
        assert Seen()[..n] == program.code[..n] && Seen()[..e] == program.code[..e];
        ghost var o := Run(RuntimeMachine(Context(reals, tick, program.code[..e])), program.code[n..e], before, true,
          0);
        ok, out := RunRung(offset, end, tick, n, e);
        if !ok {
          return;
        }
        if rung < |rungCounts| {
          rungPower[rung] := out;
          rung := rung + 1;
        } else if rung > 0 {
          rungPower[rung - 1] := out;
        }
        log := log + [o.log];
        offset, n := end, e;
      }
      PrefixSizes(program.code, n, visible);
      ok := true;
    }

    static lemma {:induction false} PrefixSizes(all: seq<Instr>, n: nat, v: nat)
      requires n <= v <= |all|
      ensures Sizes(all[..n]) < Sizes(all[..v]) <==> n < v
    {
      assert all[..v] == all[..n] + all[n..v];
      SizesAppend(all[..n], all[n..v]);
    }

    /** `rsm_runtime_scan`. */
    method ScanOnce(hal: Hal) returns (status: Status, ghost log: seq<seq<Event>>, ghost written: seq<(nat, Value)>)
      requires Valid()
      modifies this, tag, state, rungPower
      ensures Valid()
      ensures ScanResult(Abstract(), status, log, written) == Scan(program, reals, old(Abstract()), hal)
    {
      hide Rungs, Capture, WriteOutputs, Sorted, Sizes, Loaded;
      log, written := [], [];
      if mode != RUN && mode != TEST {
        return if mode == FAULTED then FAULT_STATUS else INVALID_STATE, log, written;
      }
      var f := CaptureInputs(hal);
      if f.Some? {
        Fail(f.value);
        return FAULT_STATUS, log, written;
      }
      var ok: bool;
      ok, log := RunRungs(hal.now);
      if !ok {
        return FAULT_STATUS, log, written;
      }
      if mode == RUN && hal.writesOutputs {
        f, written := WriteAllOutputs(hal);
        if f.Some? {
          Fail(f.value);
          return FAULT_STATUS, log, written;
        }
      }
      scans := scans + 1;
      if hal.kicksWatchdog && !hal.watchdog {
        Fail(FaultRecord(WATCHDOG, 1, NO_ID, 0, NO_ID));
        return FAULT_STATUS, log, written;
      }
      status := OK;
    }

    // ----- host access to tags -----

    /** `rsm_runtime_write_tag`. */
    method HostWrite(id: nat, v: Value) returns (status: Status)
      requires Valid()
      modifies tag
      ensures Valid()
      ensures (Abstract(), status) == WriteTag(old(Abstract()), id, v)
    {
      if id >= tag.Length {
        return TAG_NOT_FOUND;
      }
      if tag[id].storage == 1 {
        return NOT_WRITABLE;
      }
      var ok := PutValue(id, v);
      status := if ok then OK else TYPE_MISMATCH;
    }

    /** `rsm_runtime_force_tag`. */
    method HostForce(id: nat, v: Value) returns (status: Status)
      requires Valid()
      modifies force
      ensures Valid()
      ensures (Abstract(), status) == ForceTag(old(Abstract()), id, v)
    {
      if id >= tag.Length {
        return TAG_NOT_FOUND;
      }
      if ValueCode(v) != TypeCode(tag[id].data) {
        return TYPE_MISMATCH;
      }
      force[id] := Some(v);
      status := OK;
    }

    /** `rsm_runtime_clear_force`. */
    method HostClearForce(id: nat) returns (status: Status)
      requires Valid()
      modifies force
      ensures Valid()
      ensures (Abstract(), status) == ClearForce(old(Abstract()), id)
    {
      if id >= tag.Length {
        return TAG_NOT_FOUND;
      }
      force[id] := None;
      status := OK;
    }

    /** `rsm_runtime_clear_all_forces`. */
    method HostClearAllForces() returns (status: Status)
      requires Valid()
      modifies force
      ensures Valid()
      ensures (Abstract(), status) == ClearAllForces(old(Abstract()))
    {
      var i := 0;
      while i < tag.Length
        invariant 0 <= i <= tag.Length
        invariant forall j | 0 <= j < i :: force[j] == None
      {
        force[i] := None;
        i := i + 1;
      }
      assert force[..] == seq(force.Length, _ => None);
      status := OK;
    }

    // ----- loading -----

    /** `state_slot_count`. */
    static method CountSlots(code: seq<byte>) returns (count: nat)
      requires Parse(code).Some?
      ensures count == |Slots(Parse(code).value)|
    {
      hide ReadInstr, Fits;
      ghost var all, k := Parse(code).value, 0;
      var o := 0;
      count := 0;
      SizesOfNone(all);
      while o < |code|
        invariant 0 <= k <= |all| && o == Sizes(all[..k]) && count == |Slots(all[..k])|
        decreases |code| - o
      {
        NotAtEnd(code, k);
        assert code[o..|code|] == code[o..];
        var i := Fetch(code, o, |code|);
        SlotsStep(all, k);
        if IsStateful(i.op) {
          count := count + 1;
        }
        o, k := o + 12 + 8 * |i.args|, k + 1;
      }
      AtEnd(code, k);
      assert all[..k] == all;
    }

    static lemma {:induction false} SlotsStep(all: seq<Instr>, k: nat)
      requires k < |all|
      ensures Slots(all[..k + 1]) == Slots(all[..k]) + (if IsStateful(all[k].op) then [all[k].slot] else [])
    {
      assert all[..k + 1] == all[..k] + [all[k]];
      SlotsAppend(all[..k], [all[k]]);
      assert [all[k]][1..] == [];
    }

    /** `rsm_runtime_load_image` on the sections of an accepted image: the state records are laid
     *  out in stream order, the tags take their initial values, nothing is forced. */
    constructor (reals: RealOps, code: seq<byte>, tags: seq<Tag>, rungCounts: seq<nat>, ghost program: Program)
      requires Parse(code) == Some(program.code) && rungCounts == program.counts
      requires NoEndMarker(program.code) && CoilsHaveOperands(program.code)
      requires forall i | i in program.code && IsControl(i.op) :: i.args == []
      requires Increasing(Slots(program.code), -1)
      requires forall k | 0 <= k < |Slots(program.code)| :: 0 <= Slots(program.code)[k] <= UINT32_MAX
      ensures Valid() && this.reals == reals && this.program == program
      ensures Abstract() == Initial(program, tags)
    {
      this.reals, this.code, this.rungCounts, this.program := reals, code, rungCounts, program;
      var slots := CountSlots(code);
      tag := new Tag[|tags|](i requires 0 <= i < |tags| => tags[i]);
      force := new Option<Value>[|tags|](_ => None);
      state := new StateRecord[slots](_ => StateRecord(0, false, false, 0));
      rungPower := new bool[|rungCounts|](_ => false);
      codeSize, visible := |code|, |program.code|;
      mode, fault, scans := PROGRAM, None, 0;
      new;
      hide Parse, Sizes, SlotIndex, Slots, Increasing, CoilsHaveOperands, NoEndMarker;
      FillSlots();
      assert program.code[..visible] == program.code;
      StreamSize(code);
      assert tag[..] == tags && force[..] == seq(|tags|, _ => None) && rungPower[..] == seq(|rungCounts|, _ => false);
      forall j, k | 0 <= j < k < state.Length
        ensures state[j].slot < state[k].slot
      {
        IncreasingOrder(Slots(program.code), -1, j, k);
      }
    }

    method FillSlots()
      requires Loaded() && state.Length == |Slots(program.code)|
      requires forall k | 0 <= k < |Slots(program.code)| :: 0 <= Slots(program.code)[k] <= UINT32_MAX
      requires forall k | 0 <= k < state.Length :: state[k] == StateRecord(0, false, false, 0)
      modifies state
      ensures state[..] == FreshStates(Slots(program.code))
    {
      hide ReadInstr, Fits, Parse, Sizes, Slots;
      ghost var all, n := program.code, 0;
      var o, k := 0, 0;
      SizesOfNone(all);
      NoSlots(all);
      while o < |code|
        invariant 0 <= n <= |all| && o == Sizes(all[..n]) && k == |Slots(all[..n])| <= state.Length
        invariant forall j | 0 <= j < k :: state[j] == StateRecord(Slots(all)[j], false, false, 0)
        invariant forall j | k <= j < state.Length :: state[j] == StateRecord(0, false, false, 0)
        decreases |code| - o
      {
        NotAtEnd(code, n);
        assert code[o..|code|] == code[o..];
        var i := Fetch(code, o, |code|);
        NextSlot(all, n);
        if IsStateful(i.op) {
          state[k] := state[k].(slot := SlotNumber(i));
          k := k + 1;
        }
        o, n := o + 12 + 8 * |i.args|, n + 1;
      }
      AtEnd(code, n);
      assert all[..n] == all;
    }

    static lemma {:induction false} NoSlots(all: seq<Instr>)
      ensures Slots(all[..0]) == []
    {
    }

    /** The slot of a stateful record is the next one of the stream. */
    static lemma {:induction false} NextSlot(all: seq<Instr>, n: nat)
      requires n < |all|
      ensures var k := |Slots(all[..n])|;
              if IsStateful(all[n].op) then k < |Slots(all)| && Slots(all)[k] == all[n].slot
                 && |Slots(all[..n + 1])| == k + 1
              else |Slots(all[..n + 1])| == k
    {
      SlotsStep(all, n);
      assert all == all[..n + 1] + all[n + 1..];
      SlotsAppend(all[..n + 1], all[n + 1..]);
    }
  }
}
