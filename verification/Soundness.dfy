/** What acceptance guarantees: no instruction of an accepted stream ever meets an operand, arity,
 *  type, write or state-slot fault. */
module Soundness {
  import opened Bytes
  import opened Instructions
  import opened ControlFlow
  import opened Brackets
  import opened Admission
  import opened Semantics

  /** The store agrees with the tag table, forces included. */
  predicate WellTyped(decls: seq<Decl>, s: Store) {
    && |s.tags| == |decls|
    && (forall k | 0 <= k < |decls| ::
          TypeCode(s.tags[k].data) == decls[k].typ && s.tags[k].storage == decls[k].storage)
    && (forall k | 0 <= k < |decls| :: s.forces[k].Some? ==> ValueCode(s.forces[k].value) == decls[k].typ)
  }

  /** There is one state record per slot, in slot order. */
  predicate HasSlots(states: seq<StateRecord>, slots: seq<int>) {
    |states| == |slots| && forall k | 0 <= k < |states| :: states[k].slot == slots[k]
  }

  /** The only faults an accepted stream can raise: conversions and numeric overflow, a negative
   *  preset, a mixed-type math destination, and a branch with code outside its lanes. */
  predicate Allowed(f: FaultRecord) {
    || (f.category == NUMERIC && 1 <= f.code <= 3)
    || (f.category == TIMER && f.code == 3)
    || (f.category == EXECUTION && (f.code == 14 || f.code == 17 || f.code == 20))
  }

  /** The effect keeps the store typed, the slots and the forces in place, and fails only so. */
  predicate Sound(decls: seq<Decl>, s: Store, e: Effect<Store, FaultRecord>) {
    && WellTyped(decls, e.st)
    && |e.st.states| == |s.states|
    && (forall k | 0 <= k < |s.states| :: e.st.states[k].slot == s.states[k].slot)
    && (e.Failed? ==> Allowed(e.fault))
  }

  lemma {:induction false} ReadIsTyped(decls: seq<Decl>, s: Store, o: Operand)
    requires WellTyped(decls, s) && OperandOk(decls, o)
    ensures Read(s, o).Some? ==> ValueCode(Read(s, o).value) == o.typ
    ensures ScalarType(o.typ) ==> Read(s, o).Some?
  {
    if o.kind == 1 {
      assert TypeCode(s.tags[o.raw].data) == decls[o.raw].typ;
    }
  }

  lemma {:induction false} WriteIsTyped(decls: seq<Decl>, s: Store, o: Operand, v: Value)
    requires WellTyped(decls, s) && TagOperand(decls, o, ValueCode(v), true)
    ensures Write(s, o, v).Some? && WellTyped(decls, Write(s, o, v).value) && Write(s, o, v).value.states == s.states
  {
    assert TypeCode(s.tags[o.raw].data) == decls[o.raw].typ;
  }

  lemma {:induction false} SetIsTyped(decls: seq<Decl>, s: Store, id: nat, d: Data)
    requires WellTyped(decls, s) && id < |s.tags| && TypeCode(d) == decls[id].typ
    ensures WellTyped(decls, SetData(s, id, d))
  {
  }

  lemma {:induction false} SlotIsFound(states: seq<StateRecord>, slots: seq<int>, slot: int)
    requires HasSlots(states, slots) && slot in slots
    ensures SlotIndex(states, slot) < |states|
    decreases |slots|
  {
    if states[0].slot != slot {
      SlotIsFound(states[1..], slots[1..], slot);
    }
  }

  lemma {:induction false} TimerIsSound(decls: seq<Decl>, c: Context, i: Instr, s: Store, power: bool)
    requires WellTyped(decls, s) && InstrOk(decls, i) && IsStateful(i.op) && SlotIndex(s.states, i.slot) < |s.states|
    ensures Sound(decls, s, Execute(c, i, s, power))
  {
    var a := i.args[0];
    assert TypeCode(s.tags[a.raw].data) == decls[a.raw].typ;
    SlotIndexFinds(s.states, i.slot);
    var e := Execute(c, i, s, power);
    if e.Passed? {
      SetIsTyped(decls, s, a.raw, e.st.tags[a.raw].data);
    }
  }

  lemma {:induction false} ResetIsSound(decls: seq<Decl>, c: Context, i: Instr, s: Store, power: bool)
    requires WellTyped(decls, s) && InstrOk(decls, i) && i.op == OP_RES
    ensures Sound(decls, s, Execute(c, i, s, power))
  {
    var a := i.args[0];
    assert TypeCode(s.tags[a.raw].data) == decls[a.raw].typ;
    SetIsTyped(decls, s, a.raw, ResetData(s.tags[a.raw].data));
  }

  lemma {:induction false} MoveIsSound(decls: seq<Decl>, c: Context, i: Instr, s: Store, power: bool)
    requires WellTyped(decls, s) && InstrOk(decls, i) && (i.op == OP_MOV || i.op == OP_CLR)
    ensures Sound(decls, s, Execute(c, i, s, power))
  {
    assert OperandOk(decls, i.args[0]);
    ReadIsTyped(decls, s, i.args[0]);
    var x := Read(s, i.args[0]).value;
    if power {
      var o := if i.op == OP_CLR then i.args[0] else i.args[1];
      assert TypeCode(s.tags[o.raw].data) == decls[o.raw].typ;
      var z := if i.op == OP_CLR then Zero(s.tags[o.raw].data) else Convert(c.reals, s.tags[o.raw].data, x);
      if z.Some? {
        WriteIsTyped(decls, s, o, z.value);
      }
    }
  }

  lemma {:induction false} MathIsSound(decls: seq<Decl>, c: Context, i: Instr, s: Store, power: bool)
    requires WellTyped(decls, s) && InstrOk(decls, i) && OP_ADD <= i.op <= OP_ABS
    ensures Sound(decls, s, Execute(c, i, s, power))
  {
    assert OperandOk(decls, i.args[0]) && OperandOk(decls, i.args[1]);
    ReadIsTyped(decls, s, i.args[0]);
    ReadIsTyped(decls, s, i.args[1]);
    var x, y := Read(s, i.args[0]).value, Read(s, i.args[1]).value;
    if power {
      var o := i.args[|i.args| - 1];
      assert TypeCode(s.tags[o.raw].data) == decls[o.raw].typ;
      var z := if i.op <= OP_DIV then Math(c.reals, i.op, s.tags[o.raw].data, x, y)
          else Unary(c.reals, i.op, s.tags[o.raw].data, x);
      if z.Answer? {
        WriteIsTyped(decls, s, o, z.v);
      }
    }
  }

  lemma {:induction false} BitIsSound(decls: seq<Decl>, c: Context, i: Instr, s: Store, power: bool)
    requires WellTyped(decls, s) && InstrOk(decls, i) && (i.op <= OP_ONS || OP_EQ <= i.op <= OP_LE)
    ensures Sound(decls, s, Execute(c, i, s, power))
  {
    assert OperandOk(decls, i.args[0]);
    ReadIsTyped(decls, s, i.args[0]);
    if i.op > OP_ONS {
      assert OperandOk(decls, i.args[1]);
      ReadIsTyped(decls, s, i.args[1]);
    } else if OP_OTE <= i.op {
      WriteIsTyped(decls, s, i.args[0], BoolV(if OP_OTL <= i.op <= OP_OTU then i.op == OP_OTL else power));
    }
  }

  /** One accepted instruction. */
  lemma {:induction false} ExecuteIsSound(decls: seq<Decl>, c: Context, i: Instr, s: Store, power: bool)
    requires WellTyped(decls, s) && InstrOk(decls, i) && !IsControl(i.op)
    requires IsStateful(i.op) ==> SlotIndex(s.states, i.slot) < |s.states|
    ensures Sound(decls, s, Execute(c, i, s, power))
  {
    if IsStateful(i.op) {
      TimerIsSound(decls, c, i, s, power);
    } else if i.op == OP_RES {
      ResetIsSound(decls, c, i, s, power);
    } else if i.op <= OP_ONS || OP_EQ <= i.op <= OP_LE {
      BitIsSound(decls, c, i, s, power);
    } else if i.op == OP_MOV || i.op == OP_CLR {
      MoveIsSound(decls, c, i, s, power);
    } else {
      MathIsSound(decls, c, i, s, power);
    }
  }

  /** The invariant of every run over an accepted program. */
  predicate Consistent(decls: seq<Decl>, slots: seq<int>, s: Store) {
    WellTyped(decls, s) && HasSlots(s.states, slots)
  }

  lemma {:induction false} StepsAreSafe(decls: seq<Decl>, slots: seq<int>, c: Context, code: seq<Instr>)
    requires forall i | i in code :: InstrOk(decls, i)
    requires forall i | i in code && IsStateful(i.op) :: i.slot in slots
    ensures Safe(RuntimeMachine(c), code, (s: Store) => Consistent(decls, slots, s), Allowed)
  {
    var m := RuntimeMachine(c);
    var inv := (s: Store) => Consistent(decls, slots, s);
    forall i, s: Store, power: bool | i in code && !IsControl(i.op) && inv(s)
      ensures Kept(m.exec(i, s, power), inv, Allowed)
    {
      if IsStateful(i.op) {
        SlotIsFound(s.states, slots, i.slot);
      }
      ExecuteIsSound(decls, c, i, s, power);
    }
  }

  /** A stretch of an accepted program whose brackets close: from any consistent store the run
   *  ends at the end of the stretch, or in an allowed fault, always in a consistent store. */
  lemma {:induction false} RunIsSound(
      decls: seq<Decl>, slots: seq<int>, c: Context, code: seq<Instr>, s: Store, power: bool)
    requires forall i | i in code :: InstrOk(decls, i)
    requires forall i | i in code && IsStateful(i.op) :: i.slot in slots
    requires Balanced(code, []) && Consistent(decls, slots, s)
    ensures var o := Run(RuntimeMachine(c), code, s, power, 0);
            && !o.RanOff?
            && (o.Done? ==> o.rest == [])
            && (o.Faulted? ==> Allowed(o.fault))
            && Consistent(decls, slots, o.st)
  {
    StepsAreSafe(decls, slots, c, code);
    assert NoEndMarker(code);
    RunStaysInside(RuntimeMachine(c), code, [], s, power, 0);
    RunKeeps(RuntimeMachine(c), code, s, power, 0, (s: Store) => Consistent(decls, slots, s), Allowed);
  }
}
