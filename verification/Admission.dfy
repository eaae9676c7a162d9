/** What the image validator demands of the instruction stream. */
module Admission {
  import opened Bytes
  import opened Instructions
  import opened Brackets

  /** Type and storage of a tag, as the runtime tag table declares them. */
  datatype Decl = Decl(typ: byte, storage: byte)

  predicate DeclOk(d: Decl) {
    1 <= d.typ <= 5 && d.storage <= 2
  }

  function MemberType(typ: byte, member: byte): byte {
    if typ == 4 then (if member == 1 || member == 2 then 2 else if 3 <= member <= 5 then 1 else 0)
    else if typ == 5 then (if member == 1 || member == 2 then 2 else if 5 <= member <= 9 then 1 else 0)
    else 0
  }

  /** The type an operand that names a tag has. */
  function OperandType(decls: seq<Decl>, o: Operand): byte
    requires o.raw < |decls|
  {
    if o.member != 0 then MemberType(decls[o.raw].typ, o.member) else decls[o.raw].typ
  }

  /** `tag_operand`. */
  predicate TagOperand(decls: seq<Decl>, o: Operand, typ: byte, writable: bool) {
    && o.kind == 1
    && o.raw < |decls| && o.typ == typ
    && OperandType(decls, o) == typ
    && (writable ==> o.member == 0 && decls[o.raw].storage != 1)
  }

  predicate ScalarType(typ: byte) {
    1 <= typ <= 3
  }

  /** `scalar_operand`. */
  predicate ScalarOperand(decls: seq<Decl>, o: Operand, numericOnly: bool) {
    if o.kind == 2 then o.member == 0 && ScalarType(o.typ) && (numericOnly ==> o.typ >= 2)
    else
      && o.kind == 1 && o.raw < |decls|
      && OperandType(decls, o) == o.typ
      && ScalarType(o.typ) && (numericOnly ==> o.typ >= 2)
  }

  /** `opcode_known`: the range of the compares and of the math runs through unused codes. */
  predicate OpcodeKnown(op: byte) {
    OP_XIC <= op <= OP_ONS || OP_TON <= op <= OP_RES || OP_EQ <= op <= OP_ABS || OP_BRANCH_BEGIN <= op <= OP_BRANCH_END
  }

  function Need(op: byte): nat {
    if op <= OP_ONS || op == OP_TON || op == OP_CTU || op == OP_CTD || op == OP_RES || op == OP_CLR then 1
    else if OP_EQ <= op <= OP_LE || op == OP_MOV || op == OP_NEG || op == OP_ABS then 2
    else 3
  }

  /** The operand checks common to all instructions. */
  predicate OperandOk(decls: seq<Decl>, o: Operand) {
    && 1 <= o.kind <= 2 && 1 <= o.typ <= 5
    && (o.kind == 1 ==> o.raw < |decls| && OperandType(decls, o) == o.typ)
    && (o.kind == 2 ==> o.member == 0)
  }

  /** `validate_operands`. */
  predicate OperandsOk(decls: seq<Decl>, i: Instr)
    requires !IsControl(i.op) && |i.args| == Need(i.op)
  {
    var a, op := i.args[0], i.op;
    if op == OP_XIC || op == OP_XIO || OP_OTE <= op <= OP_ONS then TagOperand(decls, a, 1, op >= OP_OTE)
    else if op == OP_TON then TagOperand(decls, a, 4, false)
    else if op == OP_CTU || op == OP_CTD then TagOperand(decls, a, 5, false)
    else if op == OP_RES then TagOperand(decls, a, 4, false) || TagOperand(decls, a, 5, false)
    else if OP_EQ <= op <= OP_LE then ScalarOperand(decls, a, true) && ScalarOperand(decls, i.args[1], true)
    else if op == OP_CLR then TagOperand(decls, a, a.typ, true) && ScalarType(a.typ)
    else if op == OP_MOV then
      ScalarOperand(decls, a, false) && TagOperand(decls, i.args[1], i.args[1].typ, true) && ScalarType(i.args[1].typ)
    else if OP_ADD <= op <= OP_DIV then
      && ScalarOperand(decls, a, true) && ScalarOperand(decls, i.args[1], true)
      && TagOperand(decls, i.args[2], i.args[2].typ, true) && 2 <= i.args[2].typ <= 3
    else if op == OP_NEG || op == OP_ABS then
      ScalarOperand(decls, a, true) && TagOperand(decls, i.args[1], i.args[1].typ, true) && 2 <= i.args[1].typ <= 3
    else false
  }

  /** The further checks on the first operand of bit, timer, counter and reset instructions. */
  predicate FirstOperandOk(decls: seq<Decl>, op: byte, a: Operand) {
    && (OP_XIC <= op <= OP_ONS ==> a.kind == 1 && a.typ == 1 && a.member == 0)
    && (IsStateful(op) || op == OP_RES ==> a.kind == 1 && a.member == 0)
    && (op == OP_TON ==> a.typ == 4)
    && (op == OP_CTU || op == OP_CTD ==> a.typ == 5)
    && (op == OP_RES ==> a.typ >= 4)
    && (OP_OTE <= op <= OP_ONS || op == OP_CLR ==> a.raw < |decls| ==> decls[a.raw].storage != 1)
  }

  /** All checks of one record that look neither at other records nor at the brackets. */
  predicate InstrOk(decls: seq<Decl>, i: Instr) {
    && OpcodeKnown(i.op) && |i.args| <= 3
    && if IsControl(i.op) then i.args == [] && i.slot == -1
       else
         && |i.args| == Need(i.op)
         && (if IsStateful(i.op) then i.slot >= 0 else i.slot == -1)
         && (forall o | o in i.args :: OperandOk(decls, o))
         && FirstOperandOk(decls, i.op, i.args[0])
         && OperandsOk(decls, i)
  }

  /** The state slots of the stream, in order: `state_slot_count` counts them and `load_image`
   *  lays out one record for each. */
  function Slots(code: seq<Instr>): seq<int> {
    if code == [] then [] else (if IsStateful(code[0].op) then [code[0].slot] else []) + Slots(code[1..])
  }

  /** Strictly increasing, and above a given last slot. */
  predicate Increasing(slots: seq<int>, last: int) {
    slots == [] || (last < slots[0] && Increasing(slots[1..], slots[0]))
  }

  /** The validator's verdict on the whole stream. */
  predicate StreamOk(decls: seq<Decl>, code: seq<Instr>) {
    && (forall i | i in code :: InstrOk(decls, i))
    && Increasing(Slots(code), -1)
    && Balanced(code, [])
  }

  lemma {:induction false} SlotsAppend(a: seq<Instr>, b: seq<Instr>)
    ensures Slots(a + b) == Slots(a) + Slots(b)
    decreases |a|
  {
    if a == [] {
      assert a + b == b;
    } else {
      assert (a + b)[0] == a[0] && (a + b)[1..] == a[1..] + b;
      SlotsAppend(a[1..], b);
    }
  }

  lemma {:induction false} SlotsMember(code: seq<Instr>, i: Instr)
    requires i in code && IsStateful(i.op)
    ensures i.slot in Slots(code)
    decreases |code|
  {
    if code[0] != i {
      SlotsMember(code[1..], i);
    }
  }

  lemma {:induction false} IncreasingOrder(slots: seq<int>, last: int, j: nat, k: nat)
    requires Increasing(slots, last) && j < k < |slots|
    ensures last < slots[j] < slots[k]
    decreases |slots|
  {
    if j > 0 {
      IncreasingOrder(slots[1..], slots[0], j - 1, k - 1);
    } else if k > 1 {
      IncreasingOrder(slots[1..], slots[0], 0, k - 1);
    }
  }
}
