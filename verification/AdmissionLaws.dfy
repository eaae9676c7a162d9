/** The records the validator accepts, opcode by opcode. */
module AdmissionLaws {
  import opened Bytes
  import opened Instructions
  import opened Admission

  /** A whole tag of the type. */
  predicate Plain(decls: seq<Decl>, o: Operand, typ: int) {
    o.kind == 1 && o.member == 0 && o.raw < |decls| && o.typ == typ && decls[o.raw].typ == typ
  }

  /** A whole tag of the type that is not an input. */
  predicate Writable(decls: seq<Decl>, o: Operand, typ: int) {
    Plain(decls, o, typ) && decls[o.raw].storage != 1
  }

  /** A literal, a whole tag, or a member of a timer or counter: 1 and 2 are DINT, the flags are BOOL. */
  predicate Readable(decls: seq<Decl>, o: Operand, typ: int) {
    || (o.kind == 2 && o.member == 0 && o.typ == typ)
    || Plain(decls, o, typ)
    || (&& o.kind == 1 && o.raw < |decls| && o.typ == typ
        && ((decls[o.raw].typ == 4 && 1 <= o.member <= 5) || (decls[o.raw].typ == 5 && 1 <= o.member <= 9))
        && if o.member <= 2 then typ == 2 else typ == 1 && (decls[o.raw].typ == 4 || o.member >= 5))
  }

  predicate ReadableNumber(decls: seq<Decl>, o: Operand) {
    Readable(decls, o, 2) || Readable(decls, o, 3)
  }

  predicate WritableNumber(decls: seq<Decl>, o: Operand) {
    Writable(decls, o, 2) || Writable(decls, o, 3)
  }

  /** The operands an opcode takes. */
  predicate Operands(decls: seq<Decl>, op: byte, args: seq<Operand>) {
    if op == 1 || op == 2 then |args| == 1 && Plain(decls, args[0], 1)
    else if 3 <= op <= 6 then |args| == 1 && Writable(decls, args[0], 1)
    else if op == 16 then |args| == 1 && Plain(decls, args[0], 4)
    else if op == 17 || op == 18 then |args| == 1 && Plain(decls, args[0], 5)
    else if op == 19 then |args| == 1 && (Plain(decls, args[0], 4) || Plain(decls, args[0], 5))
    else if 32 <= op <= 37 then |args| == 2 && ReadableNumber(decls, args[0]) && ReadableNumber(decls, args[1])
    else if op == 48 then
      && |args| == 2 && (ReadableNumber(decls, args[0]) || Readable(decls, args[0], 1))
      && (WritableNumber(decls, args[1]) || Writable(decls, args[1], 1))
    else if op == 49 then |args| == 1 && (WritableNumber(decls, args[0]) || Writable(decls, args[0], 1))
    else if 50 <= op <= 53 then
      |args| == 3 && ReadableNumber(decls, args[0]) && ReadableNumber(decls, args[1]) && WritableNumber(decls, args[2])
    else if op == 54 || op == 55 then |args| == 2 && ReadableNumber(decls, args[0]) && WritableNumber(decls, args[1])
    else 240 <= op <= 243 && args == []
  }

  lemma {:induction false} OneOperand(decls: seq<Decl>, i: Instr)
    requires (1 <= i.op <= 6 || 16 <= i.op <= 19 || i.op == 49) && forall d | d in decls :: DeclOk(d)
    ensures InstrOk(decls, i) <==>
            Operands(decls, i.op, i.args) && if 16 <= i.op <= 18 then i.slot >= 0 else i.slot == -1
  {
  }

  lemma {:induction false} TwoOperands(decls: seq<Decl>, i: Instr)
    requires (32 <= i.op <= 37 || i.op == 48 || i.op == 54 || i.op == 55) && forall d | d in decls :: DeclOk(d)
    ensures InstrOk(decls, i) <==> Operands(decls, i.op, i.args) && i.slot == -1
  {
  }

  lemma {:induction false} ThreeOperands(decls: seq<Decl>, i: Instr)
    requires 50 <= i.op <= 53 && forall d | d in decls :: DeclOk(d)
    ensures InstrOk(decls, i) <==> Operands(decls, i.op, i.args) && i.slot == -1
  {
  }

  lemma {:induction false} NoOperands(decls: seq<Decl>, i: Instr)
    requires !(1 <= i.op <= 6) && !(16 <= i.op <= 19) && !(32 <= i.op <= 37) && !(48 <= i.op <= 55)
    ensures InstrOk(decls, i) <==> Operands(decls, i.op, i.args) && i.slot == -1
  {
  }

  /** A record is accepted if and only if its opcode takes its operands, and it has a slot exactly where it
   *  is a timer or counter. */
  lemma {:induction false} AcceptedRecords(decls: seq<Decl>, i: Instr)
    requires forall d | d in decls :: DeclOk(d)
    ensures InstrOk(decls, i) <==>
            Operands(decls, i.op, i.args) && if 16 <= i.op <= 18 then i.slot >= 0 else i.slot == -1
  {
    hide InstrOk, Operands, DeclOk;
    if 1 <= i.op <= 6 || 16 <= i.op <= 19 || i.op == 49 {
      OneOperand(decls, i);
    } else if 32 <= i.op <= 37 || i.op == 48 || i.op == 54 || i.op == 55 {
      TwoOperands(decls, i);
    } else if 50 <= i.op <= 53 {
      ThreeOperands(decls, i);
    } else {
      NoOperands(decls, i);
    }
  }
}
