/** Projects as the compiler sees them, and the intermediate form it lowers them to. */
module Source {
  import opened Bytes
  import opened Instructions
  import opened LadderTree

  datatype DataType = BOOL | DINT | REAL | TIMER | COUNTER

  datatype Member = PRE | ACC | EN | TT | DN | CU | CD | OV | UN

  datatype Mnemonic =
    | XIC | XIO | OTE | OTL | OTU | ONS
    | TON | CTU | CTD | RES
    | EQ | NE | GT | GE | LT | LE
    | MOV | CLR | ADD | SUB | MUL | DIV | NEG | ABS

  /** A REAL literal is given as the binary32 bits it is packed to; one too large for binary32, which
   *  cannot be packed, is WideReal. */
  datatype Literal = BoolLit(b: bool) | DintLit(v: int) | RealLit(bits: uint32) | WideReal

  datatype SourceOperand = TagRef(tagId: nat, member: Option<Member>) | LiteralOf(lit: Literal)

  datatype SourceInstr = SourceInstr(mnemonic: Mnemonic, operands: seq<SourceOperand>)

  /** Tag identities are UUIDs, of which the compiler uses only equality and order. */
  datatype SourceTag = SourceTag(tagId: nat, dataType: DataType, initial: Option<Literal>, preset: Option<int>,
    writable: bool, retentive: bool)

  type Rung = seq<Node<SourceInstr>>

  /** The routines of all programs, in order. */
  datatype Controller = Controller(tags: seq<SourceTag>, routines: seq<seq<Rung>>)

  datatype Storage = INTERNAL | INPUT | OUTPUT

  /** The direction of the endpoint each bound tag is bound to. */
  type Directions = map<nat, Storage>

  // ----- codes -----

  function Opcode(m: Mnemonic): byte {
    match m
    case XIC => OP_XIC case XIO => OP_XIO case OTE => OP_OTE case OTL => OP_OTL case OTU => OP_OTU case ONS => OP_ONS
    case TON => OP_TON case CTU => OP_CTU case CTD => OP_CTD case RES => OP_RES
    case EQ => OP_EQ case NE => OP_NE case GT => OP_GT case GE => OP_GE case LT => OP_LT case LE => OP_LE
    case MOV => OP_MOV case CLR => OP_CLR case ADD => OP_ADD case SUB => OP_SUB
    case MUL => OP_MUL case DIV => OP_DIV case NEG => OP_NEG case ABS => OP_ABS
  }

  function DataTypeCode(t: DataType): byte {
    match t
    case BOOL => 1 case DINT => 2 case REAL => 3 case TIMER => 4 case COUNTER => 5
  }

  function StorageCode(s: Storage): byte {
    match s
    case INTERNAL => 0 case INPUT => 1 case OUTPUT => 2
  }

  function MemberCode(m: Option<Member>): byte {
    match m
    case None => 0
    case Some(x) =>
      match x
      case PRE => 1 case ACC => 2 case EN => 3 case TT => 4 case DN => 5
      case CU => 6 case CD => 7 case OV => 8 case UN => 9
  }

  function LiteralType(l: Literal): DataType {
    match l
    case BoolLit(_) => BOOL case DintLit(_) => DINT case RealLit(_) => REAL case WideReal => REAL
  }

  function MemberDataType(m: Member): DataType {
    if m == PRE || m == ACC then DINT else BOOL
  }

  // ----- the intermediate form -----

  datatype IRTag = IRTag(dataType: DataType, storage: Storage, initial: Option<Literal>, retentive: bool)

  datatype IROperand = IRTagOperand(dataType: DataType, id: nat, member: Option<Member>) | IRLiteral(lit: Literal)

  datatype IRInstr = IRInstr(id: nat, opcode: byte, operands: seq<IROperand>, slot: Option<nat>)

  datatype IRRung = IRRung(routine: nat, start: nat, count: nat)

  datatype IRProgram = IRProgram(tags: seq<IRTag>, instructions: seq<IRInstr>, rungs: seq<IRRung>, branches: nat)

  /** `'<i'` of a DINT literal as the word it packs to. */
  function LiteralBits(l: Literal): nat {
    match l
    case BoolLit(b) => if b then 1 else 0
    case DintLit(v) => v % 0x1_0000_0000
    case RealLit(bits) => bits
    case WideReal => 0
  }

  function AssembleOperand(o: IROperand): Operand {
    match o
    case IRTagOperand(typ, id, member) => Operand(1, DataTypeCode(typ), MemberCode(member), id)
    case IRLiteral(l) => Operand(2, DataTypeCode(LiteralType(l)), 0, LiteralBits(l))
  }

  function Assemble(i: IRInstr): Instr {
    Instr(i.opcode, i.id, match i.slot case None => -1 case Some(n) => n,
          seq(|i.operands|, k requires 0 <= k < |i.operands| => AssembleOperand(i.operands[k])))
  }

  function AssembleAll(s: seq<IRInstr>): seq<Instr> {
    seq(|s|, k requires 0 <= k < |s| => Assemble(s[k]))
  }

  // ----- encoding -----

  /** `struct.pack` raises on a DINT literal outside 32 bits and on a REAL literal outside binary32. */
  predicate LiteralPacks(o: IROperand) {
    o.IRLiteral? ==> !o.lit.WideReal? && (o.lit.DintLit? ==> INT32_MIN <= o.lit.v <= INT32_MAX)
  }

  predicate Encodes(i: IRInstr) {
    Packs(Assemble(i)) && forall o | o in i.operands :: LiteralPacks(o)
  }

  /** `encode_instruction_stream`: None where packing raises. */
  method EncodeStream(ir: seq<IRInstr>) returns (out: Option<seq<byte>>)
    ensures out.Some? <==> forall i | i in ir :: Encodes(i)
    ensures out.Some? ==> Encodable(AssembleAll(ir)) && out.value == EncodeAll(AssembleAll(ir))
  {
    hide Encode, Packs, LiteralPacks, Assemble;
    var bytes: seq<byte> := [];
    var n := 0;
    while n < |ir|
      invariant 0 <= n <= |ir|
      invariant forall k | 0 <= k < n :: Encodes(ir[k])
      invariant Encodable(AssembleAll(ir[..n])) && bytes == EncodeAll(AssembleAll(ir[..n]))
    {
      var i := ir[n];
      var record := EncodeOne(i);
      if record.None? {
        return None;
      }
      assert AssembleAll(ir[..n + 1]) == AssembleAll(ir[..n]) + [Assemble(i)];
      EncodeAllAppend(AssembleAll(ir[..n]), [Assemble(i)]);
      EncodeSingle(Assemble(i));
      bytes := bytes + record.value;
      n := n + 1;
    }
    assert ir[..n] == ir;
    out := Some(bytes);
  }

  lemma {:induction false} EncodeSingle(i: Instr)
    requires Packs(i)
    ensures Encodable([i]) && EncodeAll([i]) == Encode(i)
  {
    assert [i][1..] == [];
    assert Encode(i) + [] == Encode(i);
  }

  method EncodeOne(i: IRInstr) returns (out: Option<seq<byte>>)
    ensures out.Some? <==> Encodes(i)
    ensures out.Some? ==> out.value == Encode(Assemble(i))
  {
    hide Le32, Unsigned, DataTypeCode, MemberCode, LiteralType, EncodeOperands;
    var slot: int := match i.slot case None => -1 case Some(n) => n;
    if |i.operands| >= 0x100 || i.id > UINT32_MAX || slot > INT32_MAX {
      return None;
    }
    var bytes: seq<byte> := [i.opcode, |i.operands|, 0, 0] + Le32(i.id) + Le32(Unsigned(slot));
    ghost var head, all := bytes, Assemble(i).args;
    NoOperands(all);
    var k := 0;
    while k < |i.operands|
      invariant 0 <= k <= |i.operands|
      invariant forall j | 0 <= j < k :: LiteralPacks(i.operands[j]) && all[j].raw <= UINT32_MAX
      invariant OperandsPack(all[..k]) && bytes == head + EncodeOperands(all[..k])
    {
      var o := i.operands[k];
      var r := AssembleOperand(o);
      if !LiteralPacks(o) || r.raw > UINT32_MAX {
        assert all[k] == r && all[k] in all && o in i.operands;
        return None;
      }
      OperandsSnoc(all, k);
      bytes := bytes + [r.kind, r.typ, r.member, 0] + Le32(r.raw);
      k := k + 1;
    }
    assert all[..k] == all;
    out := Some(bytes);
  }

  lemma {:induction false} NoOperands(all: seq<Operand>)
    ensures EncodeOperands(all[..0]) == []
  {
  }

  lemma {:induction false} OperandsSnoc(all: seq<Operand>, k: nat)
    requires k < |all| && OperandsPack(all[..k]) && all[k].raw <= UINT32_MAX
    ensures OperandsPack(all[..k + 1])
            && EncodeOperands(all[..k + 1]) == EncodeOperands(all[..k]) + EncodeOperand(all[k])
  {
    if k == 0 {
      assert all[..1] == [all[0]] && [all[0]][1..] == [];
      assert EncodeOperand(all[0]) + [] == [] + EncodeOperand(all[0]);
    } else {
      assert all[..k][0] == all[0] && all[..k][1..] == all[1..][..k - 1] && all[..k + 1][1..] == all[1..][..k];
      OperandsSnoc(all[1..], k - 1);
    }
  }
}
