/** What each instruction does, stated on the tags and their forces: the laws that tie the interpreter's
 *  instructions to their meaning. */
module InstructionLaws {
  import opened Bytes
  import opened Instructions
  import opened ControlFlow
  import opened Semantics

  /** The codes of the instruction set. */
  lemma {:induction false} Codes()
    ensures OP_XIC == 1 && OP_XIO == 2 && OP_OTE == 3 && OP_OTL == 4 && OP_OTU == 5 && OP_ONS == 6
    ensures OP_TON == 16 && OP_CTU == 17 && OP_CTD == 18 && OP_RES == 19
    ensures OP_EQ == 32 && OP_NE == 33 && OP_GT == 34 && OP_GE == 35 && OP_LT == 36 && OP_LE == 37
    ensures OP_MOV == 48 && OP_CLR == 49 && OP_ADD == 50 && OP_SUB == 51 && OP_MUL == 52 && OP_DIV == 53
    ensures OP_NEG == 54 && OP_ABS == 55
    ensures OP_BRANCH_BEGIN == 240 && OP_LANE_BEGIN == 241 && OP_LANE_END == 242 && OP_BRANCH_END == 243
  {
  }

  // ----- values of tags -----

  /** The tag stores the value. */
  predicate Stores(s: Store, id: nat, v: Value) {
    id < |s.tags| && match v
                     case BoolV(b) => s.tags[id].data == BoolD(b)
                     case DintV(d) => s.tags[id].data == DintD(d)
                     case RealV(r) => s.tags[id].data == RealD(r)
  }

  /** The tag shows the value: its force where it has one, the stored value where it has none. */
  predicate Shows(s: Store, id: nat, v: Value) {
    && id < |s.tags| && (s.tags[id].data.BoolD? || s.tags[id].data.DintD? || s.tags[id].data.RealD?)
    && match s.forces[id]
       case Some(f) => v == f
       case None => Stores(s, id, v)
  }

  /** The member of the timer or counter is the value. */
  predicate MemberShows(s: Store, id: nat, member: byte, v: Value) {
    id < |s.tags| && match s.tags[id].data
                     case TimerD(pre, acc, en, tt, dn) =>
                       || (member == 1 && v == DintV(pre)) || (member == 2 && v == DintV(acc))
                       || (member == 3 && v == BoolV(en)) || (member == 4 && v == BoolV(tt))
                       || (member == 5 && v == BoolV(dn))
                     case CounterD(pre, acc, cu, cd, dn, ov, un) =>
                       || (member == 1 && v == DintV(pre)) || (member == 2 && v == DintV(acc))
                       || (member == 5 && v == BoolV(dn)) || (member == 6 && v == BoolV(cu))
                       || (member == 7 && v == BoolV(cd)) || (member == 8 && v == BoolV(ov))
                       || (member == 9 && v == BoolV(un))
                     case _ => false
  }

  /** The operand denotes the value. */
  predicate Denotes(s: Store, o: Operand, v: Value) {
    if o.kind == 1 then
      if o.member == 0 then Shows(s, o.raw, v) else MemberShows(s, o.raw, o.member, v)
    else
      || (o.typ == 1 && v == BoolV(o.raw != 0))
      || (o.typ == 2 && v.DintV? && (v.d - o.raw) % 0x1_0000_0000 == 0)
      || (o.typ == 3 && v.RealV? && (v.bits - o.raw) % 0x1_0000_0000 == 0)
  }

  /** Reading an operand yields exactly what it denotes: a tag under its force, a member, a literal. */
  lemma {:induction false} ReadDenotes(s: Store, o: Operand, v: Value)
    ensures Read(s, o) == Some(v) <==> Denotes(s, o, v)
  {
    if o.kind != 1 && o.typ == 2 && v.DintV? {
      SignedWord(v.d, o.raw);
    } else if o.kind != 1 && o.typ == 3 && v.RealV? {
      SameWord(v.bits, o.raw);
    }
  }

  lemma {:induction false} SameWord(x: uint32, raw: nat)
    ensures Low32(raw) == x <==> (x - raw) % 0x1_0000_0000 == 0
  {
  }

  lemma {:induction false} SignedWord(d: int32, raw: nat)
    ensures Signed(Low32(raw)) == d <==> (d - raw) % 0x1_0000_0000 == 0
  {
  }

  /** An operand denotes one value at most. */
  lemma {:induction false} DenotesOne(s: Store, o: Operand, v: Value, w: Value)
    requires Denotes(s, o, v) && Denotes(s, o, w)
    ensures v == w
  {
    ReadDenotes(s, o, v);
    ReadDenotes(s, o, w);
  }

  /** Only the data of one tag changed. */
  predicate OnlyTag(s: Store, s1: Store, id: nat) {
    && id < |s.tags| == |s1.tags| && s1.forces == s.forces
    && s1.tags[id].storage == s.tags[id].storage
    && forall k | 0 <= k < |s.tags| && k != id :: s1.tags[k] == s.tags[k]
  }

  /** The instruction passed this power on, and the tag now stores the value; nothing else changed. */
  predicate Assigns(e: Effect<Store, FaultRecord>, s: Store, id: nat, v: Value, power: bool) {
    e.Passed? && e.power == power && OnlyTag(s, e.st, id) && e.st.states == s.states && Stores(e.st, id, v)
  }

  /** A plain tag that instructions may write, of the type of the value. */
  predicate Destination(s: Store, o: Operand, v: Value) {
    && o.kind == 1 && o.member == 0 && o.raw < |s.tags| && s.tags[o.raw].storage != 1
    && match v
       case BoolV(_) => s.tags[o.raw].data.BoolD?
       case DintV(_) => s.tags[o.raw].data.DintD?
       case RealV(_) => s.tags[o.raw].data.RealD?
  }

  predicate Numeric(v: Value) {
    v.DintV? || v.RealV?
  }

  // ----- bits -----

  lemma {:induction false} Contacts(c: Context, i: Instr, s: Store, power: bool, b: bool)
    requires (i.op == OP_XIC || i.op == OP_XIO) && |i.args| == 1 && Denotes(s, i.args[0], BoolV(b))
    ensures i.op == OP_XIC ==> Execute(c, i, s, power) == Passed(s, power && b)
    ensures i.op == OP_XIO ==> Execute(c, i, s, power) == Passed(s, power && !b)
  {
    ReadDenotes(s, i.args[0], BoolV(b));
  }

  /** The power in front of the two contacts on a tag goes through exactly one of them. */
  lemma {:induction false} ContactsSplit(c: Context, xic: Instr, xio: Instr, s: Store, power: bool, b: bool)
    requires xic.op == OP_XIC && xio.op == OP_XIO && |xic.args| == 1 && xio.args == xic.args
    requires Denotes(s, xic.args[0], BoolV(b))
    ensures var x, y := Execute(c, xic, s, power), Execute(c, xio, s, power);
            x.Passed? && y.Passed? && (x.power || y.power <==> power) && !(x.power && y.power)
  {
    Contacts(c, xic, s, power, b);
    Contacts(c, xio, s, power, b);
  }

  lemma {:induction false} DestinationReads(s: Store, o: Operand, v: Value)
    requires Destination(s, o, v)
    ensures Read(s, o).Some?
    ensures Write(s, o, v).Some? && OnlyTag(s, Write(s, o, v).value, o.raw)
            && Write(s, o, v).value.states == s.states && Stores(Write(s, o, v).value, o.raw, v)
  {
  }

  /** OTE stores its power; OTL and OTU store true and false under power, and nothing without. */
  lemma {:induction false} Coils(c: Context, i: Instr, s: Store, power: bool)
    requires |i.args| == 1 && Destination(s, i.args[0], BoolV(power))
    ensures var e, id := Execute(c, i, s, power), i.args[0].raw;
            && (i.op == OP_OTE ==> Assigns(e, s, id, BoolV(power), power))
            && (i.op == OP_OTL && power ==> Assigns(e, s, id, BoolV(true), power))
            && (i.op == OP_OTU && power ==> Assigns(e, s, id, BoolV(false), power))
            && ((i.op == OP_OTL || i.op == OP_OTU) && !power ==> e == Passed(s, power))
  {
    hide Write, Read;
    DestinationReads(s, i.args[0], BoolV(power));
    DestinationReads(s, i.args[0], BoolV(true));
    DestinationReads(s, i.args[0], BoolV(false));
  }

  /** ONS passes power when its storage does not show it yet, and stores its input. */
  lemma {:induction false} OneShots(c: Context, i: Instr, s: Store, power: bool, b: bool)
    requires i.op == OP_ONS && |i.args| == 1 && i.args[0].typ == 1
    requires Destination(s, i.args[0], BoolV(power)) && Denotes(s, i.args[0], BoolV(b))
    ensures Assigns(Execute(c, i, s, power), s, i.args[0].raw, BoolV(power), power && !b)
  {
    ReadDenotes(s, i.args[0], BoolV(b));
    hide Write, Read;
    DestinationReads(s, i.args[0], BoolV(power));
  }

  // ----- comparisons -----

  predicate IsComparison(op: byte) {
    op == OP_EQ || op == OP_NE || op == OP_GT || op == OP_GE || op == OP_LT || op == OP_LE
  }

  /** Comparisons of DINTs are those of the numbers; those that involve a REAL are the host's. */
  lemma {:induction false} Comparisons(c: Context, i: Instr, s: Store, power: bool, x: Value, y: Value)
    requires IsComparison(i.op) && |i.args| == 2 && Numeric(x) && Numeric(y)
    requires Denotes(s, i.args[0], x) && Denotes(s, i.args[1], y)
    ensures var e := Execute(c, i, s, power);
            && e.Passed? && e.st == s
            && (x.DintV? && y.DintV? ==>
                  && (i.op == OP_EQ ==> e.power == (power && x.d == y.d))
                  && (i.op == OP_NE ==> e.power == (power && x.d != y.d))
                  && (i.op == OP_GT ==> e.power == (power && x.d > y.d))
                  && (i.op == OP_GE ==> e.power == (power && x.d >= y.d))
                  && (i.op == OP_LT ==> e.power == (power && x.d < y.d))
                  && (i.op == OP_LE ==> e.power == (power && x.d <= y.d)))
            && (x.RealV? || y.RealV? ==> e.power == (power && c.reals.compare(i.op, x, y)))
  {
    ReadDenotes(s, i.args[0], x);
    ReadDenotes(s, i.args[1], y);
    hide Read;
  }

  // ----- moving and clearing -----

  /** MOV makes the destination store the source: as it is, or converted between DINT and REAL; where
   *  a REAL does not convert it faults. Without power it does nothing. */
  lemma {:induction false} Moves(c: Context, i: Instr, s: Store, power: bool, x: Value, z: Value)
    requires i.op == OP_MOV && |i.args| == 2 && Denotes(s, i.args[0], x) && Destination(s, i.args[1], z)
    ensures var e, id := Execute(c, i, s, power), i.args[1].raw;
            && (!power ==> e == Passed(s, power))
            && (power && (x.BoolV? <==> z.BoolV?) && (x.DintV? <==> z.DintV?) ==> Assigns(e, s, id, x, power))
            && (power && x.DintV? && z.RealV? ==> Assigns(e, s, id, RealV(c.reals.ofDint(x.d)), power))
            && (power && x.RealV? && z.DintV? ==>
                  match c.reals.toDint(x.bits)
                  case Some(d) => Assigns(e, s, id, DintV(d), power)
                  case None => e == Failed(s, FaultRecord(NUMERIC, 1, i.id, i.op, id)))
            && (power && (x.BoolV? <==> !z.BoolV?) ==> e == Failed(s, FaultRecord(NUMERIC, 1, i.id, i.op, id)))
  {
    ReadDenotes(s, i.args[0], x);
    hide Write, Read;
    DestinationReads(s, i.args[1], z);
    DestinationReads(s, i.args[1], if (x.BoolV? <==> z.BoolV?) && (x.DintV? <==> z.DintV?) then x else z);
    if x.DintV? && z.RealV? {
      DestinationReads(s, i.args[1], RealV(c.reals.ofDint(x.d)));
    }
    if x.RealV? && z.DintV? && c.reals.toDint(x.bits).Some? {
      DestinationReads(s, i.args[1], DintV(c.reals.toDint(x.bits).value));
    }
  }

  /** CLR stores the zero of the tag's type. */
  lemma {:induction false} Clears(c: Context, i: Instr, s: Store, power: bool, z: Value)
    requires i.op == OP_CLR && |i.args| == 1 && Destination(s, i.args[0], z)
    requires z == BoolV(false) || z == DintV(0) || z == RealV(0)
    ensures var e := Execute(c, i, s, power);
            if power then Assigns(e, s, i.args[0].raw, z, power) else e == Passed(s, power)
  {
    hide Write, Read;
    DestinationReads(s, i.args[0], z);
  }

  // ----- arithmetic -----

  /** q is the quotient rounded toward zero: what remains is smaller than the divisor and has the sign
   *  of the dividend. */
  predicate Divides(a: int, b: int, q: int) {
    var r := a - q * b;
    && (if b < 0 then b < r < -b else -b < r < b)
    && (a >= 0 ==> r >= 0) && (a <= 0 ==> r <= 0)
  }

  lemma {:induction false} Products(k: int, n: int)
    ensures (-k) * n == -(k * n) && k * (-n) == -(k * n) && (-k) * (-n) == k * n
  {
  }

  lemma {:induction false} QuotientDivides(a: int, b: int)
    requires b != 0
    ensures Divides(a, b, Quotient(a, b))
  {
    var m, n := if a < 0 then -a else a, if b < 0 then -b else b;
    var k, r := m / n, m % n;
    var p := k * n;
    assert m == p + r && 0 <= r < n;
    Products(k, n);
    var q := Quotient(a, b);
    assert q == (if (a < 0) == (b < 0) then k else -k) && b == (if b < 0 then -n else n);
    assert q * b == if a < 0 then -p else p;
  }

  /** The result of the arithmetic of DINTs. */
  predicate Result(op: byte, a: int, b: int, q: int) {
    && (op == OP_ADD ==> q == a + b)
    && (op == OP_SUB ==> q == a - b)
    && (op == OP_MUL ==> q == a * b)
    && (op == OP_DIV ==> Divides(a, b, q))
  }

  predicate StoresOrOverflows(e: Effect<Store, FaultRecord>, s: Store, i: Instr, id: nat, q: int, power: bool) {
    if INT32_MIN <= q <= INT32_MAX then Assigns(e, s, id, DintV(q), power)
    else e == Failed(s, FaultRecord(NUMERIC, 3, i.id, i.op, id))
  }

  predicate IsMath(op: byte) {
    op == OP_ADD || op == OP_SUB || op == OP_MUL || op == OP_DIV
  }

  /** On DINTs ADD, SUB, MUL and DIV store the exact result, or fault and change nothing: a zero
   *  divisor, or a result beyond 32 bits. */
  lemma {:induction false} DintArithmetic(c: Context, i: Instr, s: Store, power: bool, x: int32, y: int32)
    requires IsMath(i.op) && |i.args| == 3
    requires Denotes(s, i.args[0], DintV(x)) && Denotes(s, i.args[1], DintV(y)) && Destination(s, i.args[2], DintV(0))
    ensures var e, id := Execute(c, i, s, power), i.args[2].raw;
            if !power then e == Passed(s, power)
            else if i.op == OP_DIV && y == 0 then e == Failed(s, FaultRecord(NUMERIC, 2, i.id, i.op, id))
            else exists q :: Result(i.op, x, y, q) && StoresOrOverflows(e, s, i, id, q, power)
  {
    ReadDenotes(s, i.args[0], DintV(x));
    ReadDenotes(s, i.args[1], DintV(y));
    hide Write, Read, Divides, Quotient;
    if power && !(i.op == OP_DIV && y == 0) {
      var q: int := if i.op == OP_DIV then Quotient(x, y)
                    else if i.op == OP_ADD then x + y else if i.op == OP_SUB then x - y else x * y;
      if i.op == OP_DIV {
        QuotientDivides(x, y);
      }
      assert Result(i.op, x, y, q);
      if INT32_MIN <= q <= INT32_MAX {
        DestinationReads(s, i.args[2], DintV(q));
        assert Math(c.reals, i.op, s.tags[i.args[2].raw].data, DintV(x), DintV(y)) == Answer(DintV(q));
      }
    }
  }

  /** A number as a REAL. */
  predicate AsReal(reals: RealOps, v: Value, bits: uint32) {
    match v
    case DintV(d) => bits == reals.ofDint(d)
    case RealV(r) => bits == r
    case BoolV(_) => false
  }

  /** Into a REAL the host's arithmetic is stored, unless the divisor is zero or the result is not
   *  finite. */
  lemma {:induction false} RealArithmetic(
      c: Context, i: Instr, s: Store, power: bool, x: Value, y: Value, a: uint32, b: uint32, old0: uint32)
    requires IsMath(i.op) && |i.args| == 3 && Denotes(s, i.args[0], x) && Denotes(s, i.args[1], y)
    requires AsReal(c.reals, x, a) && AsReal(c.reals, y, b) && Destination(s, i.args[2], RealV(old0))
    ensures var e, id, q := Execute(c, i, s, power), i.args[2].raw, c.reals.arith(i.op, a, b);
            if !power then e == Passed(s, power)
            else if i.op == OP_DIV && c.reals.isZero(b) then e == Failed(s, FaultRecord(NUMERIC, 2, i.id, i.op, id))
            else if c.reals.isFinite(q) then Assigns(e, s, id, RealV(q), power)
            else e == Failed(s, FaultRecord(NUMERIC, 3, i.id, i.op, id))
  {
    ReadDenotes(s, i.args[0], x);
    ReadDenotes(s, i.args[1], y);
    hide Write, Read;
    DestinationReads(s, i.args[2], RealV(c.reals.arith(i.op, a, b)));
  }

  /** A REAL does not go into a DINT by arithmetic. */
  lemma {:induction false} MixedArithmetic(c: Context, i: Instr, s: Store, x: Value, y: Value)
    requires IsMath(i.op) && |i.args| == 3 && Denotes(s, i.args[0], x) && Denotes(s, i.args[1], y)
    requires Numeric(x) && Numeric(y) && (x.RealV? || y.RealV?) && Destination(s, i.args[2], DintV(0))
    ensures Execute(c, i, s, true) == Failed(s, FaultRecord(EXECUTION, 14, i.id, i.op, i.args[2].raw))
  {
    ReadDenotes(s, i.args[0], x);
    ReadDenotes(s, i.args[1], y);
    hide Read;
  }

  /** NEG and ABS of a DINT: the opposite and the magnitude, but for the least DINT, which has neither. */
  lemma {:induction false} DintSigns(c: Context, i: Instr, s: Store, power: bool, x: int32)
    requires (i.op == OP_NEG || i.op == OP_ABS) && |i.args| == 2
    requires Denotes(s, i.args[0], DintV(x)) && Destination(s, i.args[1], DintV(0))
    ensures var e, id := Execute(c, i, s, power), i.args[1].raw;
            if !power then e == Passed(s, power)
            else if x == INT32_MIN then e == Failed(s, FaultRecord(NUMERIC, 3, i.id, i.op, id))
            else if i.op == OP_NEG then Assigns(e, s, id, DintV(-x), power)
            else Assigns(e, s, id, DintV(if x < 0 then -x else x), power)
  {
    ReadDenotes(s, i.args[0], DintV(x));
    hide Write, Read;
    if x > INT32_MIN {
      DestinationReads(s, i.args[1], DintV(-x));
      DestinationReads(s, i.args[1], DintV(if x < 0 then -x else x));
    }
  }

  lemma {:induction false} RealSigns(c: Context, i: Instr, s: Store, power: bool, x: Value, a: uint32, old0: uint32)
    requires (i.op == OP_NEG || i.op == OP_ABS) && |i.args| == 2
    requires Denotes(s, i.args[0], x) && AsReal(c.reals, x, a) && Destination(s, i.args[1], RealV(old0))
    ensures var e, id := Execute(c, i, s, power), i.args[1].raw;
            if !power then e == Passed(s, power)
            else if i.op == OP_NEG then Assigns(e, s, id, RealV(c.reals.negate(a)), power)
            else Assigns(e, s, id, RealV(c.reals.absolute(a)), power)
  {
    ReadDenotes(s, i.args[0], x);
    hide Write, Read;
    DestinationReads(s, i.args[1], RealV(c.reals.negate(a)));
    DestinationReads(s, i.args[1], RealV(c.reals.absolute(a)));
  }

  lemma {:induction false} MixedSigns(c: Context, i: Instr, s: Store, x: Value)
    requires (i.op == OP_NEG || i.op == OP_ABS) && |i.args| == 2
    requires Denotes(s, i.args[0], x) && x.RealV? && Destination(s, i.args[1], DintV(0))
    ensures var e := Execute(c, i, s, true); e == Failed(s, FaultRecord(EXECUTION, 17, i.id, i.op, NO_ID))
  {
    ReadDenotes(s, i.args[0], x);
    hide Read;
  }

  // ----- timers and counters -----

  /** Record k is the one of the instruction. */
  predicate OwnRecord(s: Store, i: Instr, k: nat) {
    k < |s.states| && s.states[k].slot == i.slot && forall j | 0 <= j < k :: s.states[j].slot != i.slot
  }

  lemma {:induction false} OwnIndex(states: seq<StateRecord>, slot: int, k: nat)
    requires k < |states| && states[k].slot == slot && forall j | 0 <= j < k :: states[j].slot != slot
    ensures SlotIndex(states, slot) == k
  {
    if k > 0 {
      OwnIndex(states[1..], slot, k - 1);
    }
  }

  /** The tag and the record are these now; nothing else changed. */
  predicate Leaves(e: Effect<Store, FaultRecord>, s: Store, id: nat, d: Data, k: nat, r: StateRecord, power: bool) {
    && e.Passed? && e.power == power && OnlyTag(s, e.st, id) && e.st.tags[id].data == d
    && k < |s.states| == |e.st.states| && e.st.states[k] == r
    && forall j | 0 <= j < |s.states| && j != k :: e.st.states[j] == s.states[j]
  }

  /** TON adds the whole milliseconds since its last run and stays at the largest DINT; DN says whether
   *  ACC has reached PRE, and TT is its opposite. Without power it starts again. */
  lemma {:induction false} OnDelays(
      c: Context, i: Instr, s: Store, power: bool, k: nat, pre: int32, acc: int32, en: bool, tt: bool, dn: bool)
    requires i.op == OP_TON && |i.args| == 1 && i.args[0].kind == 1 && OwnRecord(s, i, k)
    requires i.args[0].raw < |s.tags| && s.tags[i.args[0].raw].data == TimerD(pre, acc, en, tt, dn)
    ensures var e, id, r := Execute(c, i, s, power), i.args[0].raw, s.states[k];
            if pre < 0 then e == Failed(s, FaultRecord(Category.TIMER, 3, i.id, i.op, id))
            else if !power then
              Leaves(e, s, id, TimerD(pre, 0, false, false, false), k, StateRecord(r.slot, r.edge, false, r.time),
                power)
            else
              var ms := if r.valid then ((c.tick - r.time) % 0x1_0000_0000_0000_0000) / 1000 else 0;
              var sum: int := acc + ms;
              var now: int32 := if sum > 0x7fff_ffff then 0x7fff_ffff else sum;
              Leaves(e, s, id, TimerD(pre, now, true, now < pre, now >= pre), k,
                StateRecord(r.slot, r.edge, true, c.tick), power)
  {
    OwnIndex(s.states, i.slot, k);
  }

  /** CTU and CTD count where their input rises, and wrap around with OV and UN. */
  lemma {:induction false} Counts(
      c: Context, i: Instr, s: Store, power: bool, k: nat,
      pre: int32, acc: int32, cu: bool, cd: bool, dn: bool, ov: bool, un: bool)
    requires (i.op == OP_CTU || i.op == OP_CTD) && |i.args| == 1 && i.args[0].kind == 1 && OwnRecord(s, i, k)
    requires i.args[0].raw < |s.tags| && s.tags[i.args[0].raw].data == CounterD(pre, acc, cu, cd, dn, ov, un)
    ensures var e, id, r := Execute(c, i, s, power), i.args[0].raw, s.states[k];
            var rise, next := power && !r.edge, StateRecord(r.slot, power, r.valid, r.time);
            && (i.op == OP_CTU ==>
                  var now: int32 := if !rise then acc else if acc == 0x7fff_ffff then -0x8000_0000 else acc + 1;
                  Leaves(e, s, id, CounterD(pre, now, power, cd, now >= pre, ov || (rise && acc == 0x7fff_ffff), un),
                    k, next, power))
            && (i.op == OP_CTD ==>
                  var now: int32 := if !rise then acc else if acc == -0x8000_0000 then 0x7fff_ffff else acc - 1;
                  Leaves(e, s, id, CounterD(pre, now, cu, power, now >= pre, ov, un || (rise && acc == -0x8000_0000)),
                    k, next, power))
  {
    OwnIndex(s.states, i.slot, k);
  }

  /** RES under power sets the timer or counter back, PRE aside, and with it the record of every visible
   *  instruction that drives it. */
  lemma {:induction false} Resets(c: Context, i: Instr, s: Store, power: bool)
    requires i.op == OP_RES && |i.args| == 1 && i.args[0].kind == 1 && i.args[0].raw < |s.tags|
    requires s.tags[i.args[0].raw].data.TimerD? || s.tags[i.args[0].raw].data.CounterD?
    ensures var e, id := Execute(c, i, s, power), i.args[0].raw;
            if !power then e == Passed(s, power)
            else
              && e.Passed? && e.power == power && OnlyTag(s, e.st, id) && |e.st.states| == |s.states|
              && (match s.tags[id].data
                  case TimerD(pre, _, _, _, _) => e.st.tags[id].data == TimerD(pre, 0, false, false, false)
                  case CounterD(pre, _, _, _, _, _, _) =>
                    e.st.tags[id].data == CounterD(pre, 0, false, false, false, false, false)
                  case _ => false)
              && (forall k | 0 <= k < |s.states| ::
                    e.st.states[k] == if SlotOf(c.visible, id, s.states[k].slot) then StateRecord(s.states[k].slot,
                      false, false, 0)
                                      else s.states[k])
  {
  }
}
