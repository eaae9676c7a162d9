/** What the instructions of the reference engine and the words of the stack language do, stated on the
 *  tags and on the stack. */
module EngineLaws {
  import opened Bytes
  import opened LadderTree
  import opened Normaliser
  import opened StackMachine
  import opened Propeller

  // ----- the engine -----

  /** What a source reads as: a number, a scalar, or a member of a timer with its flags as 0 and 1. */
  predicate Reads(t: Tags, s: Source, v: int) {
    match s
    case Number(n) => v == n
    case Scalar(tag) => tag < |t.scalars| && v == t.scalars[tag]
    case Member(timer, m) =>
      timer < |t.timers| &&
      var x := t.timers[timer];
      match m
      case TimerPre => v == x.pre
      case TimerAcc => v == x.acc
      case TimerDn => (v == 1 && x.dn) || (v == 0 && !x.dn)
      case TimerEn => (v == 1 && x.en) || (v == 0 && !x.en)
      case TimerTt => (v == 1 && x.tt) || (v == 0 && !x.tt)
  }

  /** Only scalar tag has changed, to v. */
  predicate Gives(t: Tags, t1: Tags, tag: nat, v: int) {
    && t1.timers == t.timers && |t1.scalars| == |t.scalars| && tag < |t.scalars| && t1.scalars[tag] == v
    && forall k | 0 <= k < |t.scalars| && k != tag :: t1.scalars[k] == t.scalars[k]
  }

  /** Only one timer has changed. */
  predicate Times(t: Tags, t1: Tags, timer: nat, x: Timer) {
    && t1.scalars == t.scalars && |t1.timers| == |t.timers| && timer < |t.timers| && t1.timers[timer] == x
    && forall k | 0 <= k < |t.timers| && k != timer :: t1.timers[k] == t.timers[k]
  }

  lemma {:induction false} ValueReads(t: Tags, s: Source, v: int)
    requires Reads(t, s, v)
    ensures Value(t, s) == v
  {
  }

  /** XIC passes power where its source is not 0, XIO where it is 0. */
  lemma {:induction false} EngineContacts(scan: int, e: Engine, power: bool, s: Source, v: int)
    requires Reads(e.tags, s, v)
    ensures Perform(scan, XIC(s), e, power).st == e == Perform(scan, XIO(s), e, power).st
    ensures Perform(scan, XIC(s), e, power).power <==> power && v != 0
    ensures Perform(scan, XIO(s), e, power).power <==> power && v == 0
  {
    ValueReads(e.tags, s, v);
  }

  lemma {:induction false} EngineComparisons(scan: int, e: Engine, power: bool, a: Source, b: Source, x: int, y: int)
    requires Reads(e.tags, a, x) && Reads(e.tags, b, y)
    ensures forall c :: Perform(scan, CMP(c, a, b), e, power).st == e
    ensures Perform(scan, CMP(CmpEq, a, b), e, power).power <==> power && x == y
    ensures Perform(scan, CMP(CmpNe, a, b), e, power).power <==> power && x != y
    ensures Perform(scan, CMP(CmpGt, a, b), e, power).power <==> power && x > y
    ensures Perform(scan, CMP(CmpGe, a, b), e, power).power <==> power && x >= y
    ensures Perform(scan, CMP(CmpLt, a, b), e, power).power <==> power && x < y
    ensures Perform(scan, CMP(CmpLe, a, b), e, power).power <==> power && x <= y
  {
    ValueReads(e.tags, a, x);
    ValueReads(e.tags, b, y);
  }

  /** OTE gives its tag the power; OTL, OTU and CLR act under power; all pass power on. */
  lemma {:induction false} EngineCoils(scan: int, e: Engine, power: bool, tag: nat)
    requires tag < |e.tags.scalars|
    ensures Perform(scan, OTE(tag), e, power).power == power
    ensures Gives(e.tags, Perform(scan, OTE(tag), e, power).st.tags, tag, if power then 1 else 0)
    ensures Perform(scan, OTL(tag), e, false).st == Perform(scan, OTU(tag), e, false).st
            == Perform(scan, CLR(tag), e, false).st == e
    ensures Perform(scan, OTL(tag), e, power).power == Perform(scan, OTU(tag), e, power).power == power
    ensures Perform(scan, CLR(tag), e, power).power == power
    ensures Gives(e.tags, Perform(scan, OTL(tag), e, true).st.tags, tag, 1)
    ensures Gives(e.tags, Perform(scan, OTU(tag), e, true).st.tags, tag, 0)
    ensures Gives(e.tags, Perform(scan, CLR(tag), e, true).st.tags, tag, 0)
  {
  }

  /** Moves and arithmetic act under power, on numbers without bounds. */
  lemma {:induction false} EngineNumbers(
      scan: int, e: Engine, power: bool, tag: nat, a: Source, b: Source, x: int, y: int)
    requires tag < |e.tags.scalars| && Reads(e.tags, a, x) && Reads(e.tags, b, y)
    ensures var run := (i: LadderStep) => Perform(scan, i, e, power);
            if power then
              && Gives(e.tags, run(MOV(tag, a)).st.tags, tag, x) && Gives(e.tags, run(NEG(tag, a)).st.tags, tag, 0 - x)
              && (x >= 0 ==> Gives(e.tags, run(ABS(tag, a)).st.tags, tag, x))
              && (x < 0 ==> Gives(e.tags, run(ABS(tag, a)).st.tags, tag, 0 - x))
              && Gives(e.tags, run(MATH(MathAdd, tag, a, b)).st.tags, tag, x + y)
              && Gives(e.tags, run(MATH(MathSub, tag, a, b)).st.tags, tag, x - y)
              && Gives(e.tags, run(MATH(MathMul, tag, a, b)).st.tags, tag, x * y)
            else
              && run(MOV(tag, a)).st == e && run(NEG(tag, a)).st == e && run(ABS(tag, a)).st == e
              && forall op :: run(MATH(op, tag, a, b)).st == e
    ensures Perform(scan, MOV(tag, a), e, power).power == Perform(scan, NEG(tag, a), e, power).power == power
    ensures Perform(scan, ABS(tag, a), e, power).power == power
    ensures forall op :: Perform(scan, MATH(op, tag, a, b), e, power).power == power
  {
    ValueReads(e.tags, a, x);
    ValueReads(e.tags, b, y);
  }

  /** A timer under power adds the scan time up to its preset; without power, and cleared under power, it
   *  is back at the start. */
  lemma {:induction false} EngineTimers(scan: int, e: Engine, power: bool, k: nat)
    requires k < |e.tags.timers|
    ensures var t, r := e.tags.timers[k], Perform(scan, TON(k), e, power);
            && r.power == power
            && (power && t.acc + scan < t.pre ==>
                  Times(e.tags, r.st.tags, k, Timer(t.pre, t.acc + scan, false, true, true)))
            && (power && t.acc + scan >= t.pre ==> Times(e.tags, r.st.tags, k, Timer(t.pre, t.pre, true, true, false)))
            && (!power ==> Times(e.tags, r.st.tags, k, Timer(t.pre, 0, false, false, false)))
    ensures var t, r := e.tags.timers[k], Perform(scan, CLRTimer(k), e, power);
            && r.power == power
            && (if power then Times(e.tags, r.st.tags, k, Timer(t.pre, 0, false, false, false)) else r.st == e)
  {
  }

  // ----- the words -----

  /** v is x in a cell of 32 bits. */
  predicate InCell(v: int, x: int) {
    -2_147_483_648 <= v <= 2_147_483_647 && (v - x) % 4_294_967_296 == 0
  }

  /** Under a pushed a and b, the word leaves v in their place. */
  predicate Leaves(w: Word, m: State, a: int, b: int, v: int) {
    Exec([w], Push(m, [a, b])) == Some(Push(m, [v]))
  }

  lemma {:induction false} BinaryLeaves(w: Word, m: State, a: int, b: int, v: int)
    requires Binary(w, a, b) == Some(v)
    ensures Leaves(w, m, a, b, v)
  {
    ExecBinary(m, w, a, b);
  }

  /** Arithmetic wraps; comparisons leave -1 for true and 0 for false. */
  lemma {:induction false} WordsOfTwo(m: State, a: int, b: int)
    ensures exists v :: Leaves(Add, m, a, b, v) && InCell(v, a + b)
    ensures exists v :: Leaves(Sub, m, a, b, v) && InCell(v, a - b)
    ensures exists v :: Leaves(Mul, m, a, b, v) && InCell(v, a * b)
    ensures Leaves(Min, m, a, b, if a <= b then a else b)
    ensures Leaves(Eq, m, a, b, if a == b then -1 else 0) && Leaves(Ne, m, a, b, if a == b then 0 else -1)
    ensures Leaves(Gt, m, a, b, if a > b then -1 else 0) && Leaves(Le, m, a, b, if a > b then 0 else -1)
    ensures Leaves(Lt, m, a, b, if a < b then -1 else 0) && Leaves(Ge, m, a, b, if a < b then 0 else -1)
  {
    hide Leaves;
    BinaryLeaves(Add, m, a, b, Wrap32(a + b));
    BinaryLeaves(Sub, m, a, b, Wrap32(a - b));
    BinaryLeaves(Mul, m, a, b, Wrap32(a * b));
    BinaryLeaves(Min, m, a, b, if a < b then a else b);
    BinaryLeaves(Eq, m, a, b, Flag(a == b));
    BinaryLeaves(Ne, m, a, b, Flag(a != b));
    BinaryLeaves(Gt, m, a, b, Flag(a > b));
    BinaryLeaves(Ge, m, a, b, Flag(a >= b));
    BinaryLeaves(Lt, m, a, b, Flag(a < b));
    BinaryLeaves(Le, m, a, b, Flag(a <= b));
    Wraps(a + b);
    Wraps(a - b);
    Wraps(a * b);
  }

  lemma {:induction false} Wraps(n: int)
    ensures InCell(Wrap32(n), n)
  {
  }

  predicate LeavesOne(w: Word, m: State, a: int, v: int) {
    Exec([w], Push(m, [a])) == Some(Push(m, [v]))
  }

  lemma {:induction false} UnaryLeaves(w: Word, m: State, a: int, v: int)
    requires Unary(w, a) == Some(v)
    ensures LeavesOne(w, m, a, v)
  {
    ExecUnary(m, w, a);
  }

  /** DUP, DROP, NEGATE, ABS, 0= and 0<>. */
  lemma {:induction false} WordsOfOne(m: State, a: int)
    ensures Exec([Dup], Push(m, [a])) == Some(Push(m, [a, a])) && Exec([Drop], Push(m, [a])) == Some(m)
    ensures exists v :: LeavesOne(Negate, m, a, v) && InCell(v, 0 - a)
    ensures exists v :: LeavesOne(Word.Abs, m, a, v) && InCell(v, if a < 0 then 0 - a else a)
    ensures LeavesOne(ZeroEq, m, a, if a == 0 then -1 else 0) && LeavesOne(ZeroNe, m, a, if a == 0 then 0 else -1)
  {
    var least := if a < 0 then -a else a;
    Wraps(-a);
    Wraps(least);
    UnaryLeaves(Negate, m, a, Wrap32(-a));
    UnaryLeaves(Word.Abs, m, a, Wrap32(least));
    UnaryLeaves(ZeroEq, m, a, Flag(a == 0));
    UnaryLeaves(ZeroNe, m, a, Flag(a != 0));
    ExecDup(m, a);
    assert Push(Push(m, [a]), [a]) == Push(m, [a, a]);
    Dropped(m, a);
    hide Exec, InCell, Wrap32, LeavesOne;
  }

  lemma {:induction false} Dropped(m: State, a: int)
    ensures Exec([Drop], Push(m, [a])) == Some(m)
  {
    assert Push(m, [a]).stack[..|m.stack|] == m.stack;
    assert Exec([], m) == Some(m);
  }

  /** A cell is fetched and stored by its address. */
  lemma {:induction false} WordsOfCells(m: State, at: nat, v: int)
    requires at < |m.cells|
    ensures Exec([Cell(at), Fetch], m) == Some(Push(m, [m.cells[at]]))
    ensures exists m1: State ::
              && Exec([Cell(at), StackMachine.Word.Store], Push(m, [v])) == Some(m1)
              && m1.stack == m.stack && |m1.cells| == |m.cells| && m1.cells[at] == v
              && forall k | 0 <= k < |m.cells| && k != at :: m1.cells[k] == m.cells[k]
  {
    ExecFetch(m, at);
    ExecStore(m, at, v);
    hide Exec;
  }

  // ----- bits -----

  /** Bit k of the two's complement of a number. */
  function BitOf(n: int, k: nat): bool
    decreases k
  {
    if k == 0 then n % 2 == 1 else BitOf(n / 2, k - 1)
  }

  lemma {:induction false} AndNatBits(a: nat, b: nat, k: nat)
    ensures BitOf(AndNat(a, b), k) <==> BitOf(a, k) && BitOf(b, k)
    decreases k
  {
    if k > 0 {
      AndNatBits(a / 2, b / 2, k - 1);
      NatTail(a, b, k);
    }
  }

  lemma {:induction false} NatTail(a: nat, b: nat, k: nat)
    requires k > 0
    ensures BitOf(AndNat(a, b), k) == BitOf(AndNat(a / 2, b / 2), k - 1)
    ensures BitOf(OrNat(a, b), k) == BitOf(OrNat(a / 2, b / 2), k - 1)
  {
    assert AndNat(0, b / 2) == 0 && OrNat(0, 0) == 0;
    assert AndNat(a, b) / 2 == AndNat(a / 2, b / 2);
    assert OrNat(a, b) / 2 == OrNat(a / 2, b / 2);
  }

  lemma {:induction false} OrNatBits(a: nat, b: nat, k: nat)
    ensures BitOf(OrNat(a, b), k) <==> BitOf(a, k) || BitOf(b, k)
    decreases k
  {
    if k > 0 {
      OrNatBits(a / 2, b / 2, k - 1);
      NatTail(a, b, k);
    }
  }

  /** Numbers a multiple of a power of two apart agree in the bits below it. */
  lemma {:induction false} LowBits(n: int, m: int, q: int, width: nat, k: nat)
    requires k < width && n == m + q * PowerOf2(width)
    ensures BitOf(n, k) == BitOf(m, k)
    decreases k
  {
    var h := q * PowerOf2(width - 1);
    assert q * PowerOf2(width) == 2 * h;
    assert n % 2 == m % 2 && n / 2 == m / 2 + h;
    if k > 0 {
      LowBits(n / 2, m / 2, q, width - 1, k - 1);
    }
  }

  function PowerOf2(n: nat): (p: nat)
    ensures p > 0
  {
    if n == 0 then 1 else 2 * PowerOf2(n - 1)
  }

  /** AND and OR work bit by bit. */
  lemma {:induction false} WordsOfBits(m: State, a: int, b: int)
    ensures exists v ::
              Leaves(And, m, a, b, v) && InCell(v, v) && forall k: nat | k < 32 :: BitOf(v, k) <==>
                    BitOf(a, k) && BitOf(b, k)
    ensures exists v ::
              Leaves(Or, m, a, b, v) && InCell(v, v) && forall k: nat | k < 32 :: BitOf(v, k) <==>
                    BitOf(a, k) || BitOf(b, k)
  {
    BinaryLeaves(And, m, a, b, BitAnd(a, b));
    BinaryLeaves(Or, m, a, b, BitOr(a, b));
    forall k: nat | k < 32
      ensures BitOf(BitAnd(a, b), k) <==> BitOf(a, k) && BitOf(b, k)
      ensures BitOf(BitOr(a, b), k) <==> BitOf(a, k) || BitOf(b, k)
    {
      BitsOfWords(a, b, k);
    }
    hide Leaves, BitAnd, BitOr, BitOf;
  }

  lemma {:induction false} BitsOfWords(a: int, b: int, k: nat)
    requires k < 32
    ensures BitOf(BitAnd(a, b), k) <==> BitOf(a, k) && BitOf(b, k)
    ensures BitOf(BitOr(a, b), k) <==> BitOf(a, k) || BitOf(b, k)
  {
    var x, y := a % 0x1_0000_0000, b % 0x1_0000_0000;
    assert BitAnd(a, b) == Wrap32(AndNat(x, y)) && BitOr(a, b) == Wrap32(OrNat(x, y));
    hide *;
    WordBits(a, k);
    WordBits(b, k);
    AndNatBits(x, y, k);
    OrNatBits(x, y, k);
    CellBits(AndNat(x, y), k);
    CellBits(OrNat(x, y), k);
  }

  lemma {:induction false} WordBits(n: int, k: nat)
    requires k < 32
    ensures BitOf(n % 0x1_0000_0000, k) == BitOf(n, k)
  {
    hide BitOf;
    LowWord(n, n % 0x1_0000_0000, k);
  }

  lemma {:induction false} CellBits(n: int, k: nat)
    requires k < 32
    ensures BitOf(Wrap32(n), k) == BitOf(n, k)
  {
    Wraps(n);
    hide BitOf, Wrap32;
    LowWord(Wrap32(n), n, k);
  }

  lemma {:induction false} LowWord(n: int, m: int, k: nat)
    requires k < 32 && (n - m) % 0x1_0000_0000 == 0
    ensures BitOf(n, k) == BitOf(m, k)
  {
    Width();
    hide PowerOf2, BitOf;
    LowBits(n, m, (n - m) / 0x1_0000_0000, 32, k);
  }

  lemma {:induction false} Width()
    ensures PowerOf2(32) == 0x1_0000_0000
  {
    assert PowerOf2(8) == 0x100 && PowerOf2(16) == 0x1_0000 && PowerOf2(24) == 0x100_0000;
  }
}
