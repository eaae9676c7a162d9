/** The second backend: rung trees compiled to stack code with two fresh cells for every branch,
 *  proved against the reference engine. */
module Propeller {
  import opened Bytes
  import opened LadderTree
  import opened Normaliser
  import opened StackMachine

  // ----- programs -----

  datatype ScalarType = BoolTag | IntTag

  /** The variables of a program: scalars by type, and how many timers and counters. */
  datatype Layout = Layout(scalars: seq<ScalarType>, timers: nat, counters: nat)

  datatype TimerMember = TimerPre | TimerAcc | TimerDn | TimerEn | TimerTt

  datatype Source = Scalar(tag: nat) | Member(timer: nat, member: TimerMember) | Number(n: int)

  datatype Comparison = CmpEq | CmpNe | CmpGt | CmpGe | CmpLt | CmpLe

  datatype Arithmetic = MathAdd | MathSub | MathMul

  /** The instructions of both the engine and the backend, without DIV and the counters. */
  datatype LadderStep =
    | XIC(source: Source)
    | XIO(source: Source)
    | CMP(cmp: Comparison, left: Source, right: Source)
    | OTE(tag: nat)
    | OTL(tag: nat)
    | OTU(tag: nat)
    | TON(timer: nat)
    | MOV(tag: nat, source: Source)
    | CLR(tag: nat)
    | CLRTimer(timer: nat)
    | ABS(tag: nat, source: Source)
    | NEG(tag: nat, source: Source)
    | MATH(op: Arithmetic, tag: nat, left: Source, right: Source)

  // ----- the engine -----

  datatype Timer = Timer(pre: int, acc: int, dn: bool, en: bool, tt: bool)

  /** The tags of the engine. A Python bool is the number 0 or 1. */
  datatype Tags = Tags(scalars: seq<int>, timers: seq<Timer>)

  /** fits: so far no number left the range of a 32-bit cell. */
  datatype Engine = Engine(tags: Tags, fits: bool)

  predicate Known(l: Layout, s: Source) {
    match s
    case Scalar(tag) => tag < |l.scalars|
    case Member(timer, _) => timer < l.timers
    case Number(_) => true
  }

  predicate HasTags(l: Layout, t: Tags) {
    |t.scalars| == |l.scalars| && |t.timers| == l.timers
  }

  function MemberValue(t: Timer, m: TimerMember): int {
    match m
    case TimerPre => t.pre
    case TimerAcc => t.acc
    case TimerDn => Bit(t.dn)
    case TimerEn => Bit(t.en)
    case TimerTt => Bit(t.tt)
  }

  function Value(t: Tags, s: Source): int {
    match s
    case Scalar(tag) => if tag < |t.scalars| then t.scalars[tag] else 0
    case Member(timer, m) => if timer < |t.timers| then MemberValue(t.timers[timer], m) else 0
    case Number(n) => n
  }

  predicate Holds32(n: int) {
    INT32_MIN <= n <= INT32_MAX
  }

  function Compare(c: Comparison, a: int, b: int): bool {
    match c
    case CmpEq => a == b
    case CmpNe => a != b
    case CmpGt => a > b
    case CmpGe => a >= b
    case CmpLt => a < b
    case CmpLe => a <= b
  }

  function Compute(op: Arithmetic, a: int, b: int): int {
    match op
    case MathAdd => a + b
    case MathSub => a - b
    case MathMul => a * b
  }

  /** `write_tag`, without forces. */
  function Put(e: Engine, tag: nat, n: int): Engine {
    if tag < |e.tags.scalars| then Engine(e.tags.(scalars := e.tags.scalars[tag := n]), e.fits && Holds32(n)) else e
  }

  function PutTimer(e: Engine, timer: nat, t: Timer, fits: bool): Engine {
    if timer < |e.tags.timers| then Engine(e.tags.(timers := e.tags.timers[timer := t]), e.fits && fits) else e
  }

  function Elapse(t: Timer, scan: int): Timer {
    var acc := if t.acc + scan < t.pre then t.acc + scan else t.pre;
    Timer(t.pre, acc, acc >= t.pre, true, acc < t.pre)
  }

  function ClearedTimer(t: Timer): Timer {
    Timer(t.pre, 0, false, false, false)
  }

  /** The timer a step works on. */
  function TimerAt(e: Engine, timer: nat): Timer {
    if timer < |e.tags.timers| then e.tags.timers[timer] else Timer(0, 0, false, false, false)
  }

  /** `_execute_step`. */
  function Perform(scan: int, i: LadderStep, e: Engine, power: bool): Result<Engine> {
    match i
    case XIC(s) => Result(e, power && Value(e.tags, s) != 0)
    case XIO(s) => Result(e, power && Value(e.tags, s) == 0)
    case CMP(c, a, b) => Result(e, power && Compare(c, Value(e.tags, a), Value(e.tags, b)))
    case OTE(tag) => Result(Put(e, tag, Bit(power)), power)
    case OTL(tag) => Result(if power then Put(e, tag, 1) else e, power)
    case OTU(tag) => Result(if power then Put(e, tag, 0) else e, power)
    case TON(timer) =>
      var t := TimerAt(e, timer);
      Result(if power then PutTimer(e, timer, Elapse(t, scan), Holds32(t.acc + scan))
        else PutTimer(e, timer, ClearedTimer(t), true), power)
    case MOV(tag, s) => Result(if power then Put(e, tag, Value(e.tags, s)) else e, power)
    case CLR(tag) => Result(if power then Put(e, tag, 0) else e, power)
    case CLRTimer(timer) => Result(if power then PutTimer(e, timer, ClearedTimer(TimerAt(e, timer)), true) else e,
      power)
    case ABS(tag, s) =>
      var v := Value(e.tags, s);
      Result(if power then Put(e, tag, if v < 0 then -v else v) else e, power)
    case NEG(tag, s) => Result(if power then Put(e, tag, -Value(e.tags, s)) else e, power)
    case MATH(op, tag, a, b) => Result(if power then Put(e, tag, Compute(op, Value(e.tags, a), Value(e.tags, b)))
      else e, power)
  }

  function Steps(scan: int): (LadderStep, Engine, bool) -> Result<Engine> {
    (i: LadderStep, e: Engine, power: bool) => Perform(scan, i, e, power)
  }

  // ----- memory cells -----

  const SCAN_CELL: nat := 1

  function ScalarCell(tag: nat): nat {
    2 + 3 * tag
  }

  function TimerCell(l: Layout, timer: nat, m: TimerMember): nat {
    2 + 3 * |l.scalars| + 5 * timer
    + (match m case TimerPre => 0 case TimerAcc => 1 case TimerDn => 2 case TimerEn => 3 case TimerTt => 4)
  }

  /** Where `_build_context` stops: the first cell for branches. */
  function FirstFree(l: Layout): nat {
    2 + 3 * |l.scalars| + 5 * l.timers + 7 * l.counters
  }

  // ----- code -----

  /** `_emit_operand`. */
  function Load(l: Layout, s: Source): seq<Word> {
    match s
    case Scalar(tag) => [Cell(ScalarCell(tag)), Fetch]
    case Member(timer, m) => [Cell(TimerCell(l, timer, m)), Fetch]
    case Number(n) => [Lit(n)]
  }

  /** `_emit_scalar_store`. */
  function Save(l: Layout, tag: nat): seq<Word>
    requires tag < |l.scalars|
  {
    (if l.scalars[tag] == BoolTag then ToBool() else []) + [Cell(ScalarCell(tag)), Store]
  }

  function CompareWord(c: Comparison): Word {
    match c
    case CmpEq => Eq
    case CmpNe => Ne
    case CmpGt => Gt
    case CmpGe => Ge
    case CmpLt => Lt
    case CmpLe => Le
  }

  function ComputeWord(op: Arithmetic): Word {
    match op
    case MathAdd => Add
    case MathSub => Sub
    case MathMul => Mul
  }

  function SaveTimer(l: Layout, timer: nat, m: TimerMember): seq<Word> {
    [Cell(TimerCell(l, timer, m)), Store]
  }

  function LoadTimer(l: Layout, timer: nat, m: TimerMember): seq<Word> {
    [Cell(TimerCell(l, timer, m)), Fetch]
  }

  /** The body of the word `_emit_timer_word` defines. */
  function TimerWord(l: Layout, t: nat): seq<Word> {
    [Dup] + SaveTimer(l, t, TimerEn) + ([Dup] + IfElse(TimerRuns(l, t), TimerRests(l, t)))
  }

  function TimerRuns(l: Layout, t: nat): seq<Word> {
    (LoadTimer(l, t, TimerAcc) + ([Cell(SCAN_CELL), Fetch]
      + ([Add] + (LoadTimer(l, t, TimerPre) + ([Min] + SaveTimer(l, t, TimerAcc))))))
    + ((LoadTimer(l, t, TimerAcc) + (LoadTimer(l, t, TimerPre) + ([Ge] + (ToBool() + SaveTimer(l, t, TimerDn)))))
       + (LoadTimer(l, t, TimerDn) + ([ZeroEq] + (ToBool() + SaveTimer(l, t, TimerTt)))))
  }

  function TimerRests(l: Layout, t: nat): seq<Word> {
    ([Lit(0)] + SaveTimer(l, t, TimerAcc))
      + (([Lit(0)] + SaveTimer(l, t, TimerDn)) + ([Lit(0)] + SaveTimer(l, t, TimerTt)))
  }

  /** What CLR of a timer does where power is on. */
  function TimerClears(l: Layout, t: nat): seq<Word> {
    ([Lit(0)] + SaveTimer(l, t, TimerAcc))
      + (([Lit(0)] + SaveTimer(l, t, TimerEn))
        + (([Lit(0)] + SaveTimer(l, t, TimerDn)) + ([Lit(0)] + SaveTimer(l, t, TimerTt))))
  }

  /** `DUP IF ... THEN`: the words of an output instruction that acts only under power. */
  function UnderPower(body: seq<Word>): seq<Word> {
    [Dup] + IfThen(body)
  }

  /** The tags of a step exist; where they do not, emission raises. */
  predicate StepKnown(l: Layout, i: LadderStep) {
    match i
    case XIC(s) => Known(l, s)
    case XIO(s) => Known(l, s)
    case CMP(_, a, b) => Known(l, a) && Known(l, b)
    case OTE(tag) => tag < |l.scalars|
    case OTL(tag) => tag < |l.scalars|
    case OTU(tag) => tag < |l.scalars|
    case TON(timer) => timer < l.timers
    case MOV(tag, s) => tag < |l.scalars| && Known(l, s)
    case CLR(tag) => tag < |l.scalars|
    case CLRTimer(timer) => timer < l.timers
    case ABS(tag, s) => tag < |l.scalars| && Known(l, s)
    case NEG(tag, s) => tag < |l.scalars| && Known(l, s)
    case MATH(_, tag, a, b) => tag < |l.scalars| && Known(l, a) && Known(l, b)
  }

  /** `_emit_step`. */
  function StepCode(l: Layout, i: LadderStep): seq<Word>
    requires StepKnown(l, i)
  {
    match i
    case XIC(s) => Load(l, s) + ([And] + ToBool())
    case XIO(s) => Load(l, s) + ([ZeroEq] + (ToBool() + [And]))
    case CMP(c, a, b) => Load(l, a) + (Load(l, b) + ([CompareWord(c)] + (ToBool() + [And])))
    case OTE(tag) => [Dup] + Save(l, tag)
    case OTL(tag) => UnderPower([Lit(1)] + Save(l, tag))
    case OTU(tag) => UnderPower([Lit(0)] + Save(l, tag))
    case TON(timer) => TimerWord(l, timer)
    case MOV(tag, s) => UnderPower(Load(l, s) + Save(l, tag))
    case CLR(tag) => UnderPower([Lit(0)] + Save(l, tag))
    case CLRTimer(timer) => UnderPower(TimerClears(l, timer))
    case ABS(tag, s) => UnderPower(Load(l, s) + ([Word.Abs] + Save(l, tag)))
    case NEG(tag, s) => UnderPower(Load(l, s) + ([Negate] + Save(l, tag)))
    case MATH(op, tag, a, b) => UnderPower(Load(l, a) + (Load(l, b) + ([ComputeWord(op)] + Save(l, tag))))
  }

  // ----- well-typed steps -----

  predicate Boolean(l: Layout, s: Source)
    requires Known(l, s)
  {
    match s
    case Scalar(tag) => l.scalars[tag] == BoolTag
    case Member(_, m) => m.TimerDn? || m.TimerEn? || m.TimerTt?
    case Number(n) => n == 0 || n == 1
  }

  predicate Fits32(s: Source) {
    s.Number? ==> Holds32(s.n)
  }

  /** Contacts read BOOLs; a BOOL is only given BOOLs; literals fit a cell. */
  predicate StepTyped(l: Layout, i: LadderStep)
    requires StepKnown(l, i)
  {
    match i
    case XIC(s) => Boolean(l, s)
    case XIO(s) => Fits32(s)
    case CMP(_, a, b) => Fits32(a) && Fits32(b)
    case MOV(tag, s) => Fits32(s) && (l.scalars[tag] == BoolTag ==> Boolean(l, s))
    case ABS(tag, s) => Fits32(s) && l.scalars[tag] == IntTag
    case NEG(tag, s) => Fits32(s) && l.scalars[tag] == IntTag
    case MATH(_, tag, a, b) => Fits32(a) && Fits32(b) && l.scalars[tag] == IntTag
    case _ => true
  }

  // ----- the engine's tags in cells -----

  predicate ScalarsHeld(l: Layout, t: Tags, cells: seq<int>)
    requires HasTags(l, t) && FirstFree(l) <= |cells|
  {
    forall k | 0 <= k < |l.scalars| ::
      cells[ScalarCell(k)] == t.scalars[k] && Holds32(t.scalars[k])
        && (l.scalars[k] == BoolTag ==> t.scalars[k] == 0 || t.scalars[k] == 1)
  }

  predicate TimerHeld(l: Layout, k: nat, t: Timer, cells: seq<int>)
    requires k < l.timers && FirstFree(l) <= |cells|
  {
    && cells[TimerCell(l, k, TimerPre)] == t.pre && cells[TimerCell(l, k, TimerAcc)] == t.acc
    && cells[TimerCell(l, k, TimerDn)] == Bit(t.dn) && cells[TimerCell(l, k, TimerEn)] == Bit(t.en)
      && cells[TimerCell(l, k, TimerTt)] == Bit(t.tt)
    && Holds32(t.pre) && Holds32(t.acc)
  }

  predicate TimersHeld(l: Layout, t: Tags, cells: seq<int>)
    requires HasTags(l, t) && FirstFree(l) <= |cells|
  {
    forall k | 0 <= k < l.timers :: TimerHeld(l, k, t.timers[k], cells)
  }

  /** The cells hold the engine's tags, and the scan time. */
  predicate Mirrors(l: Layout, scan: int, t: Tags, cells: seq<int>) {
    && HasTags(l, t) && FirstFree(l) <= |cells| && cells[SCAN_CELL] == scan
    && ScalarsHeld(l, t, cells) && TimersHeld(l, t, cells)
  }

  /** What a stretch of code did to the cells: the engine's tags are mirrored again, and the branch
   *  cells before the given one are as they were. */
  predicate Kept(l: Layout, scan: int, t: Tags, before: seq<int>, after: seq<int>, upTo: nat) {
    && |after| == |before| && Mirrors(l, scan, t, after)
    && forall a | FirstFree(l) <= a < upTo && a < |before| :: after[a] == before[a]
  }
}
