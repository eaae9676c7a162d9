/** One instruction of the stack backend does what the reference engine does. */
module PropellerSteps {
  import opened Bytes
  import opened LadderTree
  import opened Normaliser
  import opened StackMachine
  import opened Propeller

  /** The outcome of running code for r on a state whose stack had the input power on top: the same
   *  stack with the output power, and the engine's tags in the cells. */
  predicate Agrees(l: Layout, scan: int, m: State, r: Result<Engine>, o: Option<State>, upTo: nat) {
    o.Some? && o.value.stack == m.stack + [Bit(r.power)] && Kept(l, scan, r.st.tags, m.cells, o.value.cells, upTo)
  }

  // ----- reading and writing tags -----

  lemma {:induction false} LoadRuns(l: Layout, scan: int, t: Tags, s: Source, m: State)
    requires Known(l, s) && Mirrors(l, scan, t, m.cells)
    ensures Closed(Load(l, s)) && Exec(Load(l, s), m) == Some(Push(m, [Value(t, s)]))
    ensures Fits32(s) ==> Holds32(Value(t, s))
    ensures Boolean(l, s) ==> Value(t, s) == 0 || Value(t, s) == 1
  {
    hide Exec, Closed;
    match s
    case Scalar(tag) => ExecFetch(m, ScalarCell(tag));
    case Member(timer, member) =>
      assert TimerHeld(l, timer, t.timers[timer], m.cells);
      ExecFetch(m, TimerCell(l, timer, member));
    case Number(n) => ExecWord(Lit(n), m);
  }

  function Stored(l: Layout, tag: nat, v: int): int
    requires tag < |l.scalars|
  {
    if l.scalars[tag] == BoolTag then Bit(v != 0) else v
  }

  lemma {:induction false} SaveRuns(l: Layout, tag: nat, v: int, m: State)
    requires tag < |l.scalars| && FirstFree(l) <= |m.cells|
    ensures Closed(Save(l, tag)) && Exec(Save(l, tag), Push(m, [v]))
            == Some(m.(cells := m.cells[ScalarCell(tag) := Stored(l, tag, v)]))
  {
    hide Exec, Closed, ToBool;
    ExecStore(m, ScalarCell(tag), Stored(l, tag, v));
    if l.scalars[tag] == BoolTag {
      ExecToBool(m, v);
      ExecAppend(ToBool(), [Cell(ScalarCell(tag)), Store], Push(m, [v]));
    } else {
      assert Save(l, tag) == [Cell(ScalarCell(tag)), Store];
    }
  }

  lemma {:induction false} PutKeeps(l: Layout, scan: int, e: Engine, tag: nat, v: int, cells: seq<int>, upTo: nat)
    requires Mirrors(l, scan, e.tags, cells) && tag < |l.scalars| && Holds32(v)
    requires l.scalars[tag] == BoolTag ==> v == 0 || v == 1
    ensures Stored(l, tag, v) == v
    ensures Kept(l, scan, Put(e, tag, v).tags, cells, cells[ScalarCell(tag) := v], upTo)
  {
    var after, t := cells[ScalarCell(tag) := v], Put(e, tag, v).tags;
    forall k | 0 <= k < l.timers
      ensures TimerHeld(l, k, t.timers[k], after)
    {
      assert TimerHeld(l, k, e.tags.timers[k], cells);
    }
  }

  /** Saving a value the engine puts. */
  lemma {:induction false} SaveAgrees(
      l: Layout, scan: int, e: Engine, tag: nat, v: int, m: State, power: bool, upTo: nat)
    requires Mirrors(l, scan, e.tags, m.cells) && tag < |l.scalars| && Holds32(v)
    requires l.scalars[tag] == BoolTag ==> v == 0 || v == 1
    ensures Closed(Save(l, tag))
    ensures Agrees(l, scan, m, Result(Put(e, tag, v), power), Exec(Save(l, tag), Push(Push(m, [Bit(power)]), [v])),
            upTo)
  {
    SaveRuns(l, tag, v, Push(m, [Bit(power)]));
    PutKeeps(l, scan, e, tag, v, m.cells, upTo);
  }

  lemma {:induction false} KeptNothing(l: Layout, scan: int, e: Engine, m: State, power: bool, upTo: nat)
    requires Mirrors(l, scan, e.tags, m.cells)
    ensures Agrees(l, scan, m, Result(e, power), Some(Push(m, [Bit(power)])), upTo)
  {
  }

  /** `DUP IF body THEN`. */
  lemma {:induction false} UnderPowerRuns(body: seq<Word>, m: State, power: bool)
    requires Closed(body)
    ensures Closed(UnderPower(body))
    ensures Exec(UnderPower(body), Push(m, [Bit(power)])) == if power then Exec(body, Push(m, [Bit(true)]))
            else Some(Push(m, [Bit(false)]))
  {
    hide Exec, Closed, IfThen;
    var m1 := Push(m, [Bit(power)]);
    ExecDup(m, Bit(power));
    ExecIfThen(body, m1, Bit(power));
    ExecAppend([Dup], IfThen(body), m1);
  }

  // ----- contacts and comparisons -----

  lemma {:induction false} ContactRuns(l: Layout, scan: int, s: Source, e: Engine, m: State, power: bool)
    requires Known(l, s) && Mirrors(l, scan, e.tags, m.cells)
    ensures var code := StepCode(l, XIC(s));
            Closed(code) && Exec(code, Push(m, [Bit(power)]))
              == Some(Push(m, [Bit(power && Value(e.tags, s) % 2 == 1)]))
  {
    hide Exec, Closed, ToBool, Mirrors, Load;
    var m1, v := Push(m, [Bit(power)]), Value(e.tags, s);
    LoadRuns(l, scan, e.tags, s, m1);
    assert Push(m1, [v]) == Push(m, [Bit(power), v]);
    ExecBinary(m, And, Bit(power), v);
    AndBits(power, v);
    ExecToBool(m, Bit(power && v % 2 == 1));
    ExecAppend([And], ToBool(), Push(m, [Bit(power), v]));
    ExecAppend(Load(l, s), [And] + ToBool(), m1);
  }

  lemma {:induction false} BlockerRuns(l: Layout, scan: int, s: Source, e: Engine, m: State, power: bool)
    requires Known(l, s) && Mirrors(l, scan, e.tags, m.cells)
    ensures var code := StepCode(l, XIO(s));
            Closed(code) && Exec(code, Push(m, [Bit(power)])) == Some(Push(m, [Bit(power && Value(e.tags, s) == 0)]))
  {
    hide Exec, Closed, ToBool, Mirrors, Load;
    var m1, v := Push(m, [Bit(power)]), Value(e.tags, s);
    LoadRuns(l, scan, e.tags, s, m1);
    ExecUnary(m1, ZeroEq, v);
    MaskRuns(m, power, Flag(v == 0));
    ExecAppend([ZeroEq], ToBool() + [And], Push(m1, [v]));
    ExecAppend(Load(l, s), [ZeroEq] + (ToBool() + [And]), m1);
  }

  /** `PLC.BOOL AND` of a flag and the power below it. */
  lemma {:induction false} MaskRuns(m: State, power: bool, x: int)
    ensures Closed(ToBool() + [And])
    ensures Exec(ToBool() + [And], Push(Push(m, [Bit(power)]), [x])) == Some(Push(m, [Bit(power && x != 0)]))
  {
    hide Exec, Closed, ToBool;
    var m1 := Push(m, [Bit(power)]);
    ExecToBool(m1, x);
    assert Push(m1, [Bit(x != 0)]) == Push(m, [Bit(power), Bit(x != 0)]);
    ExecBinary(m, And, Bit(power), Bit(x != 0));
    AndBits(power, Bit(x != 0));
    ExecAppend(ToBool(), [And], Push(m1, [x]));
  }

  lemma {:induction false} CompareRuns(
      l: Layout, scan: int, c: Comparison, a: Source, b: Source, e: Engine, m: State, power: bool)
    requires Known(l, a) && Known(l, b) && Mirrors(l, scan, e.tags, m.cells)
    ensures var code := StepCode(l, CMP(c, a, b));
            Closed(code) && Exec(code, Push(m, [Bit(power)]))
              == Some(Push(m, [Bit(power && Compare(c, Value(e.tags, a), Value(e.tags, b)))]))
  {
    hide Exec, Closed, ToBool, Mirrors, Load;
    var m1, x, y := Push(m, [Bit(power)]), Value(e.tags, a), Value(e.tags, b);
    var m2 := Push(m1, [x]);
    LoadRuns(l, scan, e.tags, a, m1);
    LoadRuns(l, scan, e.tags, b, m2);
    assert Push(m2, [y]) == Push(m1, [x, y]);
    var w := CompareWord(c);
    assert Binary(w, x, y) == Some(Flag(Compare(c, x, y)));
    ExecBinary(m1, w, x, y);
    MaskRuns(m, power, Flag(Compare(c, x, y)));
    var tail := ToBool() + [And];
    ExecAppend([w], tail, Push(m1, [x, y]));
    ExecAppend(Load(l, b), [w] + tail, m2);
    ExecAppend(Load(l, a), Load(l, b) + ([w] + tail), m1);
  }

  // ----- outputs -----

  lemma {:induction false} CoilAgrees(l: Layout, scan: int, tag: nat, e: Engine, m: State, power: bool, upTo: nat)
    requires tag < |l.scalars| && Mirrors(l, scan, e.tags, m.cells)
    ensures Closed(StepCode(l, OTE(tag)))
    ensures Agrees(l, scan, m, Perform(scan, OTE(tag), e, power), Exec(StepCode(l, OTE(tag)), Push(m, [Bit(power)])),
            upTo)
  {
    hide Exec, Closed, Save;
    ExecDup(m, Bit(power));
    SaveAgrees(l, scan, e, tag, Bit(power), m, power, upTo);
    ExecAppend([Dup], Save(l, tag), Push(m, [Bit(power)]));
  }

  /** An output instruction that saves a computed value under power. */
  lemma {:induction false} SavedUnderPower(
      l: Layout, scan: int, tag: nat, compute: seq<Word>, v: int, e: Engine, m: State, power: bool, upTo: nat)
    requires tag < |l.scalars| && Mirrors(l, scan, e.tags, m.cells) && Closed(compute)
    requires power ==> Holds32(v) && (l.scalars[tag] == BoolTag ==> v == 0 || v == 1)
    requires power ==> Exec(compute, Push(m, [Bit(power)])) == Some(Push(Push(m, [Bit(power)]), [v]))
    ensures Closed(UnderPower(compute + Save(l, tag)))
    ensures Agrees(l, scan, m, Result(if power then Put(e, tag, v) else e, power),
            Exec(UnderPower(compute + Save(l, tag)), Push(m, [Bit(power)])), upTo)
  {
    hide Exec, Closed, Save, UnderPower;
    var m1 := Push(m, [Bit(power)]);
    SaveRuns(l, tag, v, m1);
    ExecAppend(compute, Save(l, tag), m1);
    UnderPowerRuns(compute + Save(l, tag), m, power);
    if power {
      SaveAgrees(l, scan, e, tag, v, m, power, upTo);
    } else {
      KeptNothing(l, scan, e, m, power, upTo);
    }
  }

  lemma {:induction false} ConstantAgrees(
      l: Layout, scan: int, tag: nat, n: int, e: Engine, m: State, power: bool, upTo: nat)
    requires tag < |l.scalars| && Mirrors(l, scan, e.tags, m.cells) && (n == 0 || n == 1)
    ensures Closed(UnderPower([Lit(n)] + Save(l, tag)))
    ensures Agrees(l, scan, m, Result(if power then Put(e, tag, n) else e, power),
            Exec(UnderPower([Lit(n)] + Save(l, tag)), Push(m, [Bit(power)])), upTo)
  {
    hide Exec, Closed, Save;
    ExecWord(Lit(n), Push(m, [Bit(power)]));
    SavedUnderPower(l, scan, tag, [Lit(n)], n, e, m, power, upTo);
  }

  lemma {:induction false} MoveAgrees(
      l: Layout, scan: int, tag: nat, s: Source, e: Engine, m: State, power: bool, upTo: nat)
    requires StepKnown(l, MOV(tag, s)) && StepTyped(l, MOV(tag, s)) && Mirrors(l, scan, e.tags, m.cells)
    ensures Closed(StepCode(l, MOV(tag, s)))
    ensures Agrees(l, scan, m, Perform(scan, MOV(tag, s), e, power),
            Exec(StepCode(l, MOV(tag, s)), Push(m, [Bit(power)])), upTo)
  {
    hide Exec, Closed, Save;
    LoadRuns(l, scan, e.tags, s, Push(m, [Bit(power)]));
    SavedUnderPower(l, scan, tag, Load(l, s), Value(e.tags, s), e, m, power, upTo);
  }

  lemma {:induction false} UnaryAgrees(
      l: Layout, scan: int, tag: nat, s: Source, w: Word, v: int, e: Engine, m: State, power: bool, upTo: nat)
    requires tag < |l.scalars| && l.scalars[tag] == IntTag && Known(l, s) && Mirrors(l, scan, e.tags, m.cells)
    requires Unary(w, Value(e.tags, s)) == Some(v) && (power ==> Holds32(v))
    ensures var code := UnderPower(Load(l, s) + ([w] + Save(l, tag)));
            Closed(code) && Agrees(l, scan, m, Result(if power then Put(e, tag, v) else e, power),
              Exec(code, Push(m, [Bit(power)])), upTo)
  {
    hide Exec, Closed, Save, Load, Unary;
    var m1, x := Push(m, [Bit(power)]), Value(e.tags, s);
    LoadRuns(l, scan, e.tags, s, m1);
    ExecUnary(m1, w, x);
    ExecAppend(Load(l, s), [w], m1);
    assert Load(l, s) + ([w] + Save(l, tag)) == Load(l, s) + [w] + Save(l, tag);
    SavedUnderPower(l, scan, tag, Load(l, s) + [w], v, e, m, power, upTo);
  }

  lemma {:induction false} MathAgrees(l: Layout, scan: int, i: LadderStep, e: Engine, m: State, power: bool, upTo: nat)
    requires i.MATH? && StepKnown(l, i) && StepTyped(l, i) && Mirrors(l, scan, e.tags, m.cells)
    requires e.fits && Perform(scan, i, e, power).st.fits
    ensures Closed(StepCode(l, i))
    ensures Agrees(l, scan, m, Perform(scan, i, e, power), Exec(StepCode(l, i), Push(m, [Bit(power)])), upTo)
  {
    hide Exec, Closed, Save, Load;
    var m1, x, y := Push(m, [Bit(power)]), Value(e.tags, i.left), Value(e.tags, i.right);
    var w, v := ComputeWord(i.op), Wrap32(Compute(i.op, x, y));
    var m2 := Push(m1, [x]);
    LoadRuns(l, scan, e.tags, i.left, m1);
    LoadRuns(l, scan, e.tags, i.right, m2);
    assert Push(m2, [y]) == Push(m1, [x, y]);
    assert Binary(w, x, y) == Some(v);
    ExecBinary(m1, w, x, y);
    var rest := Load(l, i.right) + [w];
    ExecAppend(Load(l, i.right), [w], m2);
    ExecAppend(Load(l, i.left), rest, m1);
    assert Load(l, i.left) + (Load(l, i.right) + ([w] + Save(l, i.tag))) == Load(l, i.left) + rest + Save(l, i.tag);
    Wrap32Keeps(Compute(i.op, x, y));
    assert power ==> v == Compute(i.op, x, y);
    SavedUnderPower(l, scan, i.tag, Load(l, i.left) + rest, v, e, m, power, upTo);
  }

  lemma {:induction false} Wrap32Keeps(n: int)
    ensures Holds32(n) ==> Wrap32(n) == n
  {
  }

  // ----- timers -----

  function SetCell(m: State, at: nat, v: int): State
    requires at < |m.cells|
  {
    m.(cells := m.cells[at := v])
  }

  lemma {:induction false} ConstantToCell(m: State, at: nat, n: int)
    requires at < |m.cells|
    ensures var code := [Lit(n)] + [Cell(at), Store]; Closed(code) && Exec(code, m) == Some(SetCell(m, at, n))
  {
    hide Exec, Closed;
    ExecWord(Lit(n), m);
    ExecStore(m, at, n);
    ExecAppend([Lit(n)], [Cell(at), Store], m);
  }

  /** A flag made a truth value and stored. */
  lemma {:induction false} FlagToCell(m: State, at: nat, x: int)
    requires at < |m.cells|
    ensures var code := ToBool() + [Cell(at), Store];
            Closed(code) && Exec(code, Push(m, [x])) == Some(SetCell(m, at, Bit(x != 0)))
  {
    hide Exec, Closed, ToBool;
    ExecToBool(m, x);
    ExecStore(m, at, Bit(x != 0));
    ExecAppend(ToBool(), [Cell(at), Store], Push(m, [x]));
  }

  /** Two fetches and a word on the fetched values. */
  lemma {:induction false} FetchTwo(m: State, a: nat, b: nat, w: Word)
    requires a < |m.cells| && b < |m.cells| && Binary(w, m.cells[a], m.cells[b]).Some?
    ensures var code := [Cell(a), Fetch] + ([Cell(b), Fetch] + [w]);
            Closed(code) && Exec(code, m) == Some(Push(m, [Binary(w, m.cells[a], m.cells[b]).value]))
  {
    hide Exec, Closed, Binary;
    var x, y := m.cells[a], m.cells[b];
    ExecFetch(m, a);
    ExecFetch(Push(m, [x]), b);
    assert Push(Push(m, [x]), [y]) == Push(m, [x, y]);
    ExecBinary(m, w, x, y);
    ExecAppend([Cell(b), Fetch], [w], Push(m, [x]));
    ExecAppend([Cell(a), Fetch], [Cell(b), Fetch] + [w], m);
  }

  /** The accumulator's line of the timer word. */
  lemma {:induction false} AccumulateRuns(m: State, acc: nat, scan: nat, pre: nat)
    requires acc < |m.cells| && scan < |m.cells| && pre < |m.cells|
    ensures var code := [Cell(acc), Fetch]
            + ([Cell(scan), Fetch] + ([Add] + ([Cell(pre), Fetch] + ([Min] + [Cell(acc), Store]))));
            var sum, limit := Wrap32(m.cells[acc] + m.cells[scan]), m.cells[pre];
            Closed(code) && Exec(code, m) == Some(SetCell(m, acc, if sum < limit then sum else limit))
  {
    hide Exec, Closed;
    var sum, limit := Wrap32(m.cells[acc] + m.cells[scan]), m.cells[pre];
    var least := if sum < limit then sum else limit;
    FetchTwo(m, acc, scan, Add);
    var m1 := Push(m, [sum]);
    ExecFetch(m1, pre);
    assert Push(m1, [limit]) == Push(m, [sum, limit]);
    ExecBinary(m, Min, sum, limit);
    ExecStore(m, acc, least);
    var first, last := [Cell(acc), Fetch] + ([Cell(scan), Fetch] + [Add]), [Min] + [Cell(acc), Store];
    ExecAppend([Min], [Cell(acc), Store], Push(m, [sum, limit]));
    ExecAppend([Cell(pre), Fetch], last, m1);
    ExecAppend(first, [Cell(pre), Fetch] + last, m);
    assert [Cell(acc), Fetch] + ([Cell(scan), Fetch] + ([Add] + ([Cell(pre), Fetch] + last)))
           == first + ([Cell(pre), Fetch] + last);
  }

  lemma {:induction false} DoneRuns(m: State, acc: nat, pre: nat, dn: nat)
    requires acc < |m.cells| && pre < |m.cells| && dn < |m.cells|
    ensures var code := [Cell(acc), Fetch] + ([Cell(pre), Fetch] + ([Ge] + (ToBool() + [Cell(dn), Store])));
            Closed(code) && Exec(code, m) == Some(SetCell(m, dn, Bit(m.cells[acc] >= m.cells[pre])))
  {
    hide Exec, Closed, ToBool;
    var f := Flag(m.cells[acc] >= m.cells[pre]);
    FetchTwo(m, acc, pre, Ge);
    FlagToCell(m, dn, f);
    var first, last := [Cell(acc), Fetch] + ([Cell(pre), Fetch] + [Ge]), ToBool() + [Cell(dn), Store];
    ExecAppend(first, last, m);
    assert [Cell(acc), Fetch] + ([Cell(pre), Fetch] + ([Ge] + last)) == first + last;
  }

  lemma {:induction false} TimingRuns(m: State, dn: nat, tt: nat)
    requires dn < |m.cells| && tt < |m.cells|
    ensures var code := [Cell(dn), Fetch] + ([ZeroEq] + (ToBool() + [Cell(tt), Store]));
            Closed(code) && Exec(code, m) == Some(SetCell(m, tt, Bit(m.cells[dn] == 0)))
  {
    hide Exec, Closed, ToBool;
    ExecFetch(m, dn);
    ExecUnary(m, ZeroEq, m.cells[dn]);
    FlagToCell(m, tt, Flag(m.cells[dn] == 0));
    var last := ToBool() + [Cell(tt), Store];
    ExecAppend([ZeroEq], last, Push(m, [m.cells[dn]]));
    ExecAppend([Cell(dn), Fetch], [ZeroEq] + last, m);
  }

  /** The timer's cells with new values. */
  function TimerCells(l: Layout, k: nat, t: Timer, cells: seq<int>): seq<int>
    requires k < l.timers && FirstFree(l) <= |cells|
  {
    cells[TimerCell(l, k, TimerEn) := Bit(t.en)]
         [TimerCell(l, k, TimerAcc) := t.acc]
         [TimerCell(l, k, TimerDn) := Bit(t.dn)]
         [TimerCell(l, k, TimerTt) := Bit(t.tt)]
  }

  lemma {:induction false} TimerCellsAt(l: Layout, k: nat, t: Timer, cells: seq<int>)
    requires k < l.timers && FirstFree(l) <= |cells|
    ensures var after := TimerCells(l, k, t, cells);
            && |after| == |cells|
            && after[TimerCell(l, k, TimerEn)] == Bit(t.en) && after[TimerCell(l, k, TimerAcc)] == t.acc
            && after[TimerCell(l, k, TimerDn)] == Bit(t.dn) && after[TimerCell(l, k, TimerTt)] == Bit(t.tt)
            && after[TimerCell(l, k, TimerPre)] == cells[TimerCell(l, k, TimerPre)]
            && forall a | 0 <= a < |cells|
              && (a < TimerCell(l, k, TimerPre) || TimerCell(l, k, TimerTt) < a) :: after[a] == cells[a]
  {
  }

  lemma {:induction false} OtherTimer(l: Layout, j: nat, k: nat, t: Timer, before: seq<int>, after: seq<int>)
    requires j < l.timers && k < l.timers && j != k && FirstFree(l) <= |before| == |after| && TimerHeld(l, j, t, before)
    requires forall a | 0 <= a < |before|
             && (a < TimerCell(l, k, TimerPre) || TimerCell(l, k, TimerTt) < a) :: after[a] == before[a]
    ensures TimerHeld(l, j, t, after)
  {
    assert j < k ==> TimerCell(l, j, TimerTt) < TimerCell(l, k, TimerPre);
    assert k < j ==> TimerCell(l, k, TimerTt) < TimerCell(l, j, TimerPre);
  }

  lemma {:induction false} TimerKeeps(
      l: Layout, scan: int, e: Engine, k: nat, t: Timer, cells: seq<int>, fits: bool, upTo: nat)
    requires Mirrors(l, scan, e.tags, cells) && k < l.timers && t.pre == e.tags.timers[k].pre && Holds32(t.acc)
    ensures Kept(l, scan, PutTimer(e, k, t, fits).tags, cells, TimerCells(l, k, t, cells), upTo)
  {
    var after, tags := TimerCells(l, k, t, cells), PutTimer(e, k, t, fits).tags;
    TimerCellsAt(l, k, t, cells);
    assert TimerHeld(l, k, e.tags.timers[k], cells);
    assert TimerHeld(l, k, t, after);
    forall j | 0 <= j < l.timers
      ensures TimerHeld(l, j, tags.timers[j], after)
    {
      assert TimerHeld(l, j, e.tags.timers[j], cells);
      if j != k {
        OtherTimer(l, j, k, e.tags.timers[j], cells, after);
      }
    }
    hide TimerCells, TimerHeld;
    assert ScalarsHeld(l, tags, after) by {
      assert forall j | 0 <= j < |l.scalars| :: ScalarCell(j) < TimerCell(l, k, TimerPre);
    }
    assert FirstFree(l) > TimerCell(l, k, TimerTt) && SCAN_CELL < TimerCell(l, k, TimerPre);
  }

  /** The part of the timer word under power. */
  lemma {:induction false} TimerRunsAgrees(l: Layout, scan: int, k: nat, t: Timer, m: State)
    requires k < l.timers && FirstFree(l) <= |m.cells| && TimerHeld(l, k, t, m.cells) && t.en
             && m.cells[SCAN_CELL] == scan
    requires Holds32(t.acc + scan)
    ensures Closed(TimerRuns(l, k))
    ensures Exec(TimerRuns(l, k), m) == Some(m.(cells := TimerCells(l, k, Elapse(t, scan), m.cells)))
  {
    hide Exec, Closed, ToBool;
    var acc, pre, dn, tt := TimerCell(l, k, TimerAcc), TimerCell(l, k, TimerPre), TimerCell(l, k, TimerDn),
        TimerCell(l, k, TimerTt);
    var t1 := Elapse(t, scan);
    var m1 := SetCell(m, acc, t1.acc);
    var m2 := SetCell(m1, dn, Bit(t1.dn));
    var m3 := SetCell(m2, tt, Bit(t1.tt));
    Wrap32Keeps(t.acc + scan);
    AccumulateRuns(m, acc, SCAN_CELL, pre);
    DoneRuns(m1, acc, pre, dn);
    TimingRuns(m2, dn, tt);
    var a := LoadTimer(l, k, TimerAcc)
        + ([Cell(SCAN_CELL), Fetch] + ([Add] + (LoadTimer(l, k, TimerPre) + ([Min] + SaveTimer(l, k, TimerAcc)))));
    var b := LoadTimer(l, k, TimerAcc) + (LoadTimer(l, k, TimerPre) + ([Ge] + (ToBool() + SaveTimer(l, k, TimerDn))));
    var c := LoadTimer(l, k, TimerDn) + ([ZeroEq] + (ToBool() + SaveTimer(l, k, TimerTt)));
    ExecAppend(b, c, m1);
    ExecAppend(a, b + c, m);
    assert m.cells[TimerCell(l, k, TimerEn) := Bit(true)] == m.cells;
  }

  lemma {:induction false} TimerRestsAgrees(l: Layout, k: nat, t: Timer, m: State)
    requires k < l.timers && FirstFree(l) <= |m.cells| && m.cells[TimerCell(l, k, TimerEn)] == 0
    ensures Closed(TimerRests(l, k))
    ensures Exec(TimerRests(l, k), m) == Some(m.(cells := TimerCells(l, k, ClearedTimer(t), m.cells)))
  {
    hide Exec, Closed;
    var acc, dn, tt := TimerCell(l, k, TimerAcc), TimerCell(l, k, TimerDn), TimerCell(l, k, TimerTt);
    var m1 := SetCell(m, acc, 0);
    var m2 := SetCell(m1, dn, 0);
    ConstantToCell(m, acc, 0);
    ConstantToCell(m1, dn, 0);
    ConstantToCell(m2, tt, 0);
    var b, c := [Lit(0)] + SaveTimer(l, k, TimerDn), [Lit(0)] + SaveTimer(l, k, TimerTt);
    ExecAppend(b, c, m1);
    ExecAppend([Lit(0)] + SaveTimer(l, k, TimerAcc), b + c, m);
    assert m.cells[TimerCell(l, k, TimerEn) := 0] == m.cells;
  }

  lemma {:induction false} TimerClearsAgrees(l: Layout, k: nat, t: Timer, m: State)
    requires k < l.timers && FirstFree(l) <= |m.cells|
    ensures Closed(TimerClears(l, k))
    ensures Exec(TimerClears(l, k), m) == Some(m.(cells := TimerCells(l, k, ClearedTimer(t), m.cells)))
  {
    hide Exec, Closed;
    var acc, en, dn, tt := TimerCell(l, k, TimerAcc), TimerCell(l, k, TimerEn), TimerCell(l, k, TimerDn),
        TimerCell(l, k, TimerTt);
    var m1 := SetCell(m, acc, 0);
    var m2 := SetCell(m1, en, 0);
    var m3 := SetCell(m2, dn, 0);
    ConstantToCell(m, acc, 0);
    ConstantToCell(m1, en, 0);
    ConstantToCell(m2, dn, 0);
    ConstantToCell(m3, tt, 0);
    var b, c, d := [Lit(0)] + SaveTimer(l, k, TimerEn), [Lit(0)] + SaveTimer(l, k, TimerDn),
        [Lit(0)] + SaveTimer(l, k, TimerTt);
    ExecAppend(c, d, m2);
    ExecAppend(b, c + d, m1);
    ExecAppend([Lit(0)] + SaveTimer(l, k, TimerAcc), b + (c + d), m);
    assert SetCell(m3, tt, 0).cells == TimerCells(l, k, ClearedTimer(t), m.cells);
  }

  function TimerAfter(t: Timer, scan: int, power: bool): Timer {
    if power then Elapse(t, scan) else ClearedTimer(t)
  }

  /** The choice in the timer word, after the enable bit is stored. */
  lemma {:induction false} TimerChoice(l: Layout, scan: int, k: nat, t: Timer, m: State, power: bool)
    requires k < l.timers && FirstFree(l) <= |m.cells| && TimerHeld(l, k, t, m.cells) && t.en == power
             && m.cells[SCAN_CELL] == scan
    requires power ==> Holds32(t.acc + scan)
    ensures var choice := [Dup] + IfElse(TimerRuns(l, k), TimerRests(l, k));
            Closed(choice) && Exec(choice, Push(m, [Bit(power)]))
              == Some(Push(m, [Bit(power)]).(cells := TimerCells(l, k, TimerAfter(t, scan, power), m.cells)))
  {
    hide Exec, Closed, TimerRuns, TimerRests, TimerCells;
    var m1 := Push(m, [Bit(power)]);
    var choice := IfElse(TimerRuns(l, k), TimerRests(l, k));
    ExecDup(m, Bit(power));
    ClosedRuns(l, k);
    ClosedRests(l, k);
    ExecIfElse(TimerRuns(l, k), TimerRests(l, k), m1, Bit(power));
    ExecAppend([Dup], choice, m1);
    if power {
      TimerRunsAgrees(l, scan, k, t, m1);
    } else {
      TimerRestsAgrees(l, k, t, m1);
    }
  }

  lemma {:induction false} TimerWordRuns(l: Layout, scan: int, k: nat, t: Timer, m: State, power: bool)
    requires k < l.timers && FirstFree(l) <= |m.cells| && TimerHeld(l, k, t, m.cells) && m.cells[SCAN_CELL] == scan
    requires power ==> Holds32(t.acc + scan)
    ensures Closed(TimerWord(l, k))
    ensures Exec(TimerWord(l, k), Push(m, [Bit(power)]))
            == Some(Push(m, [Bit(power)]).(cells := TimerCells(l, k, TimerAfter(t, scan, power), m.cells)))
  {
    hide Exec, Closed, TimerRuns, TimerRests;
    var m1, en := Push(m, [Bit(power)]), TimerCell(l, k, TimerEn);
    var m2 := SetCell(m, en, Bit(power));
    ExecDup(m, Bit(power));
    ExecStore(m1, en, Bit(power));
    ExecAppend([Dup], SaveTimer(l, k, TimerEn), m1);
    var t1 := t.(en := power);
    assert TimerHeld(l, k, t1, m2.cells);
    TimerChoice(l, scan, k, t1, m2, power);
    ExecAppend([Dup] + SaveTimer(l, k, TimerEn), [Dup] + IfElse(TimerRuns(l, k), TimerRests(l, k)), m1);
    var result := TimerAfter(t, scan, power);
    assert result == TimerAfter(t1, scan, power) && result.en == power;
    assert TimerCells(l, k, result, m2.cells) == TimerCells(l, k, result, m.cells);
  }

  lemma {:induction false} TimerAgrees(l: Layout, scan: int, k: nat, e: Engine, m: State, power: bool, upTo: nat)
    requires k < l.timers && Mirrors(l, scan, e.tags, m.cells)
    requires e.fits && Perform(scan, TON(k), e, power).st.fits
    ensures Closed(TimerWord(l, k))
    ensures Agrees(l, scan, m, Perform(scan, TON(k), e, power), Exec(TimerWord(l, k), Push(m, [Bit(power)])), upTo)
  {
    hide Exec, Closed, TimerWord, TimerCells;
    var t := e.tags.timers[k];
    assert TimerHeld(l, k, t, m.cells);
    TimerWordRuns(l, scan, k, t, m, power);
    TimerKeeps(l, scan, e, k, TimerAfter(t, scan, power), m.cells, if power then Holds32(t.acc + scan) else true, upTo);
  }

  lemma {:induction false} ClosedRests(l: Layout, k: nat)
    ensures Closed(TimerRests(l, k))
  {
    hide Closed, Exec;
    var acc, dn, tt := TimerCell(l, k, TimerAcc), TimerCell(l, k, TimerDn), TimerCell(l, k, TimerTt);
    var m := State([], seq(acc + dn + tt + 1, _ => 0));
    ConstantToCell(m, acc, 0);
    ConstantToCell(m, dn, 0);
    ConstantToCell(m, tt, 0);
    var b, c := [Lit(0)] + SaveTimer(l, k, TimerDn), [Lit(0)] + SaveTimer(l, k, TimerTt);
    ExecAppend(b, c, m);
    ExecAppend([Lit(0)] + SaveTimer(l, k, TimerAcc), b + c, m);
  }

  lemma {:induction false} ClosedRuns(l: Layout, k: nat)
    ensures Closed(TimerRuns(l, k))
  {
    hide Closed, ToBool, Exec;
    var dn, tt := TimerCell(l, k, TimerDn), TimerCell(l, k, TimerTt);
    var acc, pre := TimerCell(l, k, TimerAcc), TimerCell(l, k, TimerPre);
    var m := State([], seq(acc + pre + dn + tt + 2, _ => 0));
    AccumulateRuns(m, acc, SCAN_CELL, pre);
    DoneRuns(m, acc, pre, dn);
    TimingRuns(m, dn, tt);
    var a := LoadTimer(l, k, TimerAcc)
        + ([Cell(SCAN_CELL), Fetch] + ([Add] + (LoadTimer(l, k, TimerPre) + ([Min] + SaveTimer(l, k, TimerAcc)))));
    var b := LoadTimer(l, k, TimerAcc) + (LoadTimer(l, k, TimerPre) + ([Ge] + (ToBool() + SaveTimer(l, k, TimerDn))));
    var c := LoadTimer(l, k, TimerDn) + ([ZeroEq] + (ToBool() + SaveTimer(l, k, TimerTt)));
    ExecAppend(b, c, m);
    ExecAppend(a, b + c, m);
  }

  lemma {:induction false} ClearTimerAgrees(l: Layout, scan: int, k: nat, e: Engine, m: State, power: bool, upTo: nat)
    requires k < l.timers && Mirrors(l, scan, e.tags, m.cells)
    ensures Closed(StepCode(l, CLRTimer(k)))
    ensures Agrees(l, scan, m, Perform(scan, CLRTimer(k), e, power),
            Exec(StepCode(l, CLRTimer(k)), Push(m, [Bit(power)])), upTo)
  {
    hide Exec, Closed, TimerClears, UnderPower;
    var t := e.tags.timers[k];
    assert TimerHeld(l, k, t, m.cells);
    TimerClearsAgrees(l, k, t, Push(m, [Bit(true)]));
    UnderPowerRuns(TimerClears(l, k), m, power);
    if power {
      TimerKeeps(l, scan, e, k, ClearedTimer(t), m.cells, true, upTo);
    } else {
      KeptNothing(l, scan, e, m, power, upTo);
    }
  }

  // ----- any step -----

  /** One well-typed instruction: from any stack with the power on top, the code leaves the stack
   *  with the engine's output power and the cells with the engine's tags. */
  lemma {:induction false} StepAgrees(l: Layout, scan: int, i: LadderStep, e: Engine, m: State, power: bool, upTo: nat)
    requires StepKnown(l, i) && StepTyped(l, i) && Mirrors(l, scan, e.tags, m.cells)
    requires e.fits && Perform(scan, i, e, power).st.fits
    ensures Closed(StepCode(l, i))
    ensures Agrees(l, scan, m, Perform(scan, i, e, power), Exec(StepCode(l, i), Push(m, [Bit(power)])), upTo)
  {
    hide Exec, Closed, TimerWord, TimerClears, Save, ToBool, Load;
    match i
    case XIC(s) =>
      ContactRuns(l, scan, s, e, m, power);
      LoadRuns(l, scan, e.tags, s, m);
      KeptNothing(l, scan, e, m, power && Value(e.tags, s) != 0, upTo);
    case XIO(s) =>
      BlockerRuns(l, scan, s, e, m, power);
      KeptNothing(l, scan, e, m, power && Value(e.tags, s) == 0, upTo);
    case CMP(c, a, b) =>
      CompareRuns(l, scan, c, a, b, e, m, power);
      KeptNothing(l, scan, e, m, power && Compare(c, Value(e.tags, a), Value(e.tags, b)), upTo);
    case OTE(tag) => CoilAgrees(l, scan, tag, e, m, power, upTo);
    case OTL(tag) => ConstantAgrees(l, scan, tag, 1, e, m, power, upTo);
    case OTU(tag) => ConstantAgrees(l, scan, tag, 0, e, m, power, upTo);
    case TON(timer) => TimerAgrees(l, scan, timer, e, m, power, upTo);
    case MOV(tag, s) => MoveAgrees(l, scan, tag, s, e, m, power, upTo);
    case CLR(tag) => ConstantAgrees(l, scan, tag, 0, e, m, power, upTo);
    case CLRTimer(timer) => ClearTimerAgrees(l, scan, timer, e, m, power, upTo);
    case ABS(tag, s) =>
      var v := Value(e.tags, s);
      Wrap32Keeps(if v < 0 then -v else v);
      UnaryAgrees(l, scan, tag, s, Word.Abs, Wrap32(if v < 0 then -v else v), e, m, power, upTo);
    case NEG(tag, s) =>
      Wrap32Keeps(-Value(e.tags, s));
      UnaryAgrees(l, scan, tag, s, Negate, Wrap32(-Value(e.tags, s)), e, m, power, upTo);
    case MATH(_, _, _, _) => MathAgrees(l, scan, i, e, m, power, upTo);
  }

  /** A contact on a number reads its lowest bit: the backend and the engine disagree exactly on
   *  even numbers other than zero, under power. */
  lemma {:induction false} ContactsReadTheLowBit(l: Layout, scan: int, s: Source, e: Engine, m: State, power: bool)
    requires Known(l, s) && Mirrors(l, scan, e.tags, m.cells)
    ensures var v := Value(e.tags, s);
            Exec(StepCode(l, XIC(s)), Push(m, [Bit(power)]))
              == Some(Push(m, [Bit(Perform(scan, XIC(s), e, power).power)]))
            <==> !(power && v != 0 && v % 2 == 0)
  {
    hide Exec;
    var v := Value(e.tags, s);
    ContactRuns(l, scan, s, e, m, power);
    assert Push(m, [Bit(power && v % 2 == 1)]).stack[|m.stack|] == Bit(power && v % 2 == 1);
    assert Push(m, [Bit(power && v != 0)]).stack[|m.stack|] == Bit(power && v != 0);
  }
}
