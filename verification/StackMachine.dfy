/** The stack language of the second backend: words over a data stack and memory cells, with
 *  IF, ELSE and THEN in the flat word stream. */
module StackMachine {
  import opened Bytes

  datatype Word =
    | Lit(n: int)
    | Cell(at: nat)
    | Fetch | Store | Dup | Drop
    | And | Or | Add | Sub | Mul | Negate | Abs | Min
    | Eq | Ne | Gt | Ge | Lt | Le | ZeroEq | ZeroNe
    | If | Else | Then

  /** The top of the stack is its last element. A cell word pushes the address of a cell. */
  datatype State = State(stack: seq<int>, cells: seq<int>)

  // ----- arithmetic of 32-bit cells -----

  function AndNat(a: nat, b: nat): (r: nat)
    ensures r <= a
    decreases a
  {
    if a == 0 then 0 else (if a % 2 == 1 && b % 2 == 1 then 1 else 0) + 2 * AndNat(a / 2, b / 2)
  }

  function OrNat(a: nat, b: nat): nat
    decreases a + b
  {
    if a == 0 && b == 0 then 0 else (if a % 2 == 1 || b % 2 == 1 then 1 else 0) + 2 * OrNat(a / 2, b / 2)
  }

  /** Bitwise on two's complement words. */
  function BitAnd(a: int, b: int): int {
    Wrap32(AndNat(a % 0x1_0000_0000, b % 0x1_0000_0000))
  }

  function BitOr(a: int, b: int): int {
    Wrap32(OrNat(a % 0x1_0000_0000, b % 0x1_0000_0000))
  }

  function Flag(b: bool): int {
    if b then -1 else 0
  }

  function Binary(w: Word, a: int, b: int): Option<int> {
    match w
    case And => Some(BitAnd(a, b))
    case Or => Some(BitOr(a, b))
    case Add => Some(Wrap32(a + b))
    case Sub => Some(Wrap32(a - b))
    case Mul => Some(Wrap32(a * b))
    case Min => Some(if a < b then a else b)
    case Eq => Some(Flag(a == b))
    case Ne => Some(Flag(a != b))
    case Gt => Some(Flag(a > b))
    case Ge => Some(Flag(a >= b))
    case Lt => Some(Flag(a < b))
    case Le => Some(Flag(a <= b))
    case _ => None
  }

  function Unary(w: Word, a: int): Option<int> {
    match w
    case Negate => Some(Wrap32(-a))
    case Abs => Some(Wrap32(if a < 0 then -a else a))
    case ZeroEq => Some(Flag(a == 0))
    case ZeroNe => Some(Flag(a != 0))
    case _ => None
  }

  // ----- execution -----

  predicate Control(w: Word) {
    w.If? || w.Else? || w.Then?
  }

  /** One word that is not a control word; None where the stack is too short or the address bad. */
  function Do(w: Word, m: State): Option<State> {
    var n := |m.stack|;
    if w.Lit? then Some(m.(stack := m.stack + [w.n]))
    else if w.Cell? then Some(m.(stack := m.stack + [w.at]))
    else if n == 0 then None
    else
      var top, below := m.stack[n - 1], m.stack[..n - 1];
      if w.Dup? then Some(m.(stack := m.stack + [top]))
      else if w.Drop? then Some(m.(stack := below))
      else if w.Fetch? then (if 0 <= top < |m.cells| then Some(m.(stack := below + [m.cells[top]])) else None)
      else if Unary(w, top).Some? then Some(m.(stack := below + [Unary(w, top).value]))
      else if n == 1 then None
      else
        var second, rest := m.stack[n - 2], m.stack[..n - 2];
        if w.Store? then (if 0 <= top < |m.cells| then Some(State(rest, m.cells[top := second])) else None)
        else if Binary(w, second, top).Some? then Some(m.(stack := rest + [Binary(w, second, top).value]))
        else None
  }

  /** The code after the THEN, or also after the ELSE, that closes the IF we are in; nested IFs are
   *  skipped whole. */
  function Skip(code: seq<Word>, nested: nat, stopAtElse: bool): (rest: seq<Word>)
    ensures |rest| <= |code|
    decreases |code|
  {
    if code == [] then []
    else
      match code[0]
      case If => Skip(code[1..], nested + 1, stopAtElse)
      case Then => if nested == 0 then code[1..] else Skip(code[1..], nested - 1, stopAtElse)
      case Else => if nested == 0 && stopAtElse then code[1..] else Skip(code[1..], nested, stopAtElse)
      case _ => Skip(code[1..], nested, stopAtElse)
  }

  function Exec(code: seq<Word>, m: State): Option<State>
    decreases |code|
  {
    if code == [] then Some(m)
    else if code[0].If? then
      if m.stack == [] then None
      else
        var popped := m.(stack := m.stack[..|m.stack| - 1]);
        if m.stack[|m.stack| - 1] != 0 then Exec(code[1..], popped) else Exec(Skip(code[1..], 0, true), popped)
    else if code[0].Else? then Exec(Skip(code[1..], 0, false), m)
    else if code[0].Then? then Exec(code[1..], m)
    else
      match Do(code[0], m)
      case None => None
      case Some(m1) => Exec(code[1..], m1)
  }

  // ----- composition -----

  /** The code closes exactly the IFs it opens and the given number of IFs opened before it. */
  predicate Nested(code: seq<Word>, depth: nat)
    decreases |code|
  {
    if code == [] then depth == 0
    else
      match code[0]
      case If => Nested(code[1..], depth + 1)
      case Else => depth > 0 && Nested(code[1..], depth)
      case Then => depth > 0 && Nested(code[1..], depth - 1)
      case _ => Nested(code[1..], depth)
  }

  predicate Closed(code: seq<Word>) {
    Nested(code, 0)
  }

  lemma {:induction false} NestedAppend(a: seq<Word>, b: seq<Word>, depth: nat)
    requires Nested(a, depth) && Closed(b)
    ensures Nested(a + b, depth)
    decreases |a|
  {
    if a == [] {
      assert a + b == b;
    } else {
      assert (a + b)[0] == a[0] && (a + b)[1..] == a[1..] + b;
      match a[0]
      case If => NestedAppend(a[1..], b, depth + 1);
      case Then => NestedAppend(a[1..], b, depth - 1);
      case _ => NestedAppend(a[1..], b, depth);
    }
  }

  /** Skipping inside a stretch that closes its IFs does not look past the stretch. */
  lemma {:induction false} SkipInside(a: seq<Word>, b: seq<Word>, depth: nat, nested: nat, stopAtElse: bool)
    requires Nested(a, depth) && nested < depth
    ensures Skip(a + b, nested, stopAtElse) == Skip(a, nested, stopAtElse) + b
    ensures exists d: nat :: d <= depth - nested && d + 1 >= depth - nested && Nested(Skip(a, nested, stopAtElse), d)
    decreases |a|
  {
    assert (a + b)[0] == a[0] && (a + b)[1..] == a[1..] + b;
    match a[0]
    case If => SkipInside(a[1..], b, depth + 1, nested + 1, stopAtElse);
    case Then =>
      if nested == 0 {
        assert Nested(a[1..], depth - 1);
      } else {
        SkipInside(a[1..], b, depth - 1, nested - 1, stopAtElse);
      }
    case Else =>
      if nested == 0 && stopAtElse {
        assert Nested(a[1..], depth);
      } else {
        SkipInside(a[1..], b, depth, nested, stopAtElse);
      }
    case _ => SkipInside(a[1..], b, depth, nested, stopAtElse);
  }

  function After(first: Option<State>, code: seq<Word>): Option<State> {
    match first
    case None => None
    case Some(m) => Exec(code, m)
  }

  lemma {:induction false} ExecPrefix(a: seq<Word>, b: seq<Word>, depth: nat, m: State)
    requires Nested(a, depth)
    ensures Exec(a + b, m) == After(Exec(a, m), b)
    decreases |a|
  {
    hide Do;
    if a == [] {
      assert a + b == b;
    } else {
      assert (a + b)[0] == a[0] && (a + b)[1..] == a[1..] + b;
      if a[0].If? {
        if m.stack != [] {
          var popped := m.(stack := m.stack[..|m.stack| - 1]);
          ExecPrefix(a[1..], b, depth + 1, popped);
          SkipInside(a[1..], b, depth + 1, 0, true);
          var d: nat :| d <= depth + 1 && d + 1 >= depth + 1 && Nested(Skip(a[1..], 0, true), d);
          ExecPrefix(Skip(a[1..], 0, true), b, d, popped);
        }
      } else if a[0].Else? {
        SkipInside(a[1..], b, depth, 0, false);
        var d: nat :| d <= depth && d + 1 >= depth && Nested(Skip(a[1..], 0, false), d);
        ExecPrefix(Skip(a[1..], 0, false), b, d, m);
      } else if a[0].Then? {
        ExecPrefix(a[1..], b, depth - 1, m);
      } else if Do(a[0], m).Some? {
        ExecPrefix(a[1..], b, depth, Do(a[0], m).value);
      }
    }
  }

  /** Closed code runs before what follows it, whatever that is. */
  lemma {:induction false} ExecAppend(a: seq<Word>, b: seq<Word>, m: State)
    requires Closed(a)
    ensures Exec(a + b, m) == After(Exec(a, m), b)
    ensures Closed(b) ==> Closed(a + b)
  {
    ExecPrefix(a, b, 0, m);
    if Closed(b) {
      NestedAppend(a, b, 0);
    }
  }

  lemma {:induction false} ExecWord(w: Word, m: State)
    requires !Control(w)
    ensures Closed([w]) && Exec([w], m) == Do(w, m)
  {
    assert [w][1..] == [];
  }

  lemma {:induction false} ExecNothing(m: State)
    ensures Closed([]) && Exec([], m) == Some(m)
  {
  }

  // ----- phrases -----

  /** Skipping the closed body of a branch of an IF ends just after it. */
  lemma {:induction false} SkipClosed(a: seq<Word>, b: seq<Word>, depth: nat, stopAtElse: bool)
    requires Nested(a, depth)
    ensures Skip(a + b, depth, stopAtElse) == Skip(b, 0, stopAtElse)
    decreases |a|
  {
    if a == [] {
      assert a + b == b;
    } else {
      assert (a + b)[0] == a[0] && (a + b)[1..] == a[1..] + b;
      match a[0]
      case If => SkipClosed(a[1..], b, depth + 1, stopAtElse);
      case Then => SkipClosed(a[1..], b, depth - 1, stopAtElse);
      case _ => SkipClosed(a[1..], b, depth, stopAtElse);
    }
  }

  function IfThen(body: seq<Word>): seq<Word> {
    [If] + body + [Then]
  }

  function IfElse(yes: seq<Word>, no: seq<Word>): seq<Word> {
    [If] + yes + [Else] + no + [Then]
  }

  lemma {:induction false} NestedInside(a: seq<Word>, b: seq<Word>, depth: nat, more: nat)
    requires Nested(a, depth) && Nested(b, more)
    ensures Nested(a + b, depth + more)
    decreases |a|
  {
    if a == [] {
      assert a + b == b;
    } else {
      assert (a + b)[0] == a[0] && (a + b)[1..] == a[1..] + b;
      match a[0]
      case If => NestedInside(a[1..], b, depth + 1, more);
      case Then => NestedInside(a[1..], b, depth - 1, more);
      case _ => NestedInside(a[1..], b, depth, more);
    }
  }

  lemma {:induction false} EndsThere(m: State)
    ensures Nested([Then], 1) && Exec([Then], m) == Some(m) && Skip([Then], 0, true) == []
            && Skip([Then], 0, false) == []
  {
    assert [Then][1..] == [];
  }

  lemma {:induction false} ThenEnds(o: Option<State>)
    ensures After(o, [Then]) == o
  {
    if o.Some? {
      EndsThere(o.value);
    }
  }

  lemma {:induction false} ExecIfThen(body: seq<Word>, m: State, x: int)
    requires Closed(body)
    ensures Closed(IfThen(body))
    ensures Exec(IfThen(body), m.(stack := m.stack + [x])) == if x != 0 then Exec(body, m) else Some(m)
  {
    var code, tail := IfThen(body), [Then];
    assert code[0] == If && code[1..] == body + tail;
    EndsThere(m);
    NestedInside(body, tail, 0, 1);
    ExecAppend(body, tail, m);
    ThenEnds(Exec(body, m));
    SkipClosed(body, tail, 0, true);
    ExecNothing(m);
    assert (m.stack + [x])[..|m.stack|] == m.stack;
  }

  lemma {:induction false} ExecIfElse(yes: seq<Word>, no: seq<Word>, m: State, x: int)
    requires Closed(yes) && Closed(no)
    ensures Closed(IfElse(yes, no))
    ensures Exec(IfElse(yes, no), m.(stack := m.stack + [x])) == if x != 0 then Exec(yes, m) else Exec(no, m)
  {
    hide Closed, Do;
    var code, end := IfElse(yes, no), no + [Then];
    var tail := [Else] + end;
    assert code[0] == If && code[1..] == yes + tail && tail[0] == Else && tail[1..] == end;
    ElseNests(yes, no);
    ExecAppend(yes, tail, m);
    ExecAppend(no, [Then], m);
    ThenEnds(Exec(no, m));
    ElseSkips(yes, no);
    if Exec(yes, m).Some? {
      ExecNothing(Exec(yes, m).value);
    }
    assert (m.stack + [x])[..|m.stack|] == m.stack;
  }

  lemma {:induction false} ElseNests(yes: seq<Word>, no: seq<Word>)
    requires Closed(yes) && Closed(no)
    ensures Closed(IfElse(yes, no))
  {
    var code, end := IfElse(yes, no), no + [Then];
    var tail := [Else] + end;
    assert code[0] == If && code[1..] == yes + tail && tail[0] == Else && tail[1..] == end;
    EndsThere(State([], []));
    NestedInside(no, [Then], 0, 1);
    NestedInside(yes, tail, 0, 1);
  }

  lemma {:induction false} ElseSkips(yes: seq<Word>, no: seq<Word>)
    requires Closed(yes) && Closed(no)
    ensures var end := no + [Then]; Skip(end, 0, false) == [] && Skip(yes + ([Else] + end), 0, true) == end
  {
    var end := no + [Then];
    EndsThere(State([], []));
    SkipClosed(no, [Then], 0, false);
    SkipClosed(yes, [Else] + end, 0, true);
    assert ([Else] + end)[1..] == end;
  }

  /** The word PLC.BOOL: 1 for anything but zero. */
  function ToBool(): seq<Word> {
    [ZeroNe] + IfElse([Lit(1)], [Lit(0)])
  }

  function Bit(b: bool): int {
    if b then 1 else 0
  }

  /** A state with more values on the stack. */
  function Push(m: State, values: seq<int>): State {
    m.(stack := m.stack + values)
  }

  lemma {:induction false} ExecToBool(m: State, x: int)
    ensures Closed(ToBool()) && Exec(ToBool(), Push(m, [x])) == Some(Push(m, [Bit(x != 0)]))
  {
    hide Exec, Closed;
    ExecWord(ZeroNe, Push(m, [x]));
    assert Do(ZeroNe, Push(m, [x])) == Some(Push(m, [Flag(x != 0)]));
    ExecWord(Lit(1), m);
    ExecWord(Lit(0), m);
    ExecIfElse([Lit(1)], [Lit(0)], m, Flag(x != 0));
    ExecAppend([ZeroNe], IfElse([Lit(1)], [Lit(0)]), Push(m, [x]));
  }

  lemma {:induction false} ExecFetch(m: State, at: nat)
    requires at < |m.cells|
    ensures Closed([Cell(at), Fetch]) && Exec([Cell(at), Fetch], m) == Some(Push(m, [m.cells[at]]))
  {
    hide Exec, Closed;
    ExecWord(Cell(at), m);
    ExecWord(Fetch, Push(m, [at]));
    ExecAppend([Cell(at)], [Fetch], m);
    assert [Cell(at)] + [Fetch] == [Cell(at), Fetch];
  }

  lemma {:induction false} ExecStore(m: State, at: nat, x: int)
    requires at < |m.cells|
    ensures Closed([Cell(at), Store]) && Exec([Cell(at), Store], Push(m, [x])) == Some(m.(cells := m.cells[at := x]))
  {
    hide Exec, Closed;
    var one := Push(m, [x]);
    var two := Push(one, [at]);
    assert two.stack == m.stack + [x, at] && two.stack[..|two.stack| - 2] == m.stack;
    ExecWord(Cell(at), one);
    ExecWord(Store, two);
    ExecAppend([Cell(at)], [Store], one);
    assert [Cell(at)] + [Store] == [Cell(at), Store];
  }

  /** A word that replaces the two top values. */
  lemma {:induction false} ExecBinary(m: State, w: Word, a: int, b: int)
    requires Binary(w, a, b).Some?
    ensures Closed([w]) && Exec([w], Push(m, [a, b])) == Some(Push(m, [Binary(w, a, b).value]))
  {
    hide Exec, Closed;
    var two := Push(m, [a, b]);
    assert two.stack[..|two.stack| - 2] == m.stack;
    ExecWord(w, two);
  }

  lemma {:induction false} ExecUnary(m: State, w: Word, a: int)
    requires Unary(w, a).Some?
    ensures Closed([w]) && Exec([w], Push(m, [a])) == Some(Push(m, [Unary(w, a).value]))
  {
    hide Exec, Closed;
    ExecWord(w, Push(m, [a]));
  }

  lemma {:induction false} ExecDup(m: State, a: int)
    ensures Closed([Dup]) && Exec([Dup], Push(m, [a])) == Some(Push(Push(m, [a]), [a]))
  {
    ExecWord(Dup, Push(m, [a]));
  }

  lemma {:induction false} AndBits(p: bool, x: int)
    ensures BitAnd(Bit(p), x) == Bit(p && x % 2 == 1)
    ensures BitAnd(x, Bit(p)) == Bit(p && x % 2 == 1)
  {
    var u := x % 0x1_0000_0000;
    AndOne(u);
    assert u % 2 == x % 2;
  }

  lemma {:induction false} AndOne(u: nat)
    ensures AndNat(1, u) == u % 2 && AndNat(u, 1) == u % 2 && AndNat(0, u) == 0 && AndNat(u, 0) == 0
  {
    if u > 0 {
      AndOne(u / 2);
      AndZero(u / 2);
    }
  }

  lemma {:induction false} AndZero(u: nat)
    ensures AndNat(u, 0) == 0 && AndNat(0, u) == 0
  {
    if u > 0 {
      AndZero(u / 2);
    }
  }

  lemma {:induction false} OrOne(a: nat, b: nat)
    requires a <= 1 && b <= 1
    ensures OrNat(a, b) == if a == 1 || b == 1 then 1 else 0
  {
    assert OrNat(0, 0) == 0 && a / 2 == 0 && b / 2 == 0;
  }

  lemma {:induction false} OrBits(p: bool, q: bool)
    ensures BitOr(Bit(p), Bit(q)) == Bit(p || q)
  {
    var a, b := Bit(p), Bit(q);
    assert a % 0x1_0000_0000 == a && b % 0x1_0000_0000 == b;
    OrOne(a, b);
  }
}
