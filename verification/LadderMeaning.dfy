/** What a ladder means to its author: instructions by mnemonic, tags by identity, values, and nothing of
 *  records, codes or slots in bytes. The compiler and the runtime are measured against this. */
module LadderMeaning {
  import opened Bytes
  import opened LadderTree
  import opened Semantics
  import opened Source

  // ----- the state of a project -----

  /** What a timer or counter instruction remembers: its last input, and since when it is timing. */
  datatype Mark = Mark(edge: bool, timing: bool, since: uint64)

  /** The storage of a bare one-shot, with its force. */
  datatype Shot = Shot(stored: bool, force: Option<Value>)

  /** The tags by identity and their forces; the one-shots and the marks in source order. */
  datatype World = World(data: map<nat, Data>, forces: map<nat, Value>, shots: seq<Shot>, marks: seq<Mark>)

  /** Why an instruction stops the scan. */
  datatype Problem = Overflow | ZeroDivisor | NoConversion | NegativePreset | MixedTypes | Malformed

  datatype Turn = Went(w: World, power: bool) | Stopped(w: World, why: Problem)

  // ----- reading and writing -----

  /** What a tag shows: its force where it has one. */
  function Showing(w: World, id: nat): Option<Value> {
    if id !in w.data then None
    else
      match w.data[id]
      case BoolD(b) => Some(if id in w.forces then w.forces[id] else BoolV(b))
      case DintD(d) => Some(if id in w.forces then w.forces[id] else DintV(d))
      case RealD(r) => Some(if id in w.forces then w.forces[id] else RealV(r))
      case _ => None
  }

  function MemberValue(d: Data, m: Member): Option<Value> {
    match d
    case TimerD(pre, acc, en, tt, dn) =>
      (match m
       case PRE => Some(DintV(pre)) case ACC => Some(DintV(acc))
       case EN => Some(BoolV(en)) case TT => Some(BoolV(tt)) case DN => Some(BoolV(dn))
       case _ => None)
    case CounterD(pre, acc, cu, cd, dn, ov, un) =>
      (match m
       case PRE => Some(DintV(pre)) case ACC => Some(DintV(acc))
       case CU => Some(BoolV(cu)) case CD => Some(BoolV(cd)) case DN => Some(BoolV(dn))
       case OV => Some(BoolV(ov)) case UN => Some(BoolV(un))
       case _ => None)
    case _ => None
  }

  function Reading(w: World, o: SourceOperand): Option<Value> {
    match o
    case LiteralOf(BoolLit(b)) => Some(BoolV(b))
    case LiteralOf(DintLit(v)) => if INT32_MIN <= v <= INT32_MAX then Some(DintV(v)) else None
    case LiteralOf(RealLit(bits)) => Some(RealV(bits))
    case LiteralOf(WideReal) => None
    case TagRef(id, None) => Showing(w, id)
    case TagRef(id, Some(m)) => if id in w.data then MemberValue(w.data[id], m) else None
  }

  function Assigned(w: World, id: nat, v: Value): World {
    w.(data := w.data[id := match v case BoolV(b) => BoolD(b) case DintV(d) => DintD(d) case RealV(r) => RealD(r)])
  }

  /** The tag an operand names as a whole. */
  function Named(w: World, o: SourceOperand): Option<nat> {
    if o.TagRef? && o.member.None? && o.tagId in w.data then Some(o.tagId) else None
  }

  // ----- bits -----

  function Contact(w: World, o: SourceOperand, power: bool, closed: bool): Turn {
    match Reading(w, o)
    case Some(BoolV(b)) => Went(w, power && b == closed)
    case _ => Stopped(w, Malformed)
  }

  function Coil(w: World, o: SourceOperand, power: bool, writes: bool, b: bool): Turn {
    match Named(w, o)
    case Some(id) => if writes then Went(Assigned(w, id, BoolV(b)), power) else Went(w, power)
    case None => Stopped(w, Malformed)
  }

  function OneShot(w: World, shot: nat, power: bool): Turn {
    if shot >= |w.shots| then Stopped(w, Malformed)
    else
      var s := w.shots[shot];
      var shown := if s.force.Some? then s.force == Some(BoolV(true)) else s.stored;
      Went(w.(shots := w.shots[shot := Shot(power, s.force)]), power && !shown)
  }

  // ----- timers and counters -----

  function OnDelay(w: World, o: SourceOperand, tick: uint64, slot: nat, power: bool): Turn {
    var tag := Named(w, o);
    if tag.None? || slot >= |w.marks| then Stopped(w, Malformed)
    else
      var id, mark := tag.value, w.marks[slot];
      match w.data[id]
      case TimerD(pre, acc, _, _, _) =>
        if pre < 0 then Stopped(w, NegativePreset)
        else if !power then
          Went(w.(data := w.data[id := TimerD(pre, 0, false, false, false)],
            marks := w.marks[slot := mark.(timing := false)]), power)
        else
          var ms := if mark.timing then ((tick - mark.since) % 0x1_0000_0000_0000_0000) / 1000 else 0;
          var now: int32 := if acc + ms > 0x7fff_ffff then 0x7fff_ffff else acc + ms;
          Went(w.(data := w.data[id := TimerD(pre, now, true, now < pre, now >= pre)],
                  marks := w.marks[slot := Mark(mark.edge, true, tick)]), power)
      case _ => Stopped(w, Malformed)
  }

  function Count(w: World, o: SourceOperand, slot: nat, power: bool, up: bool): Turn {
    var tag := Named(w, o);
    if tag.None? || slot >= |w.marks| then Stopped(w, Malformed)
    else
      var id, mark := tag.value, w.marks[slot];
      match w.data[id]
      case CounterD(pre, acc, cu, cd, _, ov, un) =>
        var rise, marks := power && !mark.edge, w.marks[slot := mark.(edge := power)];
        if up then
          var now: int32 := if !rise then acc else if acc == 0x7fff_ffff then -0x8000_0000 else acc + 1;
          Went(w.(data := w.data[id := CounterD(pre, now, power, cd, now >= pre, ov
            || (rise && acc == 0x7fff_ffff), un)],
                  marks := marks), power)
        else
          var now: int32 := if !rise then acc else if acc == -0x8000_0000 then 0x7fff_ffff else acc - 1;
          Went(w.(data := w.data[id := CounterD(pre, now, cu, power, now >= pre, ov, un
            || (rise && acc == -0x8000_0000))],
                  marks := marks), power)
      case _ => Stopped(w, Malformed)
  }

  predicate Remembers(m: Mnemonic) {
    m == TON || m == CTU || m == CTD
  }

  /** Instruction number slot among those that remember, counted from first, works on the tag. */
  predicate DrivenBy(steps: seq<SourceInstr>, first: nat, id: nat, slot: nat) {
    steps != [] &&
    if Remembers(steps[0].mnemonic) then
      (slot == first && steps[0].operands == [TagRef(id, None)]) || DrivenBy(steps[1..], first + 1, id, slot)
    else DrivenBy(steps[1..], first, id, slot)
  }

  /** Back to the start, PRE aside, with the marks of the instructions in sight that drive the tag. */
  function Reset(w: World, o: SourceOperand, insight: seq<SourceInstr>, power: bool): Turn {
    match Named(w, o)
    case None => Stopped(w, Malformed)
    case Some(id) =>
      if !power then Went(w, power)
      else
        var marks := seq(|w.marks|, k requires 0 <= k < |w.marks| =>
          if DrivenBy(insight, 0, id, k) then Mark(false, false, 0) else w.marks[k]);
        match w.data[id]
        case TimerD(pre, _, _, _, _) =>
          Went(w.(data := w.data[id := TimerD(pre, 0, false, false, false)], marks := marks), power)
        case CounterD(pre, _, _, _, _, _, _) =>
          Went(w.(data := w.data[id := CounterD(pre, 0, false, false, false, false, false)], marks := marks), power)
        case _ => Stopped(w, Malformed)
  }

  // ----- comparisons -----

  predicate Holds(m: Mnemonic, x: int, y: int) {
    match m
    case EQ => x == y
    case NE => x != y
    case GT => x > y
    case GE => x >= y
    case LT => x < y
    case LE => x <= y
    case _ => false
  }

  /** The number under which the host's REAL operations go. */
  function Key(m: Mnemonic): byte {
    match m
    case EQ => 32 case NE => 33 case GT => 34 case GE => 35 case LT => 36 case LE => 37
    case ADD => 50 case SUB => 51 case MUL => 52 case DIV => 53
    case _ => 0
  }

  function Comparison(reals: RealOps, w: World, m: Mnemonic, a: SourceOperand, b: SourceOperand, power: bool): Turn {
    match (Reading(w, a), Reading(w, b))
    case (Some(DintV(x)), Some(DintV(y))) => Went(w, power && Holds(m, x, y))
    case (Some(x), Some(y)) =>
      if x.BoolV? || y.BoolV? then Stopped(w, Malformed) else Went(w, power && reals.compare(Key(m), x, y))
    case _ => Stopped(w, Malformed)
  }

  // ----- moving and arithmetic -----

  function Move(reals: RealOps, w: World, a: SourceOperand, d: SourceOperand, power: bool): Turn {
    match (Reading(w, a), Named(w, d))
    case (Some(x), Some(id)) =>
      if !power then Went(w, power)
      else
        (match (x, w.data[id])
         case (BoolV(_), BoolD(_)) => Went(Assigned(w, id, x), power)
         case (DintV(_), DintD(_)) => Went(Assigned(w, id, x), power)
         case (RealV(_), RealD(_)) => Went(Assigned(w, id, x), power)
         case (DintV(n), RealD(_)) => Went(Assigned(w, id, RealV(reals.ofDint(n))), power)
         case (RealV(bits), DintD(_)) =>
           (match reals.toDint(bits)
            case Some(n) => Went(Assigned(w, id, DintV(n)), power)
            case None => Stopped(w, NoConversion))
         case _ => Stopped(w, NoConversion))
    case _ => Stopped(w, Malformed)
  }

  function Clear(w: World, d: SourceOperand, power: bool): Turn {
    match Named(w, d)
    case None => Stopped(w, Malformed)
    case Some(id) =>
      if !power then Went(w, power)
      else
        match w.data[id]
        case BoolD(_) => Went(Assigned(w, id, BoolV(false)), power)
        case DintD(_) => Went(Assigned(w, id, DintV(0)), power)
        case RealD(_) => Went(Assigned(w, id, RealV(0)), power)
        case _ => Stopped(w, Malformed)
  }

  /** Division rounds toward zero. */
  function Divided(a: int, b: int): int
    requires b != 0
  {
    if a >= 0 then (if b > 0 then a / b else -(a / -b)) else (if b > 0 then -(-a / b) else -a / -b)
  }

  function Computed(m: Mnemonic, a: int, b: int): int
    requires m == DIV ==> b != 0
  {
    match m
    case ADD => a + b
    case SUB => a - b
    case MUL => a * b
    case DIV => Divided(a, b)
    case _ => 0
  }

  function Stored(w: World, id: nat, n: int, power: bool): Turn {
    if INT32_MIN <= n <= INT32_MAX then Went(Assigned(w, id, DintV(n)), power) else Stopped(w, Overflow)
  }

  function InReal(reals: RealOps, v: Value): uint32 {
    match v
    case DintV(d) => reals.ofDint(d)
    case RealV(r) => r
    case BoolV(_) => 0
  }

  function Arithmetic(
      reals: RealOps, w: World, m: Mnemonic, a: SourceOperand, b: SourceOperand, d: SourceOperand, power: bool): Turn {
    match (Reading(w, a), Reading(w, b), Named(w, d))
    case (Some(x), Some(y), Some(id)) =>
      if x.BoolV? || y.BoolV? then Stopped(w, Malformed)
      else if !power then Went(w, power)
      else if w.data[id].RealD? then
        var r, q := InReal(reals, y), reals.arith(Key(m), InReal(reals, x), InReal(reals, y));
        if m == DIV && reals.isZero(r) then Stopped(w, ZeroDivisor)
        else if reals.isFinite(q) then Went(Assigned(w, id, RealV(q)), power)
        else Stopped(w, Overflow)
      else if x.RealV? || y.RealV? then Stopped(w, MixedTypes)
      else if m == DIV && y.d == 0 then Stopped(w, ZeroDivisor)
      else Stored(w, id, Computed(m, x.d, y.d), power)
    case _ => Stopped(w, Malformed)
  }

  function Sign(reals: RealOps, w: World, m: Mnemonic, a: SourceOperand, d: SourceOperand, power: bool): Turn {
    match (Reading(w, a), Named(w, d))
    case (Some(x), Some(id)) =>
      if x.BoolV? then Stopped(w, Malformed)
      else if !power then Went(w, power)
      else if w.data[id].RealD? then
        var r := InReal(reals, x);
        Went(Assigned(w, id, RealV(if m == NEG then reals.negate(r) else reals.absolute(r))), power)
      else if x.RealV? then Stopped(w, MixedTypes)
      else
        var n: int := x.d;
        Stored(w, id, if m == NEG || n < 0 then -n else n, power)
    case _ => Stopped(w, Malformed)
  }

  // ----- one instruction -----

  /** Where an instruction stands: its number among those that remember, and among the bare one-shots;
   *  insight are the instructions up to the end of its rung. */
  datatype Place = Place(slot: nat, shot: nat, insight: seq<SourceInstr>)

  function Arity(m: Mnemonic): nat {
    match m
    case EQ => 2 case NE => 2 case GT => 2 case GE => 2 case LT => 2 case LE => 2
    case MOV => 2 case NEG => 2 case ABS => 2
    case ADD => 3 case SUB => 3 case MUL => 3 case DIV => 3
    case _ => 1
  }

  function Meaning(reals: RealOps, tick: uint64, w: World, s: SourceInstr, at: Place, power: bool): Turn {
    var o := s.operands;
    if s.mnemonic == ONS then
      if o == [] then OneShot(w, at.shot, power) else Stopped(w, Malformed)
    else if |o| != Arity(s.mnemonic) then Stopped(w, Malformed)
    else
      Operation(reals, tick, w, s.mnemonic, o[0], if |o| > 1 then o[1] else o[0], if |o| > 2 then o[2] else o[0], at,
        power)
  }

  function Operation(
      reals: RealOps, tick: uint64, w: World, m: Mnemonic, a: SourceOperand, b: SourceOperand, d: SourceOperand,
      at: Place, power: bool): Turn
  {
    match m
    case XIC => Contact(w, a, power, true)
    case XIO => Contact(w, a, power, false)
    case OTE => Coil(w, a, power, true, power)
    case OTL => Coil(w, a, power, power, true)
    case OTU => Coil(w, a, power, power, false)
    case ONS => Stopped(w, Malformed)
    case TON => OnDelay(w, a, tick, at.slot, power)
    case CTU => Count(w, a, at.slot, power, true)
    case CTD => Count(w, a, at.slot, power, false)
    case RES => Reset(w, a, at.insight, power)
    case EQ => Comparison(reals, w, EQ, a, b, power)
    case NE => Comparison(reals, w, NE, a, b, power)
    case GT => Comparison(reals, w, GT, a, b, power)
    case GE => Comparison(reals, w, GE, a, b, power)
    case LT => Comparison(reals, w, LT, a, b, power)
    case LE => Comparison(reals, w, LE, a, b, power)
    case MOV => Move(reals, w, a, b, power)
    case CLR => Clear(w, a, power)
    case ADD => Arithmetic(reals, w, ADD, a, b, d, power)
    case SUB => Arithmetic(reals, w, SUB, a, b, d, power)
    case MUL => Arithmetic(reals, w, MUL, a, b, d, power)
    case DIV => Arithmetic(reals, w, DIV, a, b, d, power)
    case NEG => Sign(reals, w, NEG, a, b, power)
    case ABS => Sign(reals, w, ABS, a, b, power)
  }

  // ----- rungs -----

  /** How many of the instructions remember, and how many are bare one-shots. */
  function Remembering(steps: seq<SourceInstr>): nat {
    if steps == [] then 0 else (if Remembers(steps[0].mnemonic) then 1 else 0) + Remembering(steps[1..])
  }

  function Shots(steps: seq<SourceInstr>): nat {
    if steps == [] then 0
    else (if steps[0].mnemonic == ONS && steps[0].operands == [] then 1 else 0) + Shots(steps[1..])
  }

  /** The place behind some instructions. */
  function Behind(at: Place, steps: seq<SourceInstr>): Place {
    Place(at.slot + Remembering(steps), at.shot + Shots(steps), at.insight)
  }

  /** In series, power goes from node to node; the lanes of a branch are gone through left to right on
   *  the world as it stands, each with the power of the branch, which passes power when some lane does. */
  function RunTree(reals: RealOps, tick: uint64, w: World, nodes: seq<Node<SourceInstr>>, at: Place, power: bool): Turn
    decreases nodes
  {
    if nodes == [] then Went(w, power)
    else
      match RunNode(reals, tick, w, nodes[0], at, power)
      case Stopped(w1, why) => Stopped(w1, why)
      case Went(w1, power1) => RunTree(reals, tick, w1, nodes[1..], Behind(at, WalkNode(nodes[0])), power1)
  }

  function RunNode(reals: RealOps, tick: uint64, w: World, node: Node<SourceInstr>, at: Place, power: bool): Turn
    decreases node
  {
    match node
    case Step(s) => Meaning(reals, tick, w, s, at, power)
    case Branch(lanes) => RunLanes(reals, tick, w, lanes, at, power)
  }

  function RunLanes(reals: RealOps, tick: uint64, w: World, lanes: seq<Lane<SourceInstr>>, at: Place, power: bool): Turn
    decreases lanes
  {
    if lanes == [] then Went(w, false)
    else
      match RunTree(reals, tick, w, lanes[0].nodes, at, power)
      case Stopped(w1, why) => Stopped(w1, why)
      case Went(w1, out) =>
        match RunLanes(reals, tick, w1, lanes[1..], Behind(at, Walk(lanes[0].nodes)), power)
        case Stopped(w2, why) => Stopped(w2, why)
        case Went(w2, others) => Went(w2, out || others)
  }

  // ----- a scan -----

  /** The rungs in order, each with power at its start: the world after them and the power at the end of
   *  each, or where it stopped. */
  datatype Ran = Ran(w: World, powers: seq<bool>, stopped: Option<Problem>)

  function RunRungs(
      reals: RealOps, tick: uint64, w: World, rungs: seq<seq<Node<SourceInstr>>>, before: seq<SourceInstr>): Ran
    decreases |rungs|
  {
    if rungs == [] then Ran(w, [], None)
    else
      var steps := before + Walk(rungs[0]);
      match RunTree(reals, tick, w, rungs[0], Place(Remembering(before), Shots(before), steps), true)
      case Stopped(w1, why) => Ran(w1, [], Some(why))
      case Went(w1, power) =>
        var rest := RunRungs(reals, tick, w1, rungs[1..], steps);
        Ran(rest.w, [power] + rest.powers, rest.stopped)
  }
}
