/** Running a bracketed instruction stream, and why it means what the rung tree means.
 *
 *  The store S, the faults F and the instruction step are parameters: nothing here depends on
 *  what a single instruction does. */
module ControlFlow {
  import opened Bytes
  import opened Instructions
  import opened LadderTree

  /** The effect of one instruction: a new store and the power it passes on, or a fault. */
  datatype Effect<+S, +F> = Passed(st: S, power: bool) | Failed(st: S, fault: F)

  /** exec runs one ordinary instruction; branchFault is the fault of a malformed branch. */
  datatype Interpreter<!S, !F> = Interpreter(exec: (Instr, S, bool) -> Effect<S, F>, branchFault: byte -> F)

  /** One executed instruction with the power it received and the power it passed on. */
  datatype Event = Event(instr: Instr, inp: bool, out: bool)

  /** rest is the code not yet consumed. RanOff is the end of the code inside a lane. */
  datatype Outcome<+S, +F> =
    | Done(st: S, power: bool, rest: seq<Instr>, log: seq<Event>)
    | Faulted(st: S, fault: F)
    | RanOff(st: S)

  function WithLog<S, F>(log: seq<Event>, o: Outcome<S, F>): Outcome<S, F> {
    match o
    case Done(st, power, rest, more) => Done(st, power, rest, log + more)
    case Faulted(_, _) => o
    case RanOff(_) => o
  }

  // ----- the interpreter -----

  /** `run_until`: from the head of the code up to the stop opcode or the end. */
  function Run<S, F>(m: Interpreter<S, F>, code: seq<Instr>, st: S, power: bool, stop: byte): (o: Outcome<S, F>)
    ensures o.Done? ==> |o.rest| <= |code|
    ensures o.Done? && stop != 0 ==> o.rest != [] && o.rest[0].op == stop
    decreases |code|, 1
  {
    if code == [] then
      if stop == 0 then Done(st, power, [], []) else RanOff(st)
    else if code[0].op == stop then
      Done(st, power, code, [])
    else if code[0].op == OP_BRANCH_BEGIN then
      match RunLanes(m, code[1..], st, power, false, 0)
      case Done(st1, merged, rest, log) => WithLog(log, Run(m, rest, st1, merged, stop))
      case Faulted(st1, f) => Faulted(st1, f)
      case RanOff(st1) => RanOff(st1)
    else if IsControl(code[0].op) then
      Faulted(st, m.branchFault(code[0].op))
    else
      match m.exec(code[0], st, power)
      case Passed(st1, power1) => WithLog([Event(code[0], power, power1)], Run(m, code[1..], st1, power1, stop))
      case Failed(st1, f) => Faulted(st1, f)
  }

  /** The lanes of a branch: each starts from the branch's input power, on the store the previous
   *  lane left; the branch passes power when some lane does. */
  function RunLanes<S, F>(
      m: Interpreter<S, F>, code: seq<Instr>, st: S, input: bool, merged: bool, lanes: nat): (o: Outcome<S, F>)
    ensures o.Done? ==> |o.rest| <= |code|
    decreases |code|, 0
  {
    if code != [] && code[0].op == OP_LANE_BEGIN then
      match Run(m, code[1..], st, input, OP_LANE_END)
      case Done(st1, out, rest, log) => WithLog(log, RunLanes(m, rest[1..], st1, input, merged || out, lanes + 1))
      case Faulted(st1, f) => Faulted(st1, f)
      case RanOff(st1) => RanOff(st1)
    else if lanes == 0 || code == [] || code[0].op != OP_BRANCH_END then
      Faulted(st, m.branchFault(OP_BRANCH_BEGIN))
    else
      Done(st, merged, code[1..], [])
  }

  // ----- the tree semantics -----

  /** A rung tree evaluated directly: instructions in series pass power on; the lanes of a branch
   *  run left to right on the shared store, each from the branch's input power, and the branch
   *  passes power when some lane does. */
  datatype Meaning<+S, +F> = Out(st: S, power: bool, log: seq<Event>) | Fault(st: S, fault: F)

  function Eval<S, F>(m: Interpreter<S, F>, nodes: seq<Node<Instr>>, st: S, power: bool): Meaning<S, F>
    decreases nodes
  {
    if nodes == [] then Out(st, power, [])
    else
      match EvalNode(m, nodes[0], st, power)
      case Fault(st1, f) => Fault(st1, f)
      case Out(st1, power1, log) =>
        match Eval(m, nodes[1..], st1, power1)
        case Fault(st2, f) => Fault(st2, f)
        case Out(st2, power2, more) => Out(st2, power2, log + more)
  }

  function EvalNode<S, F>(m: Interpreter<S, F>, node: Node<Instr>, st: S, power: bool): Meaning<S, F>
    decreases node
  {
    match node
    case Step(i) =>
      (match m.exec(i, st, power)
       case Passed(st1, power1) => Out(st1, power1, [Event(i, power, power1)])
       case Failed(st1, f) => Fault(st1, f))
    case Branch(lanes) =>
      if lanes == [] then Fault(st, m.branchFault(OP_BRANCH_BEGIN)) else EvalLanes(m, lanes, st, power)
  }

  function EvalLanes<S, F>(m: Interpreter<S, F>, lanes: seq<Lane<Instr>>, st: S, power: bool): Meaning<S, F>
    decreases lanes
  {
    if lanes == [] then Out(st, false, [])
    else
      match Eval(m, lanes[0].nodes, st, power)
      case Fault(st1, f) => Fault(st1, f)
      case Out(st1, out, log) =>
        match EvalLanes(m, lanes[1..], st1, power)
        case Fault(st2, f) => Fault(st2, f)
        case Out(st2, others, more) => Out(st2, out || others, log + more)
  }

  // ----- flattening -----

  function Control(op: byte, id: nat): Instr {
    Instr(op, id, -1, [])
  }

  /** The bracketed stream of a rung tree, its records numbered from id on. */
  function Flatten(nodes: seq<Node<Instr>>, id: nat): seq<Instr>
    decreases nodes
  {
    if nodes == [] then [] else
      var first := FlattenNode(nodes[0], id);
      first + Flatten(nodes[1..], id + |first|)
  }

  function FlattenNode(node: Node<Instr>, id: nat): seq<Instr>
    decreases node
  {
    match node
    case Step(i) => [i]
    case Branch(lanes) =>
      var inner := FlattenLanes(lanes, id + 1);
      [Control(OP_BRANCH_BEGIN, id)] + inner + [Control(OP_BRANCH_END, id + 1 + |inner|)]
  }

  function FlattenLanes(lanes: seq<Lane<Instr>>, id: nat): seq<Instr>
    decreases lanes
  {
    if lanes == [] then [] else
      var first := FlattenLane(lanes[0], id);
      first + FlattenLanes(lanes[1..], id + |first|)
  }

  function FlattenLane(lane: Lane<Instr>, id: nat): seq<Instr>
    decreases lane
  {
    var body := Flatten(lane.nodes, id + 1);
    [Control(OP_LANE_BEGIN, id)] + body + [Control(OP_LANE_END, id + 1 + |body|)]
  }

  /** No instruction of the tree is itself a bracket or the end marker 0. */
  predicate Ordinary(code: seq<Instr>) {
    forall i | i in code :: !IsControl(i.op) && i.op != 0
  }

  /** What a tree value means for the code that follows the tree. */
  function Continue<S, F>(m: Interpreter<S, F>, v: Meaning<S, F>, rest: seq<Instr>, stop: byte): Outcome<S, F> {
    match v
    case Fault(st, f) => Faulted(st, f)
    case Out(st, power, log) => WithLog(log, Run(m, rest, st, power, stop))
  }

  lemma {:induction false} AfterAfter<S, F>(a: seq<Event>, b: seq<Event>, o: Outcome<S, F>)
    ensures WithLog(a, WithLog(b, o)) == WithLog(a + b, o)
  {
    if o.Done? {
      assert a + (b + o.log) == (a + b) + o.log;
    }
  }

  // ----- compiler correctness -----

  /** Running the stream of a tree is evaluating the tree, then running what follows: the same
   *  store, the same power, the same fault, the same executed instructions; and the run consumes
   *  the stream of the tree exactly. */
  lemma {:induction false} RunIsEval<S, F>(
      m: Interpreter<S, F>, nodes: seq<Node<Instr>>, id: nat, rest: seq<Instr>, st: S, power: bool, stop: byte)
    requires Ordinary(Walk(nodes)) && (stop == 0 || stop == OP_LANE_END)
    ensures Run(m, Flatten(nodes, id) + rest, st, power, stop) == Continue(m, Eval(m, nodes, st, power), rest, stop)
    decreases nodes
  {
    if nodes == [] {
      assert Flatten(nodes, id) + rest == rest;
      AfterNothing(Run(m, rest, st, power, stop));
    } else {
      var first := FlattenNode(nodes[0], id);
      var tail := Flatten(nodes[1..], id + |first|);
      assert Flatten(nodes, id) + rest == first + (tail + rest);
      assert forall i | i in Walk(nodes[1..]) :: i in Walk(nodes);
      assert forall i | i in WalkNode(nodes[0]) :: i in Walk(nodes);
      RunNodeIsEval(m, nodes[0], id, tail + rest, st, power, stop);
      match EvalNode(m, nodes[0], st, power)
      case Fault(st1, f) =>
      case Out(st1, power1, log) =>
        RunIsEval(m, nodes[1..], id + |first|, rest, st1, power1, stop);
        match Eval(m, nodes[1..], st1, power1)
        case Fault(_, _) =>
        case Out(st2, power2, more) => AfterAfter(log, more, Run(m, rest, st2, power2, stop));
    }
  }

  lemma {:induction false} AfterNothing<S, F>(o: Outcome<S, F>)
    ensures WithLog([], o) == o
  {
    if o.Done? {
      assert [] + o.log == o.log;
    }
  }

  lemma {:induction false} RunNodeIsEval<S, F>(
      m: Interpreter<S, F>, node: Node<Instr>, id: nat, rest: seq<Instr>, st: S, power: bool, stop: byte)
    requires Ordinary(WalkNode(node)) && (stop == 0 || stop == OP_LANE_END)
    ensures Run(m, FlattenNode(node, id) + rest, st, power, stop)
            == Continue(m, EvalNode(m, node, st, power), rest, stop)
    decreases node
  {
    var code := FlattenNode(node, id) + rest;
    match node
    case Step(i) =>
      assert i in WalkNode(node);
      assert code[0] == i && code[1..] == rest;
    case Branch(lanes) =>
      var inner := FlattenLanes(lanes, id + 1);
      var end := Control(OP_BRANCH_END, id + 1 + |inner|);
      assert code[0].op == OP_BRANCH_BEGIN && code[1..] == inner + ([end] + rest);
      RunLanesIsEval(m, lanes, id + 1, end, rest, st, power, false, 0);
  }

  lemma {:induction false} RunStopped<S, F>(
      m: Interpreter<S, F>, code: seq<Instr>, st: S, power: bool, stop: byte, log: seq<Event>)
    requires code != [] && code[0].op == stop
    ensures Run(m, code, st, power, stop) == Done(st, power, code, [])
    ensures WithLog(log, Run(m, code, st, power, stop)) == Done(st, power, code, log)
  {
    assert log + [] == log;
  }

  lemma {:induction false} RunLanesIsEval<S, F>(
      m: Interpreter<S, F>, lanes: seq<Lane<Instr>>, id: nat, end: Instr, rest: seq<Instr>, st: S, power: bool,
      merged: bool, count: nat)
    requires Ordinary(WalkLanes(lanes)) && end.op == OP_BRANCH_END
    ensures RunLanes(m, FlattenLanes(lanes, id) + ([end] + rest), st, power, merged, count)
         == if lanes == [] && count == 0 then Faulted(st, m.branchFault(OP_BRANCH_BEGIN)) else
            match EvalLanes(m, lanes, st, power)
            case Fault(st1, f) => Faulted(st1, f)
            case Out(st1, out, log) => Done(st1, merged || out, rest, log)
    decreases lanes
  {
    hide Run, Eval, FlattenLane, Flatten;
    if lanes == [] {
      assert FlattenLanes(lanes, id) + ([end] + rest) == [end] + rest;
      assert ([end] + rest)[1..] == rest;
    } else {
      var first := FlattenLane(lanes[0], id);
      var others := FlattenLanes(lanes[1..], id + |first|) + ([end] + rest);
      assert FlattenLanes(lanes, id) + ([end] + rest) == first + others;
      assert forall i | i in Walk(lanes[0].nodes) :: i in WalkLanes(lanes);
      assert forall i | i in WalkLanes(lanes[1..]) :: i in WalkLanes(lanes);
      RunLaneIsEval(m, lanes[0], id, others, st, power, merged, count);
      match Eval(m, lanes[0].nodes, st, power)
      case Fault(_, _) =>
      case Out(st1, out, log) =>
        RunLanesIsEval(m, lanes[1..], id + |first|, end, rest, st1, power, merged || out, count + 1);
    }
  }

  lemma {:induction false} RunLaneIsEval<S, F>(
      m: Interpreter<S, F>, lane: Lane<Instr>, id: nat, others: seq<Instr>, st: S, power: bool, merged: bool,
      count: nat)
    requires Ordinary(Walk(lane.nodes))
    ensures RunLanes(m, FlattenLane(lane, id) + others, st, power, merged, count)
         == match Eval(m, lane.nodes, st, power)
            case Fault(st1, f) => Faulted(st1, f)
            case Out(st1, out, log) => WithLog(log, RunLanes(m, others, st1, power, merged || out, count + 1))
    decreases lane
  {
    var code := FlattenLane(lane, id) + others;
    var body := Flatten(lane.nodes, id + 1);
    var close := Control(OP_LANE_END, id + 1 + |body|);
    assert code[0].op == OP_LANE_BEGIN && code[1..] == body + ([close] + others);
    RunIsEval(m, lane.nodes, id + 1, [close] + others, st, power, OP_LANE_END);
    match Eval(m, lane.nodes, st, power)
    case Fault(_, _) =>
    case Out(st1, out, log) =>
      RunStopped(m, [close] + others, st1, out, OP_LANE_END, log);
      assert ([close] + others)[1..] == others;
  }

  /** An outcome without its log: what the interpreter itself keeps. */
  function Bare<S, F>(o: Outcome<S, F>): Outcome<S, F> {
    match o
    case Done(st, power, rest, _) => Done(st, power, rest, [])
    case Faulted(_, _) => o
    case RanOff(_) => o
  }

  lemma {:induction false} RunEnded<S, F>(m: Interpreter<S, F>, code: seq<Instr>, st: S, power: bool, stop: byte)
    requires code == []
    ensures Run(m, code, st, power, stop) == if stop == 0 then Done(st, power, [], []) else RanOff(st)
  {
  }

  function Stepped<S, F>(m: Interpreter<S, F>, code: seq<Instr>, st: S, power: bool): Outcome<S, F>
    requires code != []
  {
    match m.exec(code[0], st, power)
    case Passed(st1, power1) => Done(st1, power1, code[1..], [])
    case Failed(st1, f) => Faulted(st1, f)
  }

  /** The rest of a run whose first part ended so. */
  function Resume<S, F>(m: Interpreter<S, F>, first: Outcome<S, F>, stop: byte): Outcome<S, F> {
    match first
    case Done(st, power, rest, _) => Bare(Run(m, rest, st, power, stop))
    case Faulted(_, _) => first
    case RanOff(_) => first
  }

  /** The rest of a branch whose current lane ended so. */
  function ResumeLanes<S, F>(
      m: Interpreter<S, F>, lane: Outcome<S, F>, input: bool, merged: bool, lanes: nat): Outcome<S, F>
    requires lane.Done? ==> lane.rest != []
  {
    match lane
    case Done(st, power, rest, _) => Bare(RunLanes(m, rest[1..], st, input, merged || power, lanes + 1))
    case Faulted(_, _) => lane
    case RanOff(_) => lane
  }

  /** One turn of the interpreter's loop. */
  lemma {:induction false} RunTurn<S, F>(m: Interpreter<S, F>, code: seq<Instr>, st: S, power: bool, stop: byte)
    requires code != [] && code[0].op != stop
    ensures Bare(Run(m, code, st, power, stop))
         == if code[0].op == OP_BRANCH_BEGIN then Resume(m, RunLanes(m, code[1..], st, power, false, 0), stop)
            else if IsControl(code[0].op) then Faulted(st, m.branchFault(code[0].op))
            else Resume(m, Stepped(m, code, st, power), stop)
  {
  }

  /** One turn of the loop over the lanes of a branch. */
  lemma {:induction false} LanesTurn<S, F>(
      m: Interpreter<S, F>, code: seq<Instr>, st: S, input: bool, merged: bool, lanes: nat)
    ensures Bare(RunLanes(m, code, st, input, merged, lanes))
         == if code != [] && code[0].op == OP_LANE_BEGIN then
              ResumeLanes(m, Run(m, code[1..], st, input, OP_LANE_END), input, merged, lanes)
            else if lanes == 0 || code == [] || code[0].op != OP_BRANCH_END then
              Faulted(st, m.branchFault(OP_BRANCH_BEGIN))
            else Done(st, merged, code[1..], [])
  {
  }

  // ----- what a run executed -----

  function Instrs(log: seq<Event>): seq<Instr> {
    seq(|log|, k requires 0 <= k < |log| => log[k].instr)
  }

  /** The code without its brackets. */
  function Executed(code: seq<Instr>): seq<Instr> {
    if code == [] then [] else (if IsControl(code[0].op) then [] else [code[0]]) + Executed(code[1..])
  }

  /** The events of a log, run one after the other with the recorded powers. */
  function Replay<S, F>(m: Interpreter<S, F>, log: seq<Event>, st: S): Option<S> {
    if log == [] then Some(st)
    else
      match m.exec(log[0].instr, st, log[0].inp)
      case Failed(_, _) => None
      case Passed(st1, out) => if out == log[0].out then Replay(m, log[1..], st1) else None
  }

  lemma {:induction false} ReplayAppend<S, F>(m: Interpreter<S, F>, a: seq<Event>, b: seq<Event>, st: S)
    ensures Replay(m, a + b, st) == match Replay(m, a, st) case None => None case Some(st1) => Replay(m, b, st1)
    decreases |a|
  {
    if a == [] {
      assert a + b == b;
    } else {
      assert (a + b)[0] == a[0] && (a + b)[1..] == a[1..] + b;
      match m.exec(a[0].instr, st, a[0].inp)
      case Failed(_, _) =>
      case Passed(st1, out) => ReplayAppend(m, a[1..], b, st1);
    }
  }

  lemma {:induction false} ExecutedAppend(a: seq<Instr>, b: seq<Instr>)
    ensures Executed(a + b) == Executed(a) + Executed(b)
    decreases |a|
  {
    if a == [] {
      assert a + b == b;
    } else {
      assert (a + b)[0] == a[0] && (a + b)[1..] == a[1..] + b;
      ExecutedAppend(a[1..], b);
    }
  }

  /** What a finished run consumed. */
  ghost predicate Consumed<S, F>(m: Interpreter<S, F>, code: seq<Instr>, st: S, o: Outcome<S, F>)
    requires o.Done?
  {
    && |o.rest| <= |code|
    && o.rest == code[|code| - |o.rest|..]
    && Instrs(o.log) == Executed(code[..|code| - |o.rest|])
    && Replay(m, o.log, st) == Some(o.st)
  }

  lemma {:induction false} ConsumedThen<S, F>(
      m: Interpreter<S, F>, code: seq<Instr>, st: S, first: Outcome<S, F>, second: Outcome<S, F>)
    requires first.Done? && Consumed(m, code, st, first)
    requires second.Done? && Consumed(m, first.rest, first.st, second)
    ensures Consumed(m, code, st, WithLog(first.log, second))
  {
    var n, k := |code| - |first.rest|, |code| - |second.rest|;
    assert first.rest[..k - n] == code[n..k] && code[..k] == code[..n] + code[n..k];
    ExecutedAppend(code[..n], code[n..k]);
    ReplayAppend(m, first.log, second.log, st);
    assert Instrs(first.log + second.log) == Instrs(first.log) + Instrs(second.log);
  }

  lemma {:induction false} ConsumedBracket<S, F>(m: Interpreter<S, F>, code: seq<Instr>, st: S, o: Outcome<S, F>)
    requires code != [] && IsControl(code[0].op) && o.Done? && Consumed(m, code[1..], st, o)
    ensures Consumed(m, code, st, o)
  {
    var n := |code| - |o.rest|;
    assert code[..n] == [code[0]] + code[1..][..n - 1];
    ExecutedAppend([code[0]], code[1..][..n - 1]);
  }

  lemma {:induction false} ConsumedStep<S, F>(m: Interpreter<S, F>, code: seq<Instr>, st: S, power: bool)
    requires code != [] && !IsControl(code[0].op) && m.exec(code[0], st, power).Passed?
    ensures var e := m.exec(code[0], st, power);
            Consumed(m, code, st, Done(e.st, e.power, code[1..], [Event(code[0], power, e.power)]))
  {
    assert code[..1] == [code[0]];
    var event := [Event(code[0], power, m.exec(code[0], st, power).power)];
    assert Instrs(event) == [code[0]] && event[1..] == [];
  }

  /** A run that finishes executed every instruction it consumed exactly once, in stream order,
   *  and its store is what those executions leave. */
  lemma {:induction false} RunConsumes<S, F>(m: Interpreter<S, F>, code: seq<Instr>, st: S, power: bool, stop: byte)
    ensures var o := Run(m, code, st, power, stop); o.Done? ==> Consumed(m, code, st, o)
    decreases |code|, 1
  {
    hide Consumed;
    if code == [] || code[0].op == stop {
      ConsumedNothing(m, code, st, power);
    } else if code[0].op == OP_BRANCH_BEGIN {
      RunLanesConsume(m, code[1..], st, power, false, 0);
      var first := RunLanes(m, code[1..], st, power, false, 0);
      if first.Done? {
        RunConsumes(m, first.rest, first.st, first.power, stop);
        var second := Run(m, first.rest, first.st, first.power, stop);
        if second.Done? {
          ConsumedThen(m, code[1..], st, first, second);
          ConsumedBracket(m, code, st, WithLog(first.log, second));
        }
      }
    } else if !IsControl(code[0].op) {
      var e := m.exec(code[0], st, power);
      if e.Passed? {
        ConsumedStep(m, code, st, power);
        RunConsumes(m, code[1..], e.st, e.power, stop);
        var second := Run(m, code[1..], e.st, e.power, stop);
        if second.Done? {
          ConsumedThen(m, code, st, Done(e.st, e.power, code[1..], [Event(code[0], power, e.power)]), second);
        }
      }
    }
  }

  lemma {:induction false} ConsumedNothing<S, F>(m: Interpreter<S, F>, code: seq<Instr>, st: S, power: bool)
    ensures Consumed(m, code, st, Done(st, power, code, []))
  {
  }

  lemma {:induction false} RunLanesConsume<S, F>(
      m: Interpreter<S, F>, code: seq<Instr>, st: S, input: bool, merged: bool, lanes: nat)
    ensures var o := RunLanes(m, code, st, input, merged, lanes); o.Done? ==> Consumed(m, code, st, o)
    decreases |code|, 0
  {
    hide Consumed;
    if code != [] && code[0].op == OP_LANE_BEGIN {
      RunConsumes(m, code[1..], st, input, OP_LANE_END);
      var first := Run(m, code[1..], st, input, OP_LANE_END);
      if first.Done? {
        RunLanesConsume(m, first.rest[1..], first.st, input, merged || first.power, lanes + 1);
        var second := RunLanes(m, first.rest[1..], first.st, input, merged || first.power, lanes + 1);
        if second.Done? {
          ConsumedBracket(m, first.rest, first.st, second);
          ConsumedThen(m, code[1..], st, first, second);
          ConsumedBracket(m, code, st, WithLog(first.log, second));
        }
      }
    } else if code != [] && code[0].op == OP_BRANCH_END {
      ConsumedNothing(m, code[1..], st, merged);
      ConsumedBracket(m, code, st, Done(st, merged, code[1..], []));
    }
  }

  // ----- what no run can break -----

  /** Every ordinary instruction of the code keeps inv and fails only with allowed faults. */
  ghost predicate Safe<S(!new), F>(m: Interpreter<S, F>, code: seq<Instr>, inv: S -> bool, allowed: F -> bool) {
    && (forall op: byte | IsControl(op) :: allowed(m.branchFault(op)))
    && forall i, st, power | i in code && !IsControl(i.op) && inv(st) :: Kept(m.exec(i, st, power), inv, allowed)
  }

  predicate Kept<S, F>(e: Effect<S, F>, inv: S -> bool, allowed: F -> bool) {
    match e
    case Passed(st, _) => inv(st)
    case Failed(st, f) => inv(st) && allowed(f)
  }

  ghost predicate KeptRun<S, F>(o: Outcome<S, F>, inv: S -> bool, allowed: F -> bool) {
    inv(o.st) && (o.Faulted? ==> allowed(o.fault))
  }

  /** What each instruction keeps, a run keeps. */
  lemma {:induction false} RunKeeps<S(!new), F>(
      m: Interpreter<S, F>, code: seq<Instr>, st: S, power: bool, stop: byte, inv: S -> bool, allowed: F -> bool)
    requires Safe(m, code, inv, allowed) && inv(st)
    ensures KeptRun(Run(m, code, st, power, stop), inv, allowed)
    decreases |code|, 1
  {
    if code == [] || code[0].op == stop {
    } else if code[0].op == OP_BRANCH_BEGIN {
      RunLanesKeep(m, code[1..], st, power, false, 0, inv, allowed);
      var o := RunLanes(m, code[1..], st, power, false, 0);
      if o.Done? {
        RunLanesConsume(m, code[1..], st, power, false, 0);
        RunKeeps(m, o.rest, o.st, o.power, stop, inv, allowed);
      }
    } else if !IsControl(code[0].op) {
      var e := m.exec(code[0], st, power);
      assert Kept(e, inv, allowed);
      if e.Passed? {
        RunKeeps(m, code[1..], e.st, e.power, stop, inv, allowed);
      }
    }
  }

  lemma {:induction false} RunLanesKeep<S(!new), F>(
      m: Interpreter<S, F>, code: seq<Instr>, st: S, input: bool, merged: bool, lanes: nat, inv: S -> bool,
      allowed: F -> bool)
    requires Safe(m, code, inv, allowed) && inv(st)
    ensures KeptRun(RunLanes(m, code, st, input, merged, lanes), inv, allowed)
    decreases |code|, 0
  {
    if code != [] && code[0].op == OP_LANE_BEGIN {
      RunKeeps(m, code[1..], st, input, OP_LANE_END, inv, allowed);
      var o := Run(m, code[1..], st, input, OP_LANE_END);
      if o.Done? {
        RunConsumes(m, code[1..], st, input, OP_LANE_END);
        RunLanesKeep(m, o.rest[1..], o.st, input, merged || o.power, lanes + 1, inv, allowed);
      }
    }
  }
}
