/** The bracket discipline of the image validator, and what it buys the interpreter. */
module Brackets {
  import opened Bytes
  import opened Instructions
  import opened LadderTree
  import opened ControlFlow

  /** An open branch: `lane_open[depth]` and `lane_count[depth]`. The count is a byte and wraps. */
  datatype Frame = Frame(open: bool, lanes: byte)

  const MAX_DEPTH := 32

  /** The validator's stack after one record, or None where it answers BAD_IMAGE. */
  function Next(stack: seq<Frame>, op: byte): Option<seq<Frame>> {
    if op == OP_BRANCH_BEGIN then
      if |stack| >= MAX_DEPTH then None else Some(stack + [Frame(false, 0)])
    else if !IsControl(op) then Some(stack)
    else if stack == [] then None
    else
      var top := stack[|stack| - 1];
      if op == OP_LANE_BEGIN then
        if top.open then None else Some(stack[|stack| - 1 := Frame(true, (top.lanes + 1) % 0x100)])
      else if op == OP_LANE_END then
        if !top.open then None else Some(stack[|stack| - 1 := Frame(false, top.lanes)])
      else
        if top.open || top.lanes == 0 then None else Some(stack[..|stack| - 1])
  }

  /** The stack after a stretch of code. */
  function Walked(code: seq<Instr>, stack: seq<Frame>): Option<seq<Frame>>
    decreases |code|
  {
    if code == [] then Some(stack)
    else
      match Next(stack, code[0].op)
      case None => None
      case Some(stack1) => Walked(code[1..], stack1)
  }

  /** The validator's bracket check of a stretch of code that starts in a given stack. */
  predicate Balanced(code: seq<Instr>, stack: seq<Frame>) {
    Walked(code, stack) == Some([])
  }

  predicate NoEndMarker(code: seq<Instr>) {
    forall i | i in code :: i.op != 0
  }

  lemma {:induction false} WalkedAppend(a: seq<Instr>, b: seq<Instr>, stack: seq<Frame>)
    ensures Walked(a + b, stack) == match Walked(a, stack) case None => None case Some(s) => Walked(b, s)
    decreases |a|
  {
    if a == [] {
      assert a + b == b;
    } else {
      assert (a + b)[0] == a[0] && (a + b)[1..] == a[1..] + b;
      if Next(stack, a[0].op).Some? {
        WalkedAppend(a[1..], b, Next(stack, a[0].op).value);
      }
    }
  }

  /** Without an end marker in the code a run that finishes at top level has consumed it all. */
  lemma {:induction false} RunFinishes<S, F>(m: Interpreter<S, F>, code: seq<Instr>, st: S, power: bool)
    requires NoEndMarker(code)
    ensures var o := Run(m, code, st, power, 0); o.Done? ==> o.rest == []
    decreases |code|
  {
    if code != [] {
      if code[0].op == OP_BRANCH_BEGIN {
        var o := RunLanes(m, code[1..], st, power, false, 0);
        if o.Done? {
          RunLanesConsume(m, code[1..], st, power, false, 0);
          RunFinishes(m, o.rest, o.st, o.power);
        }
      } else if !IsControl(code[0].op) {
        var e := m.exec(code[0], st, power);
        if e.Passed? {
          RunFinishes(m, code[1..], e.st, e.power);
        }
      }
    }
  }

  // ----- accepted code never runs off the end of a lane -----

  /** On code the validator accepts, a run either faults or stops exactly where it should: at the
   *  end of its own lane with the validator's stack restored, or at the end of the code. */
  lemma {:induction false} RunStaysInside<S, F>(
      m: Interpreter<S, F>, code: seq<Instr>, stack: seq<Frame>, st: S, power: bool, stop: byte)
    requires Balanced(code, stack) && NoEndMarker(code)
    requires if stack == [] then stop == 0 else stop == OP_LANE_END && stack[|stack| - 1].open
    ensures var o := Run(m, code, st, power, stop);
            !o.RanOff? && (o.Done? ==> Balanced(o.rest, stack) && (stop == 0 ==> o.rest == []))
    decreases |code|, 1
  {
    if code == [] || code[0].op == stop {
    } else if code[0].op == OP_BRANCH_BEGIN {
      var inner := stack + [Frame(false, 0)];
      RunLanesStayInside(m, code[1..], stack, 0, st, power, false, 0);
      var o := RunLanes(m, code[1..], st, power, false, 0);
      if o.Done? {
        RunLanesConsume(m, code[1..], st, power, false, 0);
        RunStaysInside(m, o.rest, stack, o.st, o.power, stop);
      }
    } else if !IsControl(code[0].op) {
      var e := m.exec(code[0], st, power);
      if e.Passed? {
        RunStaysInside(m, code[1..], stack, e.st, e.power, stop);
      }
    }
  }

  lemma {:induction false} RunLanesStayInside<S, F>(
      m: Interpreter<S, F>, code: seq<Instr>, stack: seq<Frame>, seen: byte, st: S, input: bool, merged: bool,
      lanes: nat)
    requires Balanced(code, stack + [Frame(false, seen)]) && NoEndMarker(code)
    ensures var o := RunLanes(m, code, st, input, merged, lanes);
            !o.RanOff? && (o.Done? ==> Balanced(o.rest, stack))
    decreases |code|, 0
  {
    var here := stack + [Frame(false, seen)];
    if code != [] && code[0].op == OP_LANE_BEGIN {
      var next: byte := (seen + 1) % 0x100;
      var inLane := stack + [Frame(true, next)];
      assert here[|here| - 1 := Frame(true, next)] == inLane;
      RunStaysInside(m, code[1..], inLane, st, input, OP_LANE_END);
      var o := Run(m, code[1..], st, input, OP_LANE_END);
      if o.Done? {
        RunConsumes(m, code[1..], st, input, OP_LANE_END);
        assert inLane[|inLane| - 1 := Frame(false, next)] == stack + [Frame(false, next)];
        RunLanesStayInside(m, o.rest[1..], stack, next, o.st, input, merged || o.power, lanes + 1);
      }
    } else if code != [] && code[0].op == OP_BRANCH_END {
      assert here[..|here| - 1] == stack;
    }
  }

  // ----- code outside the lanes of its branch -----

  /** Nothing but brackets stands inside a branch and outside its lanes. The validator does not
   *  ask for this. */
  predicate Tidy(code: seq<Instr>, stack: seq<Frame>)
    decreases |code|
  {
    code == [] ||
    (&& (code[0].op == OP_BRANCH_BEGIN || !IsControl(code[0].op) ==> stack == [] || stack[|stack| - 1].open)
     && match Next(stack, code[0].op)
        case None => false
        case Some(stack1) => Tidy(code[1..], stack1))
  }

  /** What the instructions of some code do to stores that satisfy inv: they keep inv, they give no
   *  power where live rules it out, and their own faults satisfy own. */
  ghost predicate Limited<S(!new), F>(
      m: Interpreter<S, F>, code: seq<Instr>, inv: S -> bool, live: bool, own: F -> bool) {
    forall i, st, power | i in code && !IsControl(i.op) && inv(st) && (power ==> live) ::
      StaysLimited(m.exec(i, st, power), inv, live, own)
  }

  predicate StaysLimited<S, F>(e: Effect<S, F>, inv: S -> bool, live: bool, own: F -> bool) {
    match e
    case Passed(st, power) => inv(st) && (power ==> live)
    case Failed(_, f) => own(f)
  }

  /** On accepted code, whatever its instructions do: tidy code stops at its end or in a fault of
   *  one of its instructions; code that is not tidy never gets to its end, and stops in the branch
   *  fault unless an instruction fails before. */
  lemma {:induction false} BranchFaultIffUntidy<S(!new), F>(
      m: Interpreter<S, F>, code: seq<Instr>, st: S, power: bool, inv: S -> bool, live: bool, own: F -> bool)
    requires Balanced(code, []) && NoEndMarker(code)
    requires Limited(m, code, inv, live, own) && inv(st) && (power ==> live)
    ensures var o := Run(m, code, st, power, 0);
            if Tidy(code, []) then o.Done? || (o.Faulted? && own(o.fault))
            else o.Faulted? && (own(o.fault) || o.fault == m.branchFault(OP_BRANCH_BEGIN))
  {
    TidyRun(m, code, [], st, power, 0, inv, live, own);
    RunStaysInside(m, code, [], st, power, 0);
  }

  /** What a run that starts in front of tidy or untidy code comes to. */
  ghost predicate TellsTidy<S, F>(
      m: Interpreter<S, F>, tidy: bool, stack: seq<Frame>, o: Outcome<S, F>, inv: S -> bool, live: bool,
      own: F -> bool) {
    match o
    case Done(st, power, rest, _) => (Tidy(rest, stack) <==> tidy) && inv(st) && (power ==> live)
    case Faulted(_, f) => own(f) || (!tidy && f == m.branchFault(OP_BRANCH_BEGIN))
    case RanOff(_) => true
  }

  lemma {:induction false} TidyRun<S(!new), F>(
      m: Interpreter<S, F>, code: seq<Instr>, stack: seq<Frame>, st: S, power: bool, stop: byte,
      inv: S -> bool, live: bool, own: F -> bool)
    requires Balanced(code, stack) && NoEndMarker(code)
    requires Limited(m, code, inv, live, own) && inv(st) && (power ==> live)
    requires if stack == [] then stop == 0 else stop == OP_LANE_END && stack[|stack| - 1].open
    ensures TellsTidy(m, Tidy(code, stack), stack, Run(m, code, st, power, stop), inv, live, own)
    decreases |code|, 1
  {
    if code == [] || code[0].op == stop {
    } else if code[0].op == OP_BRANCH_BEGIN {
      TidyLanes(m, code[1..], stack, 0, st, power, false, 0, inv, live, own);
      RunLanesStayInside(m, code[1..], stack, 0, st, power, false, 0);
      var o := RunLanes(m, code[1..], st, power, false, 0);
      if o.Done? {
        RunLanesConsume(m, code[1..], st, power, false, 0);
        TidyRun(m, o.rest, stack, o.st, o.power, stop, inv, live, own);
      }
    } else if !IsControl(code[0].op) {
      var e := m.exec(code[0], st, power);
      assert StaysLimited(e, inv, live, own);
      if e.Passed? {
        TidyRun(m, code[1..], stack, e.st, e.power, stop, inv, live, own);
      }
    }
  }

  lemma {:induction false} TidyLanes<S(!new), F>(
      m: Interpreter<S, F>, code: seq<Instr>, stack: seq<Frame>, seen: byte, st: S, input: bool, merged: bool,
      lanes: nat, inv: S -> bool, live: bool, own: F -> bool)
    requires Balanced(code, stack + [Frame(false, seen)]) && NoEndMarker(code) && seen == lanes % 0x100
    requires Limited(m, code, inv, live, own) && inv(st) && (input || merged ==> live)
    ensures TellsTidy(m, Tidy(code, stack + [Frame(false, seen)]), stack, RunLanes(m, code, st, input, merged, lanes),
            inv, live, own)
    decreases |code|, 0
  {
    hide Run;
    var here := stack + [Frame(false, seen)];
    if code != [] && code[0].op == OP_LANE_BEGIN {
      var next: byte := (seen + 1) % 0x100;
      var inLane := stack + [Frame(true, next)];
      assert here[|here| - 1 := Frame(true, next)] == inLane;
      TidyRun(m, code[1..], inLane, st, input, OP_LANE_END, inv, live, own);
      RunStaysInside(m, code[1..], inLane, st, input, OP_LANE_END);
      var o := Run(m, code[1..], st, input, OP_LANE_END);
      if o.Done? {
        RunConsumes(m, code[1..], st, input, OP_LANE_END);
        assert inLane[|inLane| - 1 := Frame(false, next)] == stack + [Frame(false, next)];
        TidyLanes(m, o.rest[1..], stack, next, o.st, input, merged || o.power, lanes + 1, inv, live, own);
      }
    } else if code != [] && code[0].op == OP_BRANCH_END {
      assert here[..|here| - 1] == stack;
    }
  }

  /** An instruction between BRANCH_BEGIN and the first lane. */
  function StrayCode(i: Instr): seq<Instr> {
    [Control(OP_BRANCH_BEGIN, 0), i, Control(OP_LANE_BEGIN, 2), Control(OP_LANE_END, 3), Control(OP_BRANCH_END, 4)]
  }

  /** The bracket check passes it, and no run gets beyond its first record. */
  lemma {:induction false} StrayInstruction<S, F>(m: Interpreter<S, F>, i: Instr, st: S, power: bool)
    requires !IsControl(i.op)
    ensures Balanced(StrayCode(i), []) && !Tidy(StrayCode(i), [])
    ensures Run(m, StrayCode(i), st, power, 0) == Faulted(st, m.branchFault(OP_BRANCH_BEGIN))
  {
    var lane, end := [Control(OP_LANE_BEGIN, 2), Control(OP_LANE_END, 3)], [Control(OP_BRANCH_END, 4)];
    var code := [Control(OP_BRANCH_BEGIN, 0), i] + lane + end;
    assert code[1..] == [i] + lane + end && code[1..][1..] == lane + end && (lane + end)[1..] == [lane[1]] + end;
    assert ([lane[1]] + end)[1..] == end && end[1..] == [];
    var closed, running, done := [Frame(false, 0)], [Frame(true, 1)], [Frame(false, 1)];
    assert [] + closed == closed && closed[0 := Frame(true, 1)] == running && running[0 := Frame(false, 1)] == done
           && done[..0] == [];
    assert Next([], OP_BRANCH_BEGIN) == Some([Frame(false, 0)]);
    assert Next([Frame(false, 0)], OP_LANE_BEGIN) == Some([Frame(true, 1)]);
    assert Next([Frame(true, 1)], OP_LANE_END) == Some([Frame(false, 1)]);
    assert Next([Frame(false, 1)], OP_BRANCH_END) == Some([]);
    assert Walked(end, [Frame(false, 1)]) == Some([]);
    assert Walked(lane + end, [Frame(false, 0)]) == Some([]);
    assert Walked(code[1..], [Frame(false, 0)]) == Some([]) && !Tidy(code[1..], [Frame(false, 0)]);
    assert code == StrayCode(i);
  }

  // ----- the stream of a tree is accepted -----

  /** The shape the validator accepts: branches nested at most so deep, each with a number of
   *  lanes that is not 0 in the validator's one-byte counter. */
  predicate Shaped<T>(nodes: seq<Node<T>>, room: nat)
    decreases nodes
  {
    nodes == [] || (ShapedNode(nodes[0], room) && Shaped(nodes[1..], room))
  }

  predicate ShapedNode<T>(node: Node<T>, room: nat)
    decreases node
  {
    match node
    case Step(_) => true
    case Branch(lanes) => room > 0 && |lanes| % 0x100 != 0 && ShapedLanes(lanes, room - 1)
  }

  predicate ShapedLanes<T>(lanes: seq<Lane<T>>, room: nat)
    decreases lanes
  {
    lanes == [] || (Shaped(lanes[0].nodes, room) && ShapedLanes(lanes[1..], room))
  }

  /** The validator comes out of the stream of a tree with the stack it went in with exactly when
   *  the tree has the accepted shape. */
  lemma {:induction false} TreeIsBalanced(nodes: seq<Node<Instr>>, id: nat, stack: seq<Frame>)
    requires Ordinary(Walk(nodes)) && |stack| <= MAX_DEPTH
    ensures Walked(Flatten(nodes, id), stack) == if Shaped(nodes, MAX_DEPTH - |stack|) then Some(stack) else None
    decreases nodes
  {
    if nodes != [] {
      var first := FlattenNode(nodes[0], id);
      assert forall i | i in Walk(nodes[1..]) :: i in Walk(nodes);
      assert forall i | i in WalkNode(nodes[0]) :: i in Walk(nodes);
      WalkedAppend(first, Flatten(nodes[1..], id + |first|), stack);
      NodeIsBalanced(nodes[0], id, stack);
      TreeIsBalanced(nodes[1..], id + |first|, stack);
    }
  }

  lemma {:induction false} NodeIsBalanced(node: Node<Instr>, id: nat, stack: seq<Frame>)
    requires Ordinary(WalkNode(node)) && |stack| <= MAX_DEPTH
    ensures Walked(FlattenNode(node, id), stack) == if ShapedNode(node, MAX_DEPTH - |stack|) then Some(stack) else None
    decreases node
  {
    match node
    case Step(i) =>
      assert i in WalkNode(node);
    case Branch(lanes) =>
      var inner := FlattenLanes(lanes, id + 1);
      var begin, end := Control(OP_BRANCH_BEGIN, id), Control(OP_BRANCH_END, id + 1 + |inner|);
      var code := FlattenNode(node, id);
      assert code[0] == begin && code[1..] == inner + [end];
      if |stack| < MAX_DEPTH {
        var inLane := stack + [Frame(false, 0)];
        WalkedAppend(inner, [end], inLane);
        LanesAreBalanced(lanes, id + 1, stack, 0);
        assert ([end])[1..] == [];
        if Walked(inner, inLane).Some? {
          var back := Walked(inner, inLane).value;
          assert back[..|back| - 1] == stack;
        }
      }
  }

  lemma {:induction false} WalkedNothing(stack: seq<Frame>)
    ensures Walked([], stack) == Some(stack)
  {
  }

  lemma {:induction false} LanesAreBalanced(lanes: seq<Lane<Instr>>, id: nat, stack: seq<Frame>, seen: byte)
    requires Ordinary(WalkLanes(lanes)) && |stack| < MAX_DEPTH
    ensures Walked(FlattenLanes(lanes, id), stack + [Frame(false, seen)])
         == if ShapedLanes(lanes, MAX_DEPTH - 1 - |stack|) then Some(stack + [Frame(false, (seen + |lanes|) % 0x100)])
           else None
    decreases lanes
  {
    hide Walked, FlattenLane, Shaped, Walk;
    if lanes == [] {
      WalkedNothing(stack + [Frame(false, seen)]);
    } else {
      assert forall i | i in Walk(lanes[0].nodes) :: i in WalkLanes(lanes);
      assert forall i | i in WalkLanes(lanes[1..]) :: i in WalkLanes(lanes);
      var first := FlattenLane(lanes[0], id);
      var next: byte := (seen + 1) % 0x100;
      WalkedAppend(first, FlattenLanes(lanes[1..], id + |first|), stack + [Frame(false, seen)]);
      LaneIsBalanced(lanes[0], id, stack, seen);
      LanesAreBalanced(lanes[1..], id + |first|, stack, next);
    }
  }

  lemma {:induction false} LaneIsBalanced(lane: Lane<Instr>, id: nat, stack: seq<Frame>, seen: byte)
    requires Ordinary(Walk(lane.nodes)) && |stack| < MAX_DEPTH
    ensures Walked(FlattenLane(lane, id), stack + [Frame(false, seen)])
         == if Shaped(lane.nodes, MAX_DEPTH - 1 - |stack|) then Some(stack + [Frame(false, (seen + 1) % 0x100)])
           else None
    decreases lane
  {
    var body := Flatten(lane.nodes, id + 1);
    var close := Control(OP_LANE_END, id + 1 + |body|);
    var code := FlattenLane(lane, id);
    var next: byte := (seen + 1) % 0x100;
    var here, inLane := stack + [Frame(false, seen)], stack + [Frame(true, next)];
    assert code[0].op == OP_LANE_BEGIN && code[1..] == body + [close];
    assert here[|here| - 1 := Frame(true, next)] == inLane;
    WalkedAppend(body, [close], inLane);
    TreeIsBalanced(lane.nodes, id + 1, inLane);
    assert inLane[|inLane| - 1 := Frame(false, next)] == stack + [Frame(false, next)];
    assert ([close])[1..] == [];
  }

  // ----- the stream of a tree is tidy -----

  /** Tidiness of a stretch, and the stack it leaves, decide tidiness of what follows. */
  lemma {:induction false} TidyAppend(a: seq<Instr>, b: seq<Instr>, stack: seq<Frame>)
    ensures Tidy(a, stack) ==> Walked(a, stack).Some?
    ensures Tidy(a + b, stack) <==> Tidy(a, stack) && Tidy(b, Walked(a, stack).value)
    decreases |a|
  {
    if a == [] {
      assert a + b == b;
    } else {
      assert (a + b)[0] == a[0] && (a + b)[1..] == a[1..] + b;
      if Next(stack, a[0].op).Some? {
        TidyAppend(a[1..], b, Next(stack, a[0].op).value);
      }
    }
  }

  predicate MayRun(stack: seq<Frame>) {
    stack == [] || stack[|stack| - 1].open
  }

  /** Compiled code is tidy: every instruction stands at top level or in a lane. */
  lemma {:induction false} TreeIsTidy(nodes: seq<Node<Instr>>, id: nat, stack: seq<Frame>)
    requires Ordinary(Walk(nodes)) && |stack| <= MAX_DEPTH && MayRun(stack) && Shaped(nodes, MAX_DEPTH - |stack|)
    ensures Tidy(Flatten(nodes, id), stack)
    decreases nodes
  {
    if nodes != [] {
      var first := FlattenNode(nodes[0], id);
      assert forall i | i in Walk(nodes[1..]) :: i in Walk(nodes);
      assert forall i | i in WalkNode(nodes[0]) :: i in Walk(nodes);
      NodeIsTidy(nodes[0], id, stack);
      NodeIsBalanced(nodes[0], id, stack);
      TidyAppend(first, Flatten(nodes[1..], id + |first|), stack);
      TreeIsTidy(nodes[1..], id + |first|, stack);
    }
  }

  lemma {:induction false} TidyStep(code: seq<Instr>, stack: seq<Frame>)
    requires code != [] && Next(stack, code[0].op).Some? && Tidy(code[1..], Next(stack, code[0].op).value)
    requires code[0].op == OP_BRANCH_BEGIN || !IsControl(code[0].op) ==> MayRun(stack)
    ensures Tidy(code, stack)
  {
  }

  lemma {:induction false} TidyLast(i: Instr, stack: seq<Frame>)
    requires Next(stack, i.op).Some? && (i.op == OP_LANE_END || i.op == OP_BRANCH_END)
    ensures Tidy([i], stack)
  {
    assert [i][1..] == [];
  }

  lemma {:induction false} StepIsTidy(i: Instr, stack: seq<Frame>)
    requires !IsControl(i.op) && MayRun(stack)
    ensures Tidy([i], stack)
  {
    assert [i][1..] == [];
  }

  lemma {:induction false} NodeIsTidy(node: Node<Instr>, id: nat, stack: seq<Frame>)
    requires Ordinary(WalkNode(node)) && |stack| <= MAX_DEPTH && MayRun(stack) && ShapedNode(node, MAX_DEPTH - |stack|)
    ensures Tidy(FlattenNode(node, id), stack)
    decreases node
  {
    hide Tidy, FlattenLanes, Walked, ShapedLanes;
    var code := FlattenNode(node, id);
    match node
    case Step(i) =>
      assert i in WalkNode(node);
      StepIsTidy(i, stack);
    case Branch(lanes) =>
      var inner := FlattenLanes(lanes, id + 1);
      var end := Control(OP_BRANCH_END, id + 1 + |inner|);
      assert code[0].op == OP_BRANCH_BEGIN && code[1..] == inner + [end];
      var here := stack + [Frame(false, 0)];
      LanesAreTidy(lanes, id + 1, stack, 0);
      LanesAreBalanced(lanes, id + 1, stack, 0);
      TidyAppend(inner, [end], here);
      var back := Walked(inner, here).value;
      TidyLast(end, back);
      TidyStep(code, stack);
  }

  lemma {:induction false} LanesAreTidy(lanes: seq<Lane<Instr>>, id: nat, stack: seq<Frame>, seen: byte)
    requires Ordinary(WalkLanes(lanes)) && |stack| < MAX_DEPTH && ShapedLanes(lanes, MAX_DEPTH - 1 - |stack|)
    ensures Tidy(FlattenLanes(lanes, id), stack + [Frame(false, seen)])
    decreases lanes
  {
    if lanes != [] {
      assert forall i | i in Walk(lanes[0].nodes) :: i in WalkLanes(lanes);
      assert forall i | i in WalkLanes(lanes[1..]) :: i in WalkLanes(lanes);
      var first := FlattenLane(lanes[0], id);
      LaneIsTidy(lanes[0], id, stack, seen);
      LaneIsBalanced(lanes[0], id, stack, seen);
      TidyAppend(first, FlattenLanes(lanes[1..], id + |first|), stack + [Frame(false, seen)]);
      LanesAreTidy(lanes[1..], id + |first|, stack, (seen + 1) % 0x100);
    }
  }

  lemma {:induction false} LaneIsTidy(lane: Lane<Instr>, id: nat, stack: seq<Frame>, seen: byte)
    requires Ordinary(Walk(lane.nodes)) && |stack| < MAX_DEPTH && Shaped(lane.nodes, MAX_DEPTH - 1 - |stack|)
    ensures Tidy(FlattenLane(lane, id), stack + [Frame(false, seen)])
    decreases lane
  {
    var body := Flatten(lane.nodes, id + 1);
    var close := Control(OP_LANE_END, id + 1 + |body|);
    var code := FlattenLane(lane, id);
    var next: byte := (seen + 1) % 0x100;
    var here, inLane := stack + [Frame(false, seen)], stack + [Frame(true, next)];
    hide Tidy, Flatten, Walked, Shaped;
    assert code[0].op == OP_LANE_BEGIN && code[1..] == body + [close];
    assert here[|here| - 1 := Frame(true, next)] == inLane;
    TreeIsTidy(lane.nodes, id + 1, inLane);
    TreeIsBalanced(lane.nodes, id + 1, inLane);
    TidyAppend(body, [close], inLane);
    TidyLast(close, inLane);
    TidyStep(code, here);
  }
}
