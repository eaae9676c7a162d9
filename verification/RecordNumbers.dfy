/** The records of compiled code are numbered one after the other, so no two of them are the same. */
module RecordNumbers {
  import opened Bytes
  import opened Instructions
  import opened LadderTree
  import opened ControlFlow
  import opened Source
  import opened Lowering

  predicate Numbered(code: seq<Instr>, first: nat) {
    forall k | 0 <= k < |code| :: code[k].id == first + k
  }

  lemma {:induction false} NumberedParts(a: seq<Instr>, b: seq<Instr>, first: nat)
    requires Numbered(a, first) && Numbered(b, first + |a|)
    ensures Numbered(a + b, first)
  {
  }

  lemma {:induction false} NumberedBrackets(begin: Instr, inner: seq<Instr>, end: Instr)
    requires Numbered(inner, begin.id + 1) && end.id == begin.id + 1 + |inner|
    ensures Numbered([begin] + inner + [end], begin.id)
  {
  }

  lemma {:induction false} TreeIsNumbered(sorted: seq<SourceTag>, nodes: seq<Node<SourceInstr>>, c: Counters)
    requires AllTagsExist(sorted, Walk(nodes))
    ensures Numbered(Lowered(sorted, nodes, c), c.id)
    decreases nodes
  {
    if nodes == [] {
      LoweredNothing(sorted, nodes, c);
    } else {
      LoweredHead(sorted, nodes, c);
      NodeIsNumbered(sorted, nodes[0], c);
      LoweredNodeLength(sorted, nodes[0], c);
      TreeIsNumbered(sorted, nodes[1..], AfterNode(nodes[0], c));
      hide Lowered, FlattenNode, NumberNode, Numbered, AfterNode;
      NumberedParts(FlattenNode(NumberNode(sorted, nodes[0], c), c.id),
        Lowered(sorted, nodes[1..], AfterNode(nodes[0], c)), c.id);
    }
  }

  lemma {:induction false} NodeIsNumbered(sorted: seq<SourceTag>, node: Node<SourceInstr>, c: Counters)
    requires AllTagsExist(sorted, WalkNode(node))
    ensures Numbered(FlattenNode(NumberNode(sorted, node, c), c.id), c.id)
    decreases node
  {
    hide FlattenLanes, NumberLanes, AfterLanes, WalkLanes, LowerStep;
    match node
    case Step(s) =>
      assert s in WalkNode(node);
      StepNumber(sorted, s, c);
    case Branch(lanes) =>
      var inner := FlattenLanes(NumberLanes(sorted, lanes, Bump(c)), c.id + 1);
      LanesAreNumbered(sorted, lanes, Bump(c));
      NumberedBrackets(Control(OP_BRANCH_BEGIN, c.id), inner, Control(OP_BRANCH_END, c.id + 1 + |inner|));
  }

  lemma {:induction false} StepNumber(sorted: seq<SourceTag>, s: SourceInstr, c: Counters)
    requires TagsExist(sorted, s)
    ensures Assemble(LowerStep(sorted, s, c)).id == c.id
  {
  }

  lemma {:induction false} LanesAreNumbered(sorted: seq<SourceTag>, lanes: seq<Lane<SourceInstr>>, c: Counters)
    requires AllTagsExist(sorted, WalkLanes(lanes))
    ensures Numbered(FlattenLanes(NumberLanes(sorted, lanes, c), c.id), c.id)
    decreases lanes
  {
    if lanes == [] {
      LoweredNoLanes(sorted, lanes, c);
    } else {
      var next := AfterLane(lanes[0], c);
      LoweredLanesHead(sorted, lanes, c);
      hide *;
      LaneIsNumbered(sorted, lanes[0], c);
      LaneLength(sorted, lanes[0], c);
      LanesAreNumbered(sorted, lanes[1..], next);
      NumberedParts(FlattenLane(NumberLane(sorted, lanes[0], c), c.id),
        FlattenLanes(NumberLanes(sorted, lanes[1..], next), next.id), c.id);
    }
  }

  lemma {:induction false} LaneIsNumbered(sorted: seq<SourceTag>, lane: Lane<SourceInstr>, c: Counters)
    requires AllTagsExist(sorted, Walk(lane.nodes))
    ensures Numbered(FlattenLane(NumberLane(sorted, lane, c), c.id), c.id)
    decreases lane
  {
    var body := Lowered(sorted, lane.nodes, Bump(c));
    var begin, end := Control(OP_LANE_BEGIN, c.id), Control(OP_LANE_END, c.id + 1 + |body|);
    LaneUnfolds(sorted, lane, c);
    assert begin.id == c.id && end.id == begin.id + 1 + |body| && Bump(c).id == c.id + 1;
    hide *;
    TreeIsNumbered(sorted, lane.nodes, Bump(c));
    NumberedBrackets(begin, body, end);
  }

  lemma {:induction false} LaneUnfolds(sorted: seq<SourceTag>, lane: Lane<SourceInstr>, c: Counters)
    requires AllTagsExist(sorted, Walk(lane.nodes))
    ensures var body := Lowered(sorted, lane.nodes, Bump(c));
            FlattenLane(NumberLane(sorted, lane, c), c.id)
            == [Control(OP_LANE_BEGIN, c.id)] + body + [Control(OP_LANE_END, c.id + 1 + |body|)]
  {
    hide Number, Flatten, Walk;
  }

  /** Every record carries its place in the code. */
  lemma {:induction false} RungsAreNumbered(sorted: seq<SourceTag>, rungs: seq<Placed>, c: Counters)
    requires RungTagsExist(sorted, rungs)
    ensures Numbered(LoweredRungs(sorted, rungs, c), c.id)
    decreases |rungs|
  {
    if rungs != [] {
      RungsUnfold(sorted, rungs, c);
      TreeIsNumbered(sorted, rungs[0].rung, c);
      LoweredLength(sorted, rungs[0].rung, c);
      hide Lowered, After, LoweredRungs, AfterRungs, Numbered;
      RungsAreNumbered(sorted, rungs[1..], After(rungs[0].rung, c));
      NumberedParts(Lowered(sorted, rungs[0].rung, c), LoweredRungs(sorted, rungs[1..], After(rungs[0].rung, c)), c.id);
    }
  }

  /** In numbered code an ordinary instruction stands once. */
  lemma {:induction false} StandsOnceIfNumbered(code: seq<Instr>, first: nat, own: Instr)
    requires Numbered(code, first) && own in code && !IsControl(own.op)
    ensures multiset(Executed(code))[own] == 1
    decreases |code|
  {
    var i, rest := code[0], code[1..];
    assert code == [i] + rest;
    ExecutedAppend([i], rest);
    assert [i][1..] == [] && Executed([]) == [];
    assert forall k | 0 <= k < |rest| :: rest[k] == code[k + 1];
    InExecutedOnly(rest, own);
    if own in rest {
      StandsOnceIfNumbered(rest, first + 1, own);
    }
  }

  lemma {:induction false} InExecutedOnly(code: seq<Instr>, own: Instr)
    ensures own in Executed(code) <==> own in code && !IsControl(own.op)
    decreases |code|
  {
    if code != [] {
      InExecutedOnly(code[1..], own);
      assert code == [code[0]] + code[1..];
    }
  }
}
