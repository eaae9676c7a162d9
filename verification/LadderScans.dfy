/** Trees, rungs and scans: what the runtime does with the image of a project is what its ladder means. */
module LadderScans {
  import opened Bytes
  import opened Instructions
  import opened LadderTree
  import opened ControlFlow
  import opened Admission
  import opened Semantics
  import opened Soundness
  import opened Machine
  import opened Safety
  import opened Source
  import opened Lowering
  import opened Validation
  import opened Compiled
  import opened WholeScan
  import opened RecordNumbers
  import opened HostLaws
  import opened Building
  import opened InstructionLaws
  import opened LadderState
  import opened LadderSteps
  import LM = LadderMeaning

  // ----- places -----

  lemma {:induction false} SameNumbers(steps: seq<SourceInstr>)
    ensures LM.Remembering(steps) == CountStateful(steps) && LM.Shots(steps) == CountHidden(steps)
  {
    if steps != [] {
      SameNumbers(steps[1..]);
    }
  }

  lemma {:induction false} NumbersAppend(a: seq<SourceInstr>, b: seq<SourceInstr>)
    ensures LM.Remembering(a + b) == LM.Remembering(a) + LM.Remembering(b)
            && LM.Shots(a + b) == LM.Shots(a) + LM.Shots(b)
  {
    SameNumbers(a);
    SameNumbers(b);
    SameNumbers(a + b);
    CountsAppend(a, b);
  }

  /** The counters of the compiler are the place in the source. */
  predicate AtPlace(tags: seq<SourceTag>, c: Counters, at: LM.Place) {
    c.slot == at.slot && c.tag == |tags| + at.shot
  }

  /** There is room for the instructions to come. */
  predicate HasRoom(w: LM.World, at: LM.Place, steps: seq<SourceInstr>) {
    at.slot + LM.Remembering(steps) <= |w.marks| && at.shot + LM.Shots(steps) <= |w.shots|
  }

  lemma {:induction false} RoomParts(w: LM.World, at: LM.Place, a: seq<SourceInstr>, b: seq<SourceInstr>)
    requires HasRoom(w, at, a + b)
    ensures HasRoom(w, at, a) && HasRoom(w, LM.Behind(at, a), b)
  {
    NumbersAppend(a, b);
  }

  lemma {:induction false} BehindNode(tags: seq<SourceTag>, node: Node<SourceInstr>, c: Counters, at: LM.Place)
    requires AllTagsExist(SortTags(tags), WalkNode(node)) && AtPlace(tags, c, at)
    ensures AtPlace(tags, AfterNode(node, c), LM.Behind(at, WalkNode(node)))
  {
    NumberNodeIsResolved(SortTags(tags), node, c);
    SameNumbers(WalkNode(node));
  }

  lemma {:induction false} BehindLane(tags: seq<SourceTag>, lane: Lane<SourceInstr>, c: Counters, at: LM.Place)
    requires AllTagsExist(SortTags(tags), Walk(lane.nodes)) && AtPlace(tags, c, at)
    ensures AtPlace(tags, AfterLane(lane, c), LM.Behind(at, Walk(lane.nodes)))
  {
    NumberIsResolved(SortTags(tags), lane.nodes, Bump(c));
    SameNumbers(Walk(lane.nodes));
  }

  // ----- trees -----

  /** The value of the tree of records is the turn of the world. */
  predicate TreeCorresponds(
      sorted: seq<SourceTag>, directions: Directions, v: Meaning<Store, FaultRecord>, turn: LM.Turn) {
    match turn
    case Went(w, power) => v.Out? && v.power == power && Represents(sorted, directions, v.st, w)
    case Stopped(w, why) => v.Fault? && Reports(v.fault, why) && Represents(sorted, directions, v.st, w)
  }

  /** Admitted nodes that deploy and can be built. */
  predicate Sound(tags: seq<SourceTag>, directions: Directions, steps: seq<SourceInstr>) {
    forall s | s in steps :: StepPasses(tags, s) && StepDeploys(directions, s) && LiteralOf(WideReal) !in s.operands
  }

  lemma {:induction false} SoundParts(
      tags: seq<SourceTag>, directions: Directions, a: seq<SourceInstr>, b: seq<SourceInstr>)
    requires DistinctIds(tags) && Sound(tags, directions, a + b)
    ensures Sound(tags, directions, a) && Sound(tags, directions, b)
    ensures AllTagsExist(SortTags(tags), a + b) && AllTagsExist(SortTags(tags), a) && AllTagsExist(SortTags(tags), b)
  {
    hide StepPasses, StepDeploys;
    assert forall s | s in a :: s in a + b;
    assert forall s | s in b :: s in a + b;
    PassingTags(tags, a + b);
    PassingTags(tags, a);
    PassingTags(tags, b);
  }

  /** No branch is without lanes. */
  predicate Laned(nodes: seq<Node<SourceInstr>>)
    decreases nodes
  {
    nodes == [] || (LanedNode(nodes[0]) && Laned(nodes[1..]))
  }

  predicate LanedNode(node: Node<SourceInstr>)
    decreases node
  {
    match node
    case Step(_) => true
    case Branch(lanes) => lanes != [] && LanedLanes(lanes)
  }

  predicate LanedLanes(lanes: seq<Lane<SourceInstr>>)
    decreases lanes
  {
    lanes == [] || (Laned(lanes[0].nodes) && LanedLanes(lanes[1..]))
  }

  lemma {:induction false} PassingIsLaned(tags: seq<SourceTag>, nodes: seq<Node<SourceInstr>>)
    requires NodesPass(tags, nodes)
    ensures Laned(nodes)
    decreases nodes
  {
    if nodes != [] {
      assert NodePasses(tags, nodes[0]);
      assert forall k | 0 <= k < |nodes[1..]| :: nodes[1..][k] == nodes[k + 1];
      PassingIsLaned(tags, nodes[1..]);
      if nodes[0].Branch? {
        PassingLanesAreLaned(tags, nodes[0].lanes);
      }
    }
  }

  lemma {:induction false} PassingLanesAreLaned(tags: seq<SourceTag>, lanes: seq<Lane<SourceInstr>>)
    requires forall k | 0 <= k < |lanes| :: NodesPass(tags, lanes[k].nodes)
    ensures LanedLanes(lanes)
    decreases lanes
  {
    if lanes != [] {
      PassingIsLaned(tags, lanes[0].nodes);
      PassingLanesAreLaned(tags, lanes[1..]);
    }
  }

  /** A turn keeps the number of marks and one-shots. */
  lemma {:induction false} MeaningKeepsSizes(
      reals: RealOps, tick: uint64, w: LM.World, s: SourceInstr, at: LM.Place, power: bool)
    ensures var t := LM.Meaning(reals, tick, w, s, at, power); |t.w.marks| == |w.marks| && |t.w.shots| == |w.shots|
  {
  }

  predicate SameSizes(w: LM.World, w1: LM.World) {
    |w1.marks| == |w.marks| && |w1.shots| == |w.shots|
  }

  lemma {:induction false} TreeKeepsSizes(
      reals: RealOps, tick: uint64, w: LM.World, nodes: seq<Node<SourceInstr>>, at: LM.Place, power: bool)
    ensures SameSizes(w, LM.RunTree(reals, tick, w, nodes, at, power).w)
    decreases nodes
  {
    hide LM.Meaning;
    if nodes != [] {
      NodeKeepsSizes(reals, tick, w, nodes[0], at, power);
      var t := LM.RunNode(reals, tick, w, nodes[0], at, power);
      if t.Went? {
        TreeKeepsSizes(reals, tick, t.w, nodes[1..], LM.Behind(at, WalkNode(nodes[0])), t.power);
      }
    }
  }

  lemma {:induction false} NodeKeepsSizes(
      reals: RealOps, tick: uint64, w: LM.World, node: Node<SourceInstr>, at: LM.Place, power: bool)
    ensures SameSizes(w, LM.RunNode(reals, tick, w, node, at, power).w)
    decreases node
  {
    hide LM.Meaning;
    match node
    case Step(s) => MeaningKeepsSizes(reals, tick, w, s, at, power);
    case Branch(lanes) => LanesKeepSizes(reals, tick, w, lanes, at, power);
  }

  lemma {:induction false} LanesKeepSizes(
      reals: RealOps, tick: uint64, w: LM.World, lanes: seq<Lane<SourceInstr>>, at: LM.Place, power: bool)
    ensures SameSizes(w, LM.RunLanes(reals, tick, w, lanes, at, power).w)
    decreases lanes
  {
    if lanes != [] {
      TreeKeepsSizes(reals, tick, w, lanes[0].nodes, at, power);
      var t := LM.RunTree(reals, tick, w, lanes[0].nodes, at, power);
      if t.Went? {
        LanesKeepSizes(reals, tick, t.w, lanes[1..], LM.Behind(at, Walk(lanes[0].nodes)), power);
      }
    }
  }

  lemma {:induction false} RoomStays(w: LM.World, w1: LM.World, at: LM.Place, steps: seq<SourceInstr>)
    requires SameSizes(w, w1) && HasRoom(w, at, steps)
    ensures HasRoom(w1, at, steps)
  {
  }

  // ----- records and trees -----

  lemma {:induction false} NoTree(
      tags: seq<SourceTag>, directions: Directions, ctx: Context, st: Store, w: LM.World, c: Counters, at: LM.Place,
      power: bool)
    requires Holds(tags, directions, st, w)
    ensures AllTagsExist(SortTags(tags), Walk([]))
    ensures TreeCorresponds(SortTags(tags), directions,
            Eval(RuntimeMachine(ctx), Number(SortTags(tags), [], c), st, power),
                            LM.RunTree(ctx.reals, ctx.tick, w, [], at, power))
  {
  }

  lemma {:induction false} NoLanes(
      tags: seq<SourceTag>, directions: Directions, ctx: Context, st: Store, w: LM.World, c: Counters, at: LM.Place,
      power: bool)
    requires Holds(tags, directions, st, w)
    ensures AllTagsExist(SortTags(tags), WalkLanes([]))
    ensures TreeCorresponds(SortTags(tags), directions,
            EvalLanes(RuntimeMachine(ctx), NumberLanes(SortTags(tags), [], c), st, power),
                            LM.RunLanes(ctx.reals, ctx.tick, w, [], at, power))
  {
  }

  /** One node and the rest of the series. */
  lemma {:induction false} Series(
      sorted: seq<SourceTag>, directions: Directions, ctx: Context, st: Store, w: LM.World,
      nodes: seq<Node<SourceInstr>>, tree: seq<Node<Instr>>, at: LM.Place, power: bool)
    requires nodes != [] && tree != []
    requires TreeCorresponds(sorted, directions, EvalNode(RuntimeMachine(ctx), tree[0], st, power),
                             LM.RunNode(ctx.reals, ctx.tick, w, nodes[0], at, power))
    requires var v, t := EvalNode(RuntimeMachine(ctx), tree[0], st, power),
             LM.RunNode(ctx.reals, ctx.tick, w, nodes[0], at, power);
             v.Out? && t.Went? ==>
               TreeCorresponds(sorted, directions, Eval(RuntimeMachine(ctx), tree[1..], v.st, v.power),
                               LM.RunTree(ctx.reals, ctx.tick, t.w, nodes[1..], LM.Behind(at, WalkNode(nodes[0])),
                                 t.power))
    ensures TreeCorresponds(sorted, directions, Eval(RuntimeMachine(ctx), tree, st, power),
                            LM.RunTree(ctx.reals, ctx.tick, w, nodes, at, power))
  {
    hide Represents, Reports, EvalNode, LM.RunNode, Execute;
  }

  /** One lane and the rest of the branch. */
  lemma {:induction false} Parallel(
      sorted: seq<SourceTag>, directions: Directions, ctx: Context, st: Store, w: LM.World,
      lanes: seq<Lane<SourceInstr>>, tree: seq<Lane<Instr>>, at: LM.Place, power: bool)
    requires lanes != [] && tree != []
    requires TreeCorresponds(sorted, directions, Eval(RuntimeMachine(ctx), tree[0].nodes, st, power),
                             LM.RunTree(ctx.reals, ctx.tick, w, lanes[0].nodes, at, power))
    requires var v, t := Eval(RuntimeMachine(ctx), tree[0].nodes, st, power),
                         LM.RunTree(ctx.reals, ctx.tick, w, lanes[0].nodes, at, power);
             v.Out? && t.Went? ==>
               TreeCorresponds(sorted, directions, EvalLanes(RuntimeMachine(ctx), tree[1..], v.st, power),
                               LM.RunLanes(ctx.reals, ctx.tick, t.w, lanes[1..], LM.Behind(at, Walk(lanes[0].nodes)),
                                 power))
    ensures TreeCorresponds(sorted, directions, EvalLanes(RuntimeMachine(ctx), tree, st, power),
                            LM.RunLanes(ctx.reals, ctx.tick, w, lanes, at, power))
  {
    hide Represents, Reports, Eval, LM.RunTree, Execute;
  }

  /** What a tree of the project means is what evaluating its numbered records does to the store. */
  lemma {:induction false} TreeMeans(
      tags: seq<SourceTag>, directions: Directions, ctx: Context, st: Store, w: LM.World, nodes: seq<Node<SourceInstr>>,
      c: Counters, at: LM.Place, power: bool)
    requires Holds(tags, directions, st, w) && Sound(tags, directions, Walk(nodes)) && Laned(nodes)
    requires AtPlace(tags, c, at) && HasRoom(w, at, Walk(nodes)) && SameSight(tags, at.insight, ctx.visible)
    ensures AllTagsExist(SortTags(tags), Walk(nodes))
    ensures TreeCorresponds(SortTags(tags), directions,
            Eval(RuntimeMachine(ctx), Number(SortTags(tags), nodes, c), st, power),
                            LM.RunTree(ctx.reals, ctx.tick, w, nodes, at, power))
    decreases nodes
  {
    var sorted := SortTags(tags);
    if nodes == [] {
      NoTree(tags, directions, ctx, st, w, c, at, power);
    } else {
      var node, rest := nodes[0], nodes[1..];
      var behind := LM.Behind(at, WalkNode(node));
      assert Walk(nodes) == WalkNode(node) + Walk(rest) && LanedNode(node) && Laned(rest);
      SoundParts(tags, directions, WalkNode(node), Walk(rest));
      NumberUnfolds(sorted, nodes, c);
      hide *;
      RoomParts(w, at, WalkNode(node), Walk(rest));
      NodeMeans(tags, directions, ctx, st, w, node, c, at, power);
      NodeKeepsSizes(ctx.reals, ctx.tick, w, node, at, power);
      BehindNode(tags, node, c, at);
      var tree := Number(sorted, nodes, c);
      assert tree[0] == NumberNode(sorted, node, c) && tree[1..] == Number(sorted, rest, AfterNode(node, c));
      var v, t := EvalNode(RuntimeMachine(ctx), tree[0], st, power),
          LM.RunNode(ctx.reals, ctx.tick, w, node, at, power);
      if v.Out? && t.Went? {
        RoomStays(w, t.w, behind, Walk(rest));
        Went(tags, directions, v, t);
        SightStays(tags, at, behind, WalkNode(node), ctx.visible);
        TreeMeans(tags, directions, ctx, v.st, t.w, rest, AfterNode(node, c), behind, t.power);
        SamePower(sorted, directions, v, t);
      }
      Series(sorted, directions, ctx, st, w, nodes, tree, at, power);
    }
  }

  lemma {:induction false} Went(
      tags: seq<SourceTag>, directions: Directions, v: Meaning<Store, FaultRecord>, t: LM.Turn)
    requires DistinctIds(tags) && v.Out? && t.Went? && TreeCorresponds(SortTags(tags), directions, v, t)
    ensures Holds(tags, directions, v.st, t.w)
  {
  }

  lemma {:induction false} SamePower(
      sorted: seq<SourceTag>, directions: Directions, v: Meaning<Store, FaultRecord>, t: LM.Turn)
    requires v.Out? && t.Went? && TreeCorresponds(sorted, directions, v, t)
    ensures v.power == t.power
  {
  }

  lemma {:induction false} SightStays(
      tags: seq<SourceTag>, at: LM.Place, behind: LM.Place, steps: seq<SourceInstr>, visible: seq<Instr>)
    requires behind == LM.Behind(at, steps) && SameSight(tags, at.insight, visible)
    ensures SameSight(tags, behind.insight, visible)
  {
  }

  lemma {:induction false} NodeMeans(
      tags: seq<SourceTag>, directions: Directions, ctx: Context, st: Store, w: LM.World, node: Node<SourceInstr>,
      c: Counters, at: LM.Place, power: bool)
    requires Holds(tags, directions, st, w) && Sound(tags, directions, WalkNode(node)) && LanedNode(node)
    requires AtPlace(tags, c, at) && HasRoom(w, at, WalkNode(node)) && SameSight(tags, at.insight, ctx.visible)
    ensures AllTagsExist(SortTags(tags), WalkNode(node))
    ensures TreeCorresponds(SortTags(tags), directions,
            EvalNode(RuntimeMachine(ctx), NumberNode(SortTags(tags), node, c), st, power),
                            LM.RunNode(ctx.reals, ctx.tick, w, node, at, power))
    decreases node
  {
    var sorted := SortTags(tags);
    match node
    case Step(s) =>
      assert s in WalkNode(node);
      OneStep(w, s, c, at);
      hide Represents, Holds, StepPasses, StepDeploys, Execute, LM.Meaning, SameSight, SortTags, LowerStep, Assemble,
           HasRoom;
      StepMeans(tags, directions, ctx, st, w, s, c, at, power);
    case Branch(lanes) =>
      hide Represents, Holds, Execute, SameSight, SortTags, NumberLanes, EvalLanes, LM.RunLanes, StepPasses,
           StepDeploys, WalkLanes;
      LanesMean(tags, directions, ctx, st, w, lanes, Bump(c), at, power);
      SameLength(sorted, lanes, Bump(c));
  }

  lemma {:induction false} SameLength(sorted: seq<SourceTag>, lanes: seq<Lane<SourceInstr>>, c: Counters)
    requires AllTagsExist(sorted, WalkLanes(lanes))
    ensures |NumberLanes(sorted, lanes, c)| == |lanes|
    decreases lanes
  {
    if lanes != [] {
      TagsOfLanes(sorted, lanes);
      LanesUnfold(sorted, lanes, c);
      SameLength(sorted, lanes[1..], AfterLane(lanes[0], c));
    }
  }

  lemma {:induction false} OneStep(w: LM.World, s: SourceInstr, c: Counters, at: LM.Place)
    requires HasRoom(w, at, [s])
    ensures Stateful(s.mnemonic) ==> at.slot < |w.marks|
    ensures NeedsStorage(s) ==> at.shot < |w.shots|
  {
    assert [s][1..] == [] && LM.Remembering([]) == 0 && LM.Shots([]) == 0;
  }

  lemma {:induction false} LanesMean(
      tags: seq<SourceTag>, directions: Directions, ctx: Context, st: Store, w: LM.World, lanes: seq<Lane<SourceInstr>>,
      c: Counters, at: LM.Place, power: bool)
    requires Holds(tags, directions, st, w) && Sound(tags, directions, WalkLanes(lanes)) && LanedLanes(lanes)
    requires AtPlace(tags, c, at) && HasRoom(w, at, WalkLanes(lanes)) && SameSight(tags, at.insight, ctx.visible)
    ensures AllTagsExist(SortTags(tags), WalkLanes(lanes))
    ensures TreeCorresponds(SortTags(tags), directions,
            EvalLanes(RuntimeMachine(ctx), NumberLanes(SortTags(tags), lanes, c), st, power),
                            LM.RunLanes(ctx.reals, ctx.tick, w, lanes, at, power))
    decreases lanes
  {
    var sorted := SortTags(tags);
    if lanes == [] {
      NoLanes(tags, directions, ctx, st, w, c, at, power);
    } else {
      var nodes, rest := lanes[0].nodes, lanes[1..];
      var behind, next := LM.Behind(at, Walk(nodes)), AfterLane(lanes[0], c);
      assert WalkLanes(lanes) == Walk(nodes) + WalkLanes(rest) && Laned(nodes) && LanedLanes(rest);
      SoundParts(tags, directions, Walk(nodes), WalkLanes(rest));
      LanesUnfold(sorted, lanes, c);
      assert AtPlace(tags, Bump(c), at) && NumberLane(sorted, lanes[0], c).nodes == Number(sorted, nodes, Bump(c));
      hide *;
      RoomParts(w, at, Walk(nodes), WalkLanes(rest));
      TreeMeans(tags, directions, ctx, st, w, nodes, Bump(c), at, power);
      TreeKeepsSizes(ctx.reals, ctx.tick, w, nodes, at, power);
      BehindLane(tags, lanes[0], c, at);
      var tree := NumberLanes(sorted, lanes, c);
      assert tree[0] == NumberLane(sorted, lanes[0], c) && tree[1..] == NumberLanes(sorted, rest, next);
      var v, t := Eval(RuntimeMachine(ctx), tree[0].nodes, st, power),
          LM.RunTree(ctx.reals, ctx.tick, w, nodes, at, power);
      if v.Out? && t.Went? {
        RoomStays(w, t.w, behind, WalkLanes(rest));
        Went(tags, directions, v, t);
        SightStays(tags, at, behind, Walk(nodes), ctx.visible);
        LanesMean(tags, directions, ctx, v.st, t.w, rest, next, behind, power);
      }
      Parallel(sorted, directions, ctx, st, w, lanes, tree, at, power);
    }
  }

  // ----- what RES sees -----

  lemma {:induction false} SlotOfExecuted(code: seq<Instr>, tag: nat, slot: int)
    ensures SlotOf(code, tag, slot) <==> SlotOf(Executed(code), tag, slot)
  {
    if SlotOf(code, tag, slot) {
      var i :| i in code && Drives(i, tag) && SlotNumber(i) == slot;
      InExecutedOnly(code, i);
    }
    if SlotOf(Executed(code), tag, slot) {
      var i :| i in Executed(code) && Drives(i, tag) && SlotNumber(i) == slot;
      InExecutedOnly(code, i);
    }
  }

  lemma {:induction false} SlotOfHead(code: seq<Instr>, tag: nat, slot: int)
    requires code != []
    ensures SlotOf(code, tag, slot) <==>
              (Drives(code[0], tag) && SlotNumber(code[0]) == slot) || SlotOf(code[1..], tag, slot)
  {
    assert code == [code[0]] + code[1..];
  }

  /** The record of an instruction that remembers drives the tag its operand names. */
  lemma {:induction false} DrivesNamed(tags: seq<SourceTag>, s: SourceInstr, c: Counters, id: nat)
    requires DistinctIds(tags) && StepPasses(tags, s) && TagsExist(SortTags(tags), s) && HasTag(SortTags(tags), id)
    ensures var i := Assemble(LowerStep(SortTags(tags), s, c));
            && (Drives(i, IndexOf(SortTags(tags), id)) <==>
                  LM.Remembers(s.mnemonic) && s.operands == [TagRef(id, None)])
            && (LM.Remembers(s.mnemonic) ==> SlotNumber(i) == c.slot)
  {
    var sorted := SortTags(tags);
    if LM.Remembers(s.mnemonic) {
      var o := s.operands[0];
      assert OperandPasses(tags, o, Rules(s.mnemonic)[0]);
      PassingType(tags, o, Rules(s.mnemonic)[0]);
      assert o.TagRef? && o.member.None? && o in s.operands && HasTag(sorted, o.tagId);
      IndexFinds(sorted, o.tagId);
      IndexFinds(sorted, id);
      assert s.operands == [o];
    }
  }

  lemma {:induction false} ResolvedSight(
      tags: seq<SourceTag>, steps: seq<SourceInstr>, slot: nat, tag: nat, code: seq<Instr>, id: nat, k: nat)
    requires DistinctIds(tags) && AllTagsExist(SortTags(tags), steps)
             && Resolved(SortTags(tags), steps, slot, tag, code)
    requires (forall s | s in steps :: StepPasses(tags, s)) && HasTag(SortTags(tags), id)
    ensures SlotOf(code, IndexOf(SortTags(tags), id), k) <==> LM.DrivenBy(steps, slot, id, k)
    decreases |steps|
  {
    hide Assemble, LowerStep, StepPasses, Drives, SlotNumber, SlotOf, CountHidden, SortTags, TagsExist, HasTag,
         DistinctIds;
    if steps == [] {
      NothingDrives(IndexOf(SortTags(tags), id), k);
    } else {
      var s, n := steps[0], IndexOf(SortTags(tags), id);
      assert s in steps && forall x | x in steps[1..] :: x in steps;
      OneCountedHere(s);
      DrivesNamed(tags, s, Counters(code[0].id, slot, tag), id);
      SlotOfHead(code, n, k);
      ResolvedSight(tags, steps[1..], slot + CountStateful([s]), tag + CountHidden([s]), code[1..], id, k);
    }
  }

  lemma {:induction false} OneCountedHere(s: SourceInstr)
    ensures CountStateful([s]) == if LM.Remembers(s.mnemonic) then 1 else 0
  {
    assert [s][1..] == [] && CountStateful([]) == 0;
  }

  lemma {:induction false} NothingDrives(tag: nat, slot: int)
    ensures !SlotOf([], tag, slot)
  {
  }

  /** The records up to the end of a rung, as the instructions up to there. */
  lemma {:induction false} SightOfCode(tags: seq<SourceTag>, steps: seq<SourceInstr>, code: seq<Instr>)
    requires DistinctIds(tags) && AllTagsExist(SortTags(tags), steps)
    requires Resolved(SortTags(tags), steps, 0, |tags|, Executed(code)) && forall s | s in steps :: StepPasses(tags, s)
    ensures SameSight(tags, steps, code)
  {
    hide Resolved, StepPasses, SlotOf, SortTags, LM.DrivenBy, HasTag;
    forall id, k: nat | HasTag(SortTags(tags), id)
      ensures SlotOf(code, IndexOf(SortTags(tags), id), k) <==> LM.DrivenBy(steps, 0, id, k)
    {
      SlotOfExecuted(code, IndexOf(SortTags(tags), id), k);
      ResolvedSight(tags, steps, 0, |tags|, Executed(code), id, k);
    }
  }

  // ----- rungs -----

  function Trees(rungs: seq<Placed>): seq<seq<Node<SourceInstr>>> {
    seq(|rungs|, k requires 0 <= k < |rungs| => rungs[k].rung)
  }

  /** The rungs are admitted, deploy and can be built. */
  predicate SoundRungs(tags: seq<SourceTag>, directions: Directions, rungs: seq<Placed>) {
    forall r | r in rungs :: Sound(tags, directions, Walk(r.rung)) && Laned(r.rung)
  }

  /** Some rungs are done: their records have been resolved from their instructions. */
  predicate Done(tags: seq<SourceTag>, p: Program, c: Counters, steps: seq<SourceInstr>) {
    && c.id <= |p.code| && AllTagsExist(SortTags(tags), steps) && (forall s | s in steps :: StepPasses(tags, s))
    && Resolved(SortTags(tags), steps, 0, |tags|, Executed(p.code[..c.id]))
    && c.slot == CountStateful(steps) && c.tag == |tags| + CountHidden(steps)
  }

  /** The records of the next rung. */
  lemma {:induction false} RungRecords(p: Program, sorted: seq<SourceTag>, rungs: seq<Placed>, c: Counters)
    requires rungs != [] && RungTagsExist(sorted, rungs) && CodeLeft(p, sorted, rungs, c)
    ensures AllTagsExist(sorted, Walk(rungs[0].rung)) && RungTagsExist(sorted, rungs[1..])
    ensures var more, end := Walk(rungs[0].rung), After(rungs[0].rung, c);
            && c.id <= end.id <= |p.code| && CodeLeft(p, sorted, rungs[1..], end)
            && Resolved(sorted, more, c.slot, c.tag, Executed(p.code[c.id..end.id]))
            && end.slot == c.slot + CountStateful(more) && end.tag == c.tag + CountHidden(more)
  {
    hide *;
    NextCode(p, sorted, rungs, c);
    RungCode(sorted, rungs[0].rung, c);
    NumberIsResolved(sorted, rungs[0].rung, c);
  }

  lemma {:induction false} OneMoreDone(
      tags: seq<SourceTag>, directions: Directions, p: Program, rungs: seq<Placed>, c: Counters, end: Counters,
      steps: seq<SourceInstr>, more: seq<SourceInstr>)
    requires DistinctIds(tags) && Done(tags, p, c, steps) && Sound(tags, directions, more)
    requires c.id <= end.id <= |p.code| && AllTagsExist(SortTags(tags), more)
    requires Resolved(SortTags(tags), more, c.slot, c.tag, Executed(p.code[c.id..end.id]))
    requires end.slot == c.slot + CountStateful(more) && end.tag == c.tag + CountHidden(more)
    ensures Done(tags, p, end, steps + more) && SameSight(tags, steps + more, Visible(p, end.id))
  {
    hide *;
    DoneFacts(tags, p, c, steps);
    AllPass(tags, directions, steps, more);
    VisibleIs(p, end.id);
    JoinDone(tags, steps, more, p.code[..c.id], p.code[c.id..end.id]);
    assert p.code[..end.id] == p.code[..c.id] + p.code[c.id..end.id];
    SightOfCode(tags, steps + more, p.code[..end.id]);
    IsDone(tags, p, end, steps + more);
  }

  lemma {:induction false} JoinDone(
      tags: seq<SourceTag>, a: seq<SourceInstr>, b: seq<SourceInstr>, x: seq<Instr>, y: seq<Instr>)
    requires AllTagsExist(SortTags(tags), a) && AllTagsExist(SortTags(tags), b)
    requires Resolved(SortTags(tags), a, 0, |tags|, Executed(x))
    requires Resolved(SortTags(tags), b, CountStateful(a), |tags| + CountHidden(a), Executed(y))
    ensures AllTagsExist(SortTags(tags), a + b) && Resolved(SortTags(tags), a + b, 0, |tags|, Executed(x + y))
    ensures CountStateful(a + b) == CountStateful(a) + CountStateful(b)
            && CountHidden(a + b) == CountHidden(a) + CountHidden(b)
  {
    hide *;
    ExecutedAppend(x, y);
    ResolvedAppend(SortTags(tags), a, b, 0, |tags|, Executed(x), Executed(y));
    CountsAppend(a, b);
  }

  lemma {:induction false} DoneFacts(tags: seq<SourceTag>, p: Program, c: Counters, steps: seq<SourceInstr>)
    requires Done(tags, p, c, steps)
    ensures AllTagsExist(SortTags(tags), steps) && c.id <= |p.code|
    ensures Resolved(SortTags(tags), steps, 0, |tags|, Executed(p.code[..c.id]))
    ensures c.slot == CountStateful(steps) && c.tag == |tags| + CountHidden(steps)
    ensures forall s | s in steps :: StepPasses(tags, s)
  {
  }

  lemma {:induction false} VisibleIs(p: Program, n: nat)
    requires n <= |p.code|
    ensures Visible(p, n) == p.code[..n]
  {
  }

  lemma {:induction false} AllPass(
      tags: seq<SourceTag>, directions: Directions, a: seq<SourceInstr>, b: seq<SourceInstr>)
    requires (forall s | s in a :: StepPasses(tags, s)) && Sound(tags, directions, b)
    ensures forall s | s in a + b :: StepPasses(tags, s)
  {
    hide StepPasses, StepDeploys;
  }

  lemma {:induction false} IsDone(tags: seq<SourceTag>, p: Program, c: Counters, steps: seq<SourceInstr>)
    requires AllTagsExist(SortTags(tags), steps) && c.id <= |p.code|
    requires Resolved(SortTags(tags), steps, 0, |tags|, Executed(p.code[..c.id]))
    requires (forall s | s in steps :: StepPasses(tags, s)) && c.slot == CountStateful(steps)
             && c.tag == |tags| + CountHidden(steps)
    ensures Done(tags, p, c, steps)
  {
  }

  /** What the rungs of the project mean is what the runtime does with their records. */
  predicate RungsCorrespond(
      sorted: seq<SourceTag>, directions: Directions, r: Scanned, t: LM.Ran, power: seq<bool>, count: nat)
    requires count <= |power|
  {
    && Represents(sorted, directions, r.store, t.w)
    && match t.stopped
       case None =>
         && r.finished && |t.powers| == count && |r.power| == |power|
         && (forall k | 0 <= k < |power| - count :: r.power[k] == power[k])
         && (forall k | 0 <= k < count :: r.power[|power| - count + k] == t.powers[k])
       case Some(why) => !r.finished && r.fault.Some? && Reports(r.fault.value, why)
  }

  lemma {:induction false} RungsMean(
      tags: seq<SourceTag>, directions: Directions, p: Program, rungs: seq<Placed>, c: Counters,
      steps: seq<SourceInstr>,
      reals: RealOps, tick: uint64, s: Store, w: LM.World, power: seq<bool>, log: seq<seq<Event>>)
    requires Holds(tags, directions, s, w) && SoundRungs(tags, directions, rungs) && Done(tags, p, c, steps)
    requires RungTagsExist(SortTags(tags), rungs) && CodeLeft(p, SortTags(tags), rungs, c) && |rungs| <= |power|
    requires HasRoom(w, LM.Place(0, 0, []), steps + AllSteps(rungs))
    ensures RungsCorrespond(SortTags(tags), directions,
            TreeRungs(p, SortTags(tags), rungs, c, reals, tick, s, power, log),
                            LM.RunRungs(reals, tick, w, Trees(rungs), steps), power, |rungs|)
    decreases |rungs|
  {
    var sorted := SortTags(tags);
    hide *;
    HoldsRepresents(tags, directions, s, w);
    if rungs == [] {
      NoRungsMean(sorted, directions, p, c, steps, reals, tick, s, w, power, log);
    } else {
      var rung, rest := rungs[0].rung, rungs[1..];
      var more, end := steps + Walk(rung), After(rung, c);
      var ctx := Context(reals, tick, Visible(p, end.id));
      var at := LM.Place(LM.Remembering(steps), LM.Shots(steps), more);
      FirstRung(tags, directions, p, rungs, c, steps, w, at);
      RungRecords(p, sorted, rungs, c);
      OneMoreDone(tags, directions, p, rungs, c, end, steps, Walk(rung));
      TurnOfRungs(p, sorted, rungs, c, reals, tick, s, w, power, log, steps);
      TreeMeans(tags, directions, ctx, s, w, rung, c, at, true);
      TreeKeepsSizes(reals, tick, w, rung, at, true);
      var v, t := Eval(RuntimeMachine(ctx), Number(sorted, rung, c), s, true),
          LM.RunTree(reals, tick, w, rung, at, true);
      if t.Went? {
        WentOut(sorted, directions, v, t);
        Went(tags, directions, v, t);
        RoomStays(w, t.w, LM.Place(0, 0, []), more + AllSteps(rest));
        RungsMean(tags, directions, p, rest, end, more, reals, tick, v.st, t.w, power[|power| - |rungs| := v.power],
          log + [v.log]);
        OneMoreRung(sorted, directions,
                    TreeRungs(p, sorted, rest, end, reals, tick, v.st, power[|power| - |rungs| := v.power],
                      log + [v.log]),
                    LM.RunRungs(reals, tick, t.w, Trees(rest), more), power, |rungs|, v.power);
      } else {
        StoppedThere(sorted, directions, v, t,
          Scanned(v.st, power, end.id, false, if v.Fault? then Some(v.fault) else None, log),
                     power, |rungs|);
      }
    }
  }

  lemma {:induction false} NoRungsMean(
      sorted: seq<SourceTag>, directions: Directions, p: Program, c: Counters, steps: seq<SourceInstr>, reals: RealOps,
      tick: uint64, s: Store, w: LM.World, power: seq<bool>, log: seq<seq<Event>>)
    requires Represents(sorted, directions, s, w)
    ensures RungTagsExist(sorted, [])
    ensures RungsCorrespond(sorted, directions, TreeRungs(p, sorted, [], c, reals, tick, s, power, log),
                            LM.RunRungs(reals, tick, w, Trees([]), steps), power, 0)
  {
    hide Represents;
  }

  lemma {:induction false} WentOut(
      sorted: seq<SourceTag>, directions: Directions, v: Meaning<Store, FaultRecord>, t: LM.Turn)
    requires t.Went? && TreeCorresponds(sorted, directions, v, t)
    ensures v.Out? && v.power == t.power
  {
  }

  lemma {:induction false} FirstRung(
      tags: seq<SourceTag>, directions: Directions, p: Program, rungs: seq<Placed>, c: Counters,
      steps: seq<SourceInstr>, w: LM.World, at: LM.Place)
    requires rungs != [] && SoundRungs(tags, directions, rungs) && Done(tags, p, c, steps)
    requires HasRoom(w, LM.Place(0, 0, []), steps + AllSteps(rungs))
    requires at == LM.Place(LM.Remembering(steps), LM.Shots(steps), steps + Walk(rungs[0].rung))
    ensures Sound(tags, directions, Walk(rungs[0].rung)) && Laned(rungs[0].rung)
            && SoundRungs(tags, directions, rungs[1..])
    ensures Trees(rungs)[0] == rungs[0].rung && Trees(rungs)[1..] == Trees(rungs[1..])
    ensures steps + AllSteps(rungs) == steps + Walk(rungs[0].rung) + AllSteps(rungs[1..])
    ensures AtPlace(tags, c, at) && HasRoom(w, at, Walk(rungs[0].rung))
  {
    hide Sound, Laned, HasRoom, Walk, StepPasses;
    var walk, others := Walk(rungs[0].rung), AllSteps(rungs[1..]);
    assert steps + (walk + others) == steps + walk + others;
    assert rungs[0] in rungs && forall r | r in rungs[1..] :: r in rungs;
    SameNumbers(steps);
    RoomOfRung(w, steps, Walk(rungs[0].rung), AllSteps(rungs[1..]), at);
  }

  /** Both sides take the first rung, then the rest. */
  lemma {:induction false} TurnOfRungs(
      p: Program, sorted: seq<SourceTag>, rungs: seq<Placed>, c: Counters, reals: RealOps, tick: uint64, s: Store,
      w: LM.World, power: seq<bool>, log: seq<seq<Event>>, steps: seq<SourceInstr>)
    requires rungs != [] && RungTagsExist(sorted, rungs) && |rungs| <= |power|
    requires AllTagsExist(sorted, Walk(rungs[0].rung)) && RungTagsExist(sorted, rungs[1..])
    requires Trees(rungs)[0] == rungs[0].rung && Trees(rungs)[1..] == Trees(rungs[1..])
    ensures var rung, rest, end, more := rungs[0].rung, rungs[1..], After(rungs[0].rung, c),
            steps + Walk(rungs[0].rung);
            var v := Eval(RuntimeMachine(Context(reals, tick, Visible(p, end.id))), Number(sorted, rung, c), s, true);
            TreeRungs(p, sorted, rungs, c, reals, tick, s, power, log)
            == match v
               case Out(s1, out, events) =>
                 TreeRungs(p, sorted, rest, end, reals, tick, s1, power[|power| - |rungs| := out], log + [events])
               case Fault(s1, f) => Scanned(s1, power, end.id, false, Some(f), log)
    ensures var rung, rest, more := rungs[0].rung, rungs[1..], steps + Walk(rungs[0].rung);
            var t := LM.RunTree(reals, tick, w, rung, LM.Place(LM.Remembering(steps), LM.Shots(steps), more), true);
            LM.RunRungs(reals, tick, w, Trees(rungs), steps)
            == match t
               case Stopped(w1, why) => LM.Ran(w1, [], Some(why))
               case Went(w1, out) =>
                 var ran := LM.RunRungs(reals, tick, w1, Trees(rest), more);
                 LM.Ran(ran.w, [out] + ran.powers, ran.stopped)
  {
    hide Eval, Number, LM.RunTree, After, Walk, AllTagsExist;
    assert |Trees(rungs)| == |rungs|;
  }

  lemma {:induction false} OneMoreRung(
      sorted: seq<SourceTag>, directions: Directions, r: Scanned, ran: LM.Ran, power: seq<bool>, count: nat, out: bool)
    requires 1 <= count <= |power|
             && RungsCorrespond(sorted, directions, r, ran, power[|power| - count := out], count - 1)
    ensures RungsCorrespond(sorted, directions, r, LM.Ran(ran.w, [out] + ran.powers, ran.stopped), power, count)
  {
    hide Represents, Reports;
  }

  lemma {:induction false} StoppedThere(
      sorted: seq<SourceTag>, directions: Directions, v: Meaning<Store, FaultRecord>, t: LM.Turn, r: Scanned,
      power: seq<bool>, count: nat)
    requires count <= |power| && t.Stopped? && TreeCorresponds(sorted, directions, v, t)
    requires r.store == v.st && !r.finished && r.fault == if v.Fault? then Some(v.fault) else None
    ensures v.Fault? && RungsCorrespond(sorted, directions, r, LM.Ran(t.w, [], Some(t.why)), power, count)
  {
    hide Represents, Reports;
  }

  lemma {:induction false} RoomOfRung(
      w: LM.World, a: seq<SourceInstr>, b: seq<SourceInstr>, c: seq<SourceInstr>, at: LM.Place)
    requires HasRoom(w, LM.Place(0, 0, []), a + b + c) && at == LM.Place(LM.Remembering(a), LM.Shots(a), a + b)
    ensures HasRoom(w, at, b)
  {
    NumbersAppend(a + b, c);
    NumbersAppend(a, b);
  }
}
