/** What the validator of the runtime says about compiled code: accepted exactly when the project
 *  meets the runtime's further conditions. */
module Compiled {
  import opened Bytes
  import opened Instructions
  import opened LadderTree
  import opened ControlFlow
  import opened Brackets
  import opened Admission
  import opened Safety
  import opened Machine
  import opened Source
  import opened Lowering
  import opened Validation

  // ----- the code of a tree -----

  predicate Bare(i: Instr) {
    IsControl(i.op) ==> i.args == [] && i.slot == -1
  }

  /** Brackets have neither operands nor slot, and there is no end marker. */
  predicate AllBare(code: seq<Instr>) {
    forall i | i in code :: Bare(i) && i.op != 0
  }

  lemma {:induction false} AllBareAppend(a: seq<Instr>, b: seq<Instr>)
    requires AllBare(a) && AllBare(b)
    ensures AllBare(a + b)
  {
  }

  /** Without its brackets, the stream of a tree is the tree's instructions in source order; it
   *  closes every branch it opens. */
  lemma {:induction false} FlattenIsTree(nodes: seq<Node<Instr>>, id: nat, depth: nat)
    requires Ordinary(Walk(nodes))
    ensures Executed(Flatten(nodes, id)) == Walk(nodes)
    ensures Depth(Flatten(nodes, id), depth) == Some(depth)
    ensures AllBare(Flatten(nodes, id))
    decreases nodes
  {
    if nodes != [] {
      var first := FlattenNode(nodes[0], id);
      var rest := Flatten(nodes[1..], id + |first|);
      OrdinaryParts(WalkNode(nodes[0]), Walk(nodes[1..]));
      FlattenNodeIsTree(nodes[0], id, depth);
      FlattenIsTree(nodes[1..], id + |first|, depth);
      AllBareAppend(first, rest);
      ExecutedAppend(first, rest);
      DepthAppend(first, rest, depth);
    }
  }

  lemma {:induction false} OrdinaryParts(a: seq<Instr>, b: seq<Instr>)
    requires Ordinary(a + b)
    ensures Ordinary(a) && Ordinary(b)
  {
    assert forall i | i in a :: i in a + b;
    assert forall i | i in b :: i in a + b;
  }

  lemma {:induction false} SingleDepth(i: Instr, depth: nat)
    ensures Depth([i], depth) == if i.op == OP_BRANCH_BEGIN then Some(depth + 1)
                                 else if i.op == OP_BRANCH_END then (if depth == 0 then None else Some(depth - 1))
                                   else Some(depth)
    ensures Executed([i]) == if IsControl(i.op) then [] else [i]
  {
    assert [i][1..] == [];
  }

  lemma {:induction false} SingleBare(i: Instr)
    requires !IsControl(i.op) && i.op != 0
    ensures AllBare([i])
  {
  }

  lemma {:induction false} FlattenNodeIsTree(node: Node<Instr>, id: nat, depth: nat)
    requires Ordinary(WalkNode(node))
    ensures Executed(FlattenNode(node, id)) == WalkNode(node)
    ensures Depth(FlattenNode(node, id), depth) == Some(depth)
    ensures AllBare(FlattenNode(node, id))
    decreases node
  {
    hide Depth, Executed, FlattenLanes, WalkLanes, AllBare;
    match node
    case Step(i) =>
      assert i in WalkNode(node);
      SingleDepth(i, depth);
      SingleBare(i);
    case Branch(lanes) =>
      var inner := FlattenLanes(lanes, id + 1);
      FlattenLanesAreTree(lanes, id + 1, depth + 1);
      Wrap(Control(OP_BRANCH_BEGIN, id), inner, Control(OP_BRANCH_END, id + 1 + |inner|), depth, depth + 1);
  }

  /** A bracketed stretch executes what is inside it and closes what it opens. */
  lemma {:induction false} Wrap(begin: Instr, inner: seq<Instr>, end: Instr, depth: nat, inside: nat)
    requires begin.args == [] && end.args == [] && begin.slot == -1 && end.slot == -1
    requires (begin.op == OP_BRANCH_BEGIN && end.op == OP_BRANCH_END && inside == depth + 1)
          || (begin.op == OP_LANE_BEGIN && end.op == OP_LANE_END && inside == depth)
    requires Depth(inner, inside) == Some(inside) && AllBare(inner)
    ensures Executed([begin] + inner + [end]) == Executed(inner)
    ensures Depth([begin] + inner + [end], depth) == Some(depth)
    ensures AllBare([begin] + inner + [end])
  {
    SingleDepth(begin, depth);
    SingleDepth(end, inside);
    ExecutedAppend([begin] + inner, [end]);
    ExecutedAppend([begin], inner);
    DepthAppend([begin] + inner, [end], depth);
    DepthAppend([begin], inner, depth);
  }

  lemma {:induction false} FlattenLanesAreTree(lanes: seq<Lane<Instr>>, id: nat, depth: nat)
    requires Ordinary(WalkLanes(lanes))
    ensures Executed(FlattenLanes(lanes, id)) == WalkLanes(lanes)
    ensures Depth(FlattenLanes(lanes, id), depth) == Some(depth)
    ensures AllBare(FlattenLanes(lanes, id))
    decreases lanes
  {
    if lanes != [] {
      var first := FlattenLane(lanes[0], id);
      var rest := FlattenLanes(lanes[1..], id + |first|);
      OrdinaryParts(Walk(lanes[0].nodes), WalkLanes(lanes[1..]));
      FlattenLaneIsTree(lanes[0], id, depth);
      FlattenLanesAreTree(lanes[1..], id + |first|, depth);
      hide Depth, Executed, FlattenLane, Walk, AllBare;
      AllBareAppend(first, rest);
      ExecutedAppend(first, rest);
      DepthAppend(first, rest, depth);
    }
  }

  lemma {:induction false} FlattenLaneIsTree(lane: Lane<Instr>, id: nat, depth: nat)
    requires Ordinary(Walk(lane.nodes))
    ensures Executed(FlattenLane(lane, id)) == Walk(lane.nodes)
    ensures Depth(FlattenLane(lane, id), depth) == Some(depth)
    ensures AllBare(FlattenLane(lane, id))
    decreases lane
  {
    hide Depth, Executed, Flatten, Walk, AllBare;
    var body := Flatten(lane.nodes, id + 1);
    FlattenIsTree(lane.nodes, id + 1, depth);
    Wrap(Control(OP_LANE_BEGIN, id), body, Control(OP_LANE_END, id + 1 + |body|), depth, depth);
  }

  lemma {:induction false} SlotsOfExecuted(code: seq<Instr>)
    ensures Slots(code) == Slots(Executed(code))
    decreases |code|
  {
    if code != [] {
      SlotsOfExecuted(code[1..]);
      assert Executed(code) == (if IsControl(code[0].op) then [] else [code[0]]) + Executed(code[1..]);
      if IsControl(code[0].op) {
        assert Executed(code) == Executed(code[1..]);
        assert Slots(code) == Slots(code[1..]);
      } else {
        assert Executed(code)[1..] == Executed(code[1..]);
      }
    }
  }

  lemma {:induction false} AllInExecuted(code: seq<Instr>, decls: seq<Decl>)
    requires forall i | i in code :: Bare(i)
    ensures (forall i | i in code :: InstrOk(decls, i)) <==> forall i | i in Executed(code) :: InstrOk(decls, i)
    decreases |code|
  {
    hide InstrOk;
    if code != [] {
      AllInExecuted(code[1..], decls);
      assert code[0] in code;
      BareIsOk(decls, code[0]);
      assert code == [code[0]] + code[1..];
    }
  }

  lemma {:induction false} BareIsOk(decls: seq<Decl>, i: Instr)
    requires Bare(i)
    ensures IsControl(i.op) ==> InstrOk(decls, i)
  {
  }

  // ----- one instruction -----

  /** The declarations the image carries: the sorted tags, then the hidden storage tags. */
  predicate Declares(sorted: seq<SourceTag>, directions: Directions, decls: seq<Decl>) {
    && |decls| >= |sorted|
    && (forall k | 0 <= k < |sorted| ::
          decls[k] == Decl(DataTypeCode(sorted[k].dataType), StorageCode(Direction(directions, sorted[k].tagId))))
    && (forall k | |sorted| <= k < |decls| :: decls[k] == Decl(1, 0))
  }

  function Direction(directions: Directions, tagId: nat): Storage {
    if tagId in directions then directions[tagId] else INTERNAL
  }

  predicate IsContact(m: Mnemonic) {
    m == XIC || m == XIO
  }

  predicate HasStateTag(m: Mnemonic) {
    m == TON || m == CTU || m == CTD || m == RES
  }

  /** Operand o, under its rule, is something the runtime accepts: a contact reads a plain tag; a
   *  destination is a plain tag that is not an input; an operand of a comparison or of arithmetic
   *  is not a BOOL literal. */
  predicate OperandDeploys(directions: Directions, m: Mnemonic, o: SourceOperand, rule: Rule) {
    && (IsContact(m) ==> o.TagRef? && o.member.None?)
    && (rule.writable && !HasStateTag(m) ==> o.TagRef? && o.member.None? && Direction(directions, o.tagId) != INPUT)
    && (rule == NUMERIC && m != MOV ==> !(o.LiteralOf? && o.lit.BoolLit?))
  }

  predicate StepDeploys(directions: Directions, s: SourceInstr) {
    NeedsStorage(s) || (|s.operands| == |Rules(s.mnemonic)|
                        && forall k | 0 <= k < |s.operands| :: OperandDeploys(directions, s.mnemonic, s.operands[k],
                          Rules(s.mnemonic)[k]))
  }

  lemma {:induction false} IndexFinds(tags: seq<SourceTag>, tagId: nat)
    ensures IndexOf(tags, tagId) <= |tags|
    ensures IndexOf(tags, tagId) < |tags| ==> tags[IndexOf(tags, tagId)].tagId == tagId
    ensures forall k | 0 <= k < IndexOf(tags, tagId) && k < |tags| :: tags[k].tagId != tagId
  {
    if tags != [] && tags[0].tagId != tagId {
      IndexFinds(tags[1..], tagId);
      assert forall k | 1 <= k < |tags| :: tags[k] == tags[1..][k - 1];
    }
  }

  /** A tag found in declaration order is the one with its number in sorted order. */
  lemma {:induction false} FindInSorted(tags: seq<SourceTag>, tagId: nat)
    requires DistinctIds(tags) && Find(tags, tagId).Some?
    ensures HasTag(SortTags(tags), tagId) && SortTags(tags)[IndexOf(SortTags(tags), tagId)] == Find(tags, tagId).value
  {
    var sorted, t := SortTags(tags), Find(tags, tagId).value;
    FindFinds(tags, tagId);
    SortSorts(tags);
    IndexFinds(sorted, tagId);
    assert t in multiset(tags) && t in multiset(sorted);
    var n :| 0 <= n < |sorted| && sorted[n] == t;
    var u := sorted[IndexOf(sorted, tagId)];
    assert u in multiset(sorted) && u in tags;
    var k :| 0 <= k < |tags| && tags[k] == u;
    var j :| 0 <= j < |tags| && tags[j] == t;
    assert j == k || j < k || k < j;
  }

  lemma {:induction false} FindFinds(tags: seq<SourceTag>, tagId: nat)
    ensures Find(tags, tagId).Some? ==> Find(tags, tagId).value in tags && Find(tags, tagId).value.tagId == tagId
    decreases |tags|
  {
    if tags != [] {
      FindFinds(tags[..|tags| - 1], tagId);
    }
  }

  /** What the runtime sees of an operand that passes the gate. */
  lemma {:induction false} OperandAssembled(
      tags: seq<SourceTag>, directions: Directions, decls: seq<Decl>, o: SourceOperand, rule: Rule)
    requires DistinctIds(tags) && Declares(SortTags(tags), directions, decls) && OperandPasses(tags, o, rule)
    ensures o.TagRef? ==> HasTag(SortTags(tags), o.tagId)
    ensures var a := AssembleOperand(LowerOperand(SortTags(tags), o));
            && OperandOk(decls, a)
            && (o.LiteralOf? ==>
                  rule.literal && a.kind == 2 && a.member == 0 && a.typ == DataTypeCode(LiteralType(o.lit)))
            && (o.TagRef? ==>
                && a.kind == 1 && a.raw < |decls| && OperandType(decls, a) == a.typ
                && (a.member == 0 <==> o.member.None?)
                && (decls[a.raw].storage == 1 <==> Direction(directions, o.tagId) == INPUT)
                && exists t | t in rule.types :: a.typ == DataTypeCode(t))
  {
    match o
    case LiteralOf(_) =>
    case TagRef(tagId, member) =>
      FindInSorted(tags, tagId);
      IndexFinds(SortTags(tags), tagId);
      var t := Find(tags, tagId).value;
      var typ := match member case None => t.dataType case Some(m) => MemberDataType(m);
      assert typ in rule.types;
      assert member.Some? ==> MemberType(DataTypeCode(t.dataType), MemberCode(member)) == DataTypeCode(typ);
  }

  /** The gate's promise about one instruction meets the runtime's demand exactly when the
   *  instruction is deployable. */
  lemma {:induction false} StepAcceptedIffDeployable(
      tags: seq<SourceTag>, directions: Directions, decls: seq<Decl>, s: SourceInstr, c: Counters)
    requires DistinctIds(tags) && Declares(SortTags(tags), directions, decls) && StepPasses(tags, s)
    requires NeedsStorage(s) ==> |tags| <= c.tag < |decls|
    ensures TagsExist(SortTags(tags), s)
    ensures InstrOk(decls, Assemble(LowerStep(SortTags(tags), s, c))) <==> StepDeploys(directions, s)
  {
    var sorted, rules := SortTags(tags), Rules(s.mnemonic);
    if NeedsStorage(s) {
      SortSorts(tags);
      assert |sorted| == |multiset(sorted)| == |multiset(tags)| == |tags|;
      StorageAccepted(sorted, decls, s, c);
    } else {
      StepIsSeen(tags, directions, decls, s, c);
      hide SeenAs, InstrOk, StepDeploys, LowerOperand, DistinctIds, Declares, OperandPasses, TagsExist, SortTags;
      SeenStepAccepted(directions, decls, s, Assemble(LowerStep(sorted, s, c)));
    }
  }

  /** The runtime sees the operands of an instruction that passes the gate as their rules say. */
  lemma {:induction false} StepIsSeen(
      tags: seq<SourceTag>, directions: Directions, decls: seq<Decl>, s: SourceInstr, c: Counters)
    requires DistinctIds(tags) && Declares(SortTags(tags), directions, decls) && StepPasses(tags, s) && !NeedsStorage(s)
    ensures TagsExist(SortTags(tags), s)
    ensures var i := Assemble(LowerStep(SortTags(tags), s, c));
            && |s.operands| == |i.args| == |Rules(s.mnemonic)|
            && forall k | 0 <= k < |s.operands| ::
                 SeenAs(directions, decls, s.operands[k], Rules(s.mnemonic)[k], i.args[k])
  {
    var sorted, rules := SortTags(tags), Rules(s.mnemonic);
    hide SortTags, DistinctIds, Declares, OperandPasses, LowerOperand, AssembleOperand, Rules, HasTag, OperandOk;
    forall k | 0 <= k < |s.operands|
      ensures var o := s.operands[k];
              && (o.TagRef? ==> HasTag(sorted, o.tagId))
              && SeenAs(directions, decls, o, rules[k], AssembleOperand(LowerOperand(sorted, o)))
    {
      OperandAssembled(tags, directions, decls, s.operands[k], rules[k]);
    }
    assert TagsExist(sorted, s);
    var i := Assemble(LowerStep(sorted, s, c));
    assert forall k | 0 <= k < |s.operands| :: i.args[k] == AssembleOperand(LowerOperand(sorted, s.operands[k]));
  }

  lemma {:induction false} StorageAccepted(sorted: seq<SourceTag>, decls: seq<Decl>, s: SourceInstr, c: Counters)
    requires NeedsStorage(s) && TagsExist(sorted, s) && c.tag < |decls| && decls[c.tag] == Decl(1, 0)
    ensures InstrOk(decls, Assemble(LowerStep(sorted, s, c)))
  {
    var i := Assemble(LowerStep(sorted, s, c));
    assert i.args[0] == Operand(1, 1, 0, c.tag);
    assert forall o | o in i.args :: o == i.args[0];
  }

  /** The runtime's view of one operand. */
  predicate SeenAs(directions: Directions, decls: seq<Decl>, o: SourceOperand, rule: Rule, a: Operand) {
    && OperandOk(decls, a)
    && (o.LiteralOf? ==> rule.literal && a.kind == 2 && a.member == 0 && a.typ == DataTypeCode(LiteralType(o.lit)))
    && (o.TagRef? ==>
        && a.kind == 1 && a.raw < |decls| && OperandType(decls, a) == a.typ
        && (a.member == 0 <==> o.member.None?)
        && (decls[a.raw].storage == 1 <==> Direction(directions, o.tagId) == INPUT)
        && exists t | t in rule.types :: a.typ == DataTypeCode(t))
  }

  lemma {:induction false} SeenStepAccepted(directions: Directions, decls: seq<Decl>, s: SourceInstr, i: Instr)
    requires s.mnemonic != ONS && |s.operands| == |Rules(s.mnemonic)| == |i.args| && i.op == Opcode(s.mnemonic)
    requires if IsStateful(i.op) then i.slot >= 0 else i.slot == -1
    requires forall k | 0 <= k < |s.operands| :: SeenAs(directions, decls, s.operands[k], Rules(s.mnemonic)[k],
             i.args[k])
    ensures InstrOk(decls, i) <==> StepDeploys(directions, s)
  {
    hide SeenAs, InstrOk, StepDeploys;
    var rules := Rules(s.mnemonic);
    assert SeenAs(directions, decls, s.operands[0], rules[0], i.args[0]);
    if |rules| == 1 {
      OneOperandAccepted(directions, decls, s, i);
    } else {
      assert SeenAs(directions, decls, s.operands[1], rules[1], i.args[1]);
      if |rules| == 3 {
        assert SeenAs(directions, decls, s.operands[2], rules[2], i.args[2]);
        MathAccepted(directions, decls, s, i);
      } else if Opcode(s.mnemonic) <= OP_LE {
        ComparisonAccepted(directions, decls, s, i);
      } else {
        UnaryAccepted(directions, decls, s, i);
      }
    }
  }

  /** A source operand: what the runtime's checks say of it. */
  lemma {:induction false} NumericSeen(directions: Directions, decls: seq<Decl>, o: SourceOperand, a: Operand)
    requires SeenAs(directions, decls, o, NUMERIC, a)
    ensures OperandOk(decls, a) && ScalarOperand(decls, a, false)
    ensures ScalarOperand(decls, a, true) <==> !(o.LiteralOf? && o.lit.BoolLit?)
  {
  }

  /** A destination: what the runtime's checks say of it. */
  lemma {:induction false} DestinationSeen(directions: Directions, decls: seq<Decl>, o: SourceOperand, a: Operand)
    requires SeenAs(directions, decls, o, NUMERIC_DESTINATION, a)
    ensures OperandOk(decls, a) && 2 <= a.typ <= 3 && o.TagRef?
    ensures TagOperand(decls, a, a.typ, true) <==> o.member.None? && Direction(directions, o.tagId) != INPUT
  {
  }

  lemma {:induction false} MathAccepted(directions: Directions, decls: seq<Decl>, s: SourceInstr, i: Instr)
    requires OP_ADD <= Opcode(s.mnemonic) <= OP_DIV && |s.operands| == |i.args| == 3 && i.op == Opcode(s.mnemonic)
             && i.slot == -1
    requires SeenAs(directions, decls, s.operands[0], NUMERIC, i.args[0])
    requires SeenAs(directions, decls, s.operands[1], NUMERIC, i.args[1])
    requires SeenAs(directions, decls, s.operands[2], NUMERIC_DESTINATION, i.args[2])
    ensures InstrOk(decls, i) <==> StepDeploys(directions, s)
  {
    NumericSeen(directions, decls, s.operands[0], i.args[0]);
    NumericSeen(directions, decls, s.operands[1], i.args[1]);
    DestinationSeen(directions, decls, s.operands[2], i.args[2]);
    hide SeenAs, OperandOk, ScalarOperand, TagOperand;
    assert Rules(s.mnemonic) == [NUMERIC, NUMERIC, NUMERIC_DESTINATION];
    assert StepDeploys(directions, s) <==>
        && OperandDeploys(directions, s.mnemonic, s.operands[0], NUMERIC)
        && OperandDeploys(directions, s.mnemonic, s.operands[1], NUMERIC)
        && OperandDeploys(directions, s.mnemonic, s.operands[2], NUMERIC_DESTINATION);
    assert forall o | o in i.args :: o == i.args[0] || o == i.args[1] || o == i.args[2];
  }

  lemma {:induction false} UnaryAccepted(directions: Directions, decls: seq<Decl>, s: SourceInstr, i: Instr)
    requires s.mnemonic == MOV || s.mnemonic == NEG || s.mnemonic == ABS
    requires |s.operands| == |i.args| == 2 && i.op == Opcode(s.mnemonic) && i.slot == -1
    requires SeenAs(directions, decls, s.operands[0], NUMERIC, i.args[0])
    requires SeenAs(directions, decls, s.operands[1], NUMERIC_DESTINATION, i.args[1])
    ensures InstrOk(decls, i) <==> StepDeploys(directions, s)
  {
    NumericSeen(directions, decls, s.operands[0], i.args[0]);
    DestinationSeen(directions, decls, s.operands[1], i.args[1]);
    hide SeenAs, OperandOk, ScalarOperand, TagOperand;
    UnaryDeploys(directions, s);
    hide StepDeploys;
    assert forall o | o in i.args :: o == i.args[0] || o == i.args[1];
  }

  lemma {:induction false} UnaryDeploys(directions: Directions, s: SourceInstr)
    requires (s.mnemonic == MOV || s.mnemonic == NEG || s.mnemonic == ABS) && |s.operands| == 2
    ensures StepDeploys(directions, s) <==>
              && OperandDeploys(directions, s.mnemonic, s.operands[0], NUMERIC)
              && OperandDeploys(directions, s.mnemonic, s.operands[1], NUMERIC_DESTINATION)
  {
    hide OperandDeploys;
    assert Rules(s.mnemonic) == [NUMERIC, NUMERIC_DESTINATION];
  }

  lemma {:induction false} ComparisonAccepted(directions: Directions, decls: seq<Decl>, s: SourceInstr, i: Instr)
    requires OP_EQ <= Opcode(s.mnemonic) <= OP_LE && |s.operands| == |i.args| == 2 && i.op == Opcode(s.mnemonic)
             && i.slot == -1
    requires SeenAs(directions, decls, s.operands[0], NUMERIC, i.args[0])
    requires SeenAs(directions, decls, s.operands[1], NUMERIC, i.args[1])
    ensures InstrOk(decls, i) <==> StepDeploys(directions, s)
  {
    NumericSeen(directions, decls, s.operands[0], i.args[0]);
    NumericSeen(directions, decls, s.operands[1], i.args[1]);
    hide SeenAs, OperandOk, ScalarOperand, TagOperand;
    assert Rules(s.mnemonic) == [NUMERIC, NUMERIC];
    assert StepDeploys(directions, s) <==>
        && OperandDeploys(directions, s.mnemonic, s.operands[0], NUMERIC)
        && OperandDeploys(directions, s.mnemonic, s.operands[1], NUMERIC);
    assert forall o | o in i.args :: o == i.args[0] || o == i.args[1];
  }

  lemma {:induction false} OneOperandAccepted(directions: Directions, decls: seq<Decl>, s: SourceInstr, i: Instr)
    requires s.mnemonic != ONS && |s.operands| == |Rules(s.mnemonic)| == |i.args| == 1 && i.op == Opcode(s.mnemonic)
    requires if IsStateful(i.op) then i.slot >= 0 else i.slot == -1
    requires SeenAs(directions, decls, s.operands[0], Rules(s.mnemonic)[0], i.args[0])
    ensures InstrOk(decls, i) <==> StepDeploys(directions, s)
  {
    match s.mnemonic
    case XIC => case XIO =>
    case OTE => case OTL => case OTU =>
    case TON => case CTU => case CTD => case RES =>
    case CLR =>
  }

  // ----- the instructions of a tree, in order -----

  /** The records of a list of instructions: each resolved with the slots and the storage tags of
   *  the ones before it. Record numbers are left open, since brackets take numbers too. */
  predicate Resolved(sorted: seq<SourceTag>, steps: seq<SourceInstr>, slot: nat, tag: nat, code: seq<Instr>)
    requires AllTagsExist(sorted, steps)
    decreases |steps|
  {
    if steps == [] then code == []
    else
      var s := steps[0];
      assert s in steps;
      && code != []
      && code[0] == Assemble(LowerStep(sorted, s, Counters(code[0].id, slot, tag)))
      && Resolved(sorted, steps[1..], slot + CountStateful([s]), tag + CountHidden([s]), code[1..])
  }

  function CountStateful(steps: seq<SourceInstr>): nat {
    if steps == [] then 0 else (if Stateful(steps[0].mnemonic) then 1 else 0) + CountStateful(steps[1..])
  }

  function CountHidden(steps: seq<SourceInstr>): nat {
    if steps == [] then 0 else (if NeedsStorage(steps[0]) then 1 else 0) + CountHidden(steps[1..])
  }

  lemma {:induction false} CountsAppend(a: seq<SourceInstr>, b: seq<SourceInstr>)
    ensures CountStateful(a + b) == CountStateful(a) + CountStateful(b)
    ensures CountHidden(a + b) == CountHidden(a) + CountHidden(b)
    decreases |a|
  {
    if a == [] {
      assert a + b == b;
    } else {
      assert (a + b)[0] == a[0] && (a + b)[1..] == a[1..] + b;
      CountsAppend(a[1..], b);
    }
  }

  lemma {:induction false} NothingCounted()
    ensures CountStateful([]) == 0 && CountHidden([]) == 0
  {
  }

  lemma {:induction false} ResolvedAppend(
      sorted: seq<SourceTag>, a: seq<SourceInstr>, b: seq<SourceInstr>, slot: nat, tag: nat, x: seq<Instr>,
      y: seq<Instr>)
    requires AllTagsExist(sorted, a) && AllTagsExist(sorted, b) && Resolved(sorted, a, slot, tag, x)
    requires Resolved(sorted, b, slot + CountStateful(a), tag + CountHidden(a), y)
    ensures AllTagsExist(sorted, a + b) && Resolved(sorted, a + b, slot, tag, x + y)
    decreases |a|
  {
    hide Assemble, LowerStep, TagsExist, CountHidden, CountStateful;
    if a == [] {
      NothingCounted();
      assert a + b == b && x + y == y;
    } else {
      assert (a + b)[0] == a[0] && (a + b)[1..] == a[1..] + b;
      assert (x + y)[0] == x[0] && (x + y)[1..] == x[1..] + y;
      assert a == [a[0]] + a[1..];
      CountsAppend([a[0]], a[1..]);
      ResolvedAppend(sorted, a[1..], b, slot + CountStateful([a[0]]), tag + CountHidden([a[0]]), x[1..], y);
    }
  }

  lemma {:induction false} NumberHead(sorted: seq<SourceTag>, nodes: seq<Node<SourceInstr>>, c: Counters)
    requires nodes != [] && AllTagsExist(sorted, Walk(nodes))
    ensures Walk(nodes) == WalkNode(nodes[0]) + Walk(nodes[1..])
    ensures AllTagsExist(sorted, WalkNode(nodes[0])) && AllTagsExist(sorted, Walk(nodes[1..]))
    ensures After(nodes, c) == After(nodes[1..], AfterNode(nodes[0], c))
    ensures Walk(Number(sorted, nodes, c))
         == WalkNode(NumberNode(sorted, nodes[0], c)) + Walk(Number(sorted, nodes[1..], AfterNode(nodes[0], c)))
  {
    AllTagsParts(sorted, WalkNode(nodes[0]), Walk(nodes[1..]));
    hide WalkNode, NumberNode, AfterNode;
    var all := Number(sorted, nodes, c);
    assert all[0] == NumberNode(sorted, nodes[0], c) && all[1..] == Number(sorted, nodes[1..], AfterNode(nodes[0], c));
  }

  lemma {:induction false} NumberNothing(sorted: seq<SourceTag>, c: Counters)
    ensures AllTagsExist(sorted, Walk([])) && Resolved(sorted, Walk([]), c.slot, c.tag, Walk(Number(sorted, [], c)))
    ensures After([], c) == c && CountStateful(Walk([])) == 0 && CountHidden(Walk([])) == 0
  {
  }

  lemma {:induction false} NumberLanesHead(sorted: seq<SourceTag>, lanes: seq<Lane<SourceInstr>>, c: Counters)
    requires lanes != [] && AllTagsExist(sorted, WalkLanes(lanes))
    ensures WalkLanes(lanes) == Walk(lanes[0].nodes) + WalkLanes(lanes[1..])
    ensures AllTagsExist(sorted, Walk(lanes[0].nodes)) && AllTagsExist(sorted, WalkLanes(lanes[1..]))
    ensures AfterLanes(lanes, c) == AfterLanes(lanes[1..], Bump(After(lanes[0].nodes, Bump(c))))
    ensures AfterLane(lanes[0], c) == Bump(After(lanes[0].nodes, Bump(c)))
    ensures WalkLanes(NumberLanes(sorted, lanes, c))
         == Walk(Number(sorted, lanes[0].nodes, Bump(c)))
           + WalkLanes(NumberLanes(sorted, lanes[1..], AfterLane(lanes[0], c)))
  {
    AllTagsParts(sorted, Walk(lanes[0].nodes), WalkLanes(lanes[1..]));
    hide Walk, Number, After;
    var all := NumberLanes(sorted, lanes, c);
    assert all[0] == NumberLane(sorted, lanes[0], c)
           && all[1..] == NumberLanes(sorted, lanes[1..], AfterLane(lanes[0], c));
  }

  /** The numbered tree, read in order, is the list of its instructions resolved in order. */
  lemma {:induction false} NumberIsResolved(sorted: seq<SourceTag>, nodes: seq<Node<SourceInstr>>, c: Counters)
    requires AllTagsExist(sorted, Walk(nodes))
    ensures Resolved(sorted, Walk(nodes), c.slot, c.tag, Walk(Number(sorted, nodes, c)))
    ensures After(nodes, c).slot == c.slot + CountStateful(Walk(nodes))
            && After(nodes, c).tag == c.tag + CountHidden(Walk(nodes))
    decreases nodes
  {
    hide *;
    if nodes == [] {
      NumberNothing(sorted, c);
    } else {
      NumberHead(sorted, nodes, c);
      var next := AfterNode(nodes[0], c);
      NumberNodeIsResolved(sorted, nodes[0], c);
      NumberIsResolved(sorted, nodes[1..], next);
      CountsAppend(WalkNode(nodes[0]), Walk(nodes[1..]));
      ResolvedAppend(sorted, WalkNode(nodes[0]), Walk(nodes[1..]), c.slot, c.tag,
                     WalkNode(NumberNode(sorted, nodes[0], c)), Walk(Number(sorted, nodes[1..], next)));
    }
  }

  lemma {:induction false} AllTagsParts(sorted: seq<SourceTag>, a: seq<SourceInstr>, b: seq<SourceInstr>)
    requires AllTagsExist(sorted, a + b)
    ensures AllTagsExist(sorted, a) && AllTagsExist(sorted, b)
  {
    assert forall s | s in a :: s in a + b;
    assert forall s | s in b :: s in a + b;
  }

  lemma {:induction false} NumberNodeIsResolved(sorted: seq<SourceTag>, node: Node<SourceInstr>, c: Counters)
    requires AllTagsExist(sorted, WalkNode(node))
    ensures Resolved(sorted, WalkNode(node), c.slot, c.tag, WalkNode(NumberNode(sorted, node, c)))
    ensures AfterNode(node, c).slot == c.slot + CountStateful(WalkNode(node))
            && AfterNode(node, c).tag == c.tag + CountHidden(WalkNode(node))
    decreases node
  {
    match node
    case Step(s) =>
      var steps := [s];
      assert s in steps && steps[1..] == [];
    case Branch(lanes) => NumberLanesAreResolved(sorted, lanes, Bump(c));
  }

  lemma {:induction false} NumberNoLanes(sorted: seq<SourceTag>, c: Counters)
    ensures AllTagsExist(sorted, WalkLanes([]))
            && Resolved(sorted, WalkLanes([]), c.slot, c.tag, WalkLanes(NumberLanes(sorted, [], c)))
    ensures AfterLanes([], c) == c && CountStateful(WalkLanes([])) == 0 && CountHidden(WalkLanes([])) == 0
  {
  }

  lemma {:induction false} NumberLanesAreResolved(sorted: seq<SourceTag>, lanes: seq<Lane<SourceInstr>>, c: Counters)
    requires AllTagsExist(sorted, WalkLanes(lanes))
    ensures Resolved(sorted, WalkLanes(lanes), c.slot, c.tag, WalkLanes(NumberLanes(sorted, lanes, c)))
    ensures AfterLanes(lanes, c).slot == c.slot + CountStateful(WalkLanes(lanes))
            && AfterLanes(lanes, c).tag == c.tag + CountHidden(WalkLanes(lanes))
    decreases lanes
  {
    hide AllTagsExist, Resolved, Walk, WalkLanes, Number, NumberLanes, After, AfterLanes, AfterLane, CountStateful,
         CountHidden;
    if lanes == [] {
      NumberNoLanes(sorted, c);
    } else {
      NumberLanesHead(sorted, lanes, c);
      var next := AfterLane(lanes[0], c);
      NumberIsResolved(sorted, lanes[0].nodes, Bump(c));
      NumberLanesAreResolved(sorted, lanes[1..], next);
      CountsAppend(Walk(lanes[0].nodes), WalkLanes(lanes[1..]));
      ResolvedAppend(sorted, Walk(lanes[0].nodes), WalkLanes(lanes[1..]), c.slot, c.tag,
                     Walk(Number(sorted, lanes[0].nodes, Bump(c))), WalkLanes(NumberLanes(sorted, lanes[1..], next)));
    }
  }

  // ----- what resolution gives -----

  /** Nothing resolved is a bracket or the end marker. */
  lemma {:induction false} ResolvedIsOrdinary(
      sorted: seq<SourceTag>, steps: seq<SourceInstr>, slot: nat, tag: nat, code: seq<Instr>)
    requires AllTagsExist(sorted, steps) && Resolved(sorted, steps, slot, tag, code)
    ensures Ordinary(code)
    decreases |steps|
  {
    hide CountStateful, CountHidden, LowerOperand, TagsExist;
    if steps != [] {
      ResolvedIsOrdinary(sorted, steps[1..], slot + CountStateful([steps[0]]), tag + CountHidden([steps[0]]),
        code[1..]);
      assert code == [code[0]] + code[1..];
      assert !IsControl(Opcode(steps[0].mnemonic)) && Opcode(steps[0].mnemonic) != 0;
    }
  }

  /** Every instruction is accepted exactly when every source instruction is deployable. */
  lemma {:induction false} ResolvedAccepted(
      tags: seq<SourceTag>, directions: Directions, decls: seq<Decl>, steps: seq<SourceInstr>, slot: nat, tag: nat,
      code: seq<Instr>)
    requires DistinctIds(tags) && Declares(SortTags(tags), directions, decls)
    requires AllTagsExist(SortTags(tags), steps) && Resolved(SortTags(tags), steps, slot, tag, code)
    requires |tags| <= tag && tag + CountHidden(steps) <= |decls|
    requires forall s | s in steps :: StepPasses(tags, s)
    ensures (forall i | i in code :: InstrOk(decls, i)) <==> forall s | s in steps :: StepDeploys(directions, s)
    decreases |steps|
  {
    hide InstrOk, StepDeploys, StepPasses, Assemble, LowerStep, Declares, TagsExist, DistinctIds, CountStateful,
         CountHidden;
    if steps != [] {
      var s := steps[0];
      assert s in steps && steps == [s] + steps[1..] && code == [code[0]] + code[1..];
      CountsAppend([s], steps[1..]);
      OneHidden(s);
      StepAcceptedIffDeployable(tags, directions, decls, s, Counters(code[0].id, slot, tag));
      ResolvedAccepted(tags, directions, decls, steps[1..], slot + CountStateful([s]), tag + CountHidden([s]),
        code[1..]);
      assert (forall i | i in code :: InstrOk(decls, i)) <==>
               InstrOk(decls, code[0]) && forall i | i in code[1..] :: InstrOk(decls, i);
    }
  }

  lemma {:induction false} ResolvedHead(
      sorted: seq<SourceTag>, steps: seq<SourceInstr>, slot: nat, tag: nat, code: seq<Instr>)
    requires AllTagsExist(sorted, steps) && steps != [] && Resolved(sorted, steps, slot, tag, code)
    ensures code != [] && Slots(code) == (if Stateful(steps[0].mnemonic) then [slot] else []) + Slots(code[1..])
    ensures CountStateful(steps) == (if Stateful(steps[0].mnemonic) then 1 else 0) + CountStateful(steps[1..])
    ensures AllTagsExist(sorted, steps[1..])
    ensures Resolved(sorted, steps[1..], slot + (if Stateful(steps[0].mnemonic) then 1 else 0),
            tag + CountHidden([steps[0]]), code[1..])
  {
    var s := steps[0];
    assert [s][1..] == [] && s in steps;
    assert CountStateful([s]) == (if Stateful(s.mnemonic) then 1 else 0) + CountStateful([]);
    assert IsStateful(code[0].op) == Stateful(s.mnemonic);
  }

  lemma {:induction false} OneHidden(s: SourceInstr)
    ensures CountHidden([s]) == if NeedsStorage(s) then 1 else 0
  {
    assert [s][1..] == [] && CountHidden([]) == 0;
  }

  /** The slots are numbered one after the other. */
  lemma {:induction false} ResolvedSlots(
      sorted: seq<SourceTag>, steps: seq<SourceInstr>, slot: nat, tag: nat, code: seq<Instr>, last: int)
    requires AllTagsExist(sorted, steps) && Resolved(sorted, steps, slot, tag, code) && last < slot
    ensures Increasing(Slots(code), last) && |Slots(code)| == CountStateful(steps)
    ensures forall k | 0 <= k < |Slots(code)| :: Slots(code)[k] == slot + k
    decreases |steps|
  {
    hide Resolved, Slots, AllTagsExist, CountStateful, CountHidden, Increasing;
    if steps == [] {
      NoSlots(sorted, slot, tag, code, last);
    } else {
      var stateful := Stateful(steps[0].mnemonic);
      ResolvedHead(sorted, steps, slot, tag, code);
      ResolvedSlots(sorted, steps[1..], slot + (if stateful then 1 else 0), tag + CountHidden([steps[0]]), code[1..],
        if stateful then slot else last);
      SlotFirst(slot, Slots(code[1..]), last, stateful);
    }
  }

  lemma {:induction false} NoSlots(sorted: seq<SourceTag>, slot: nat, tag: nat, code: seq<Instr>, last: int)
    requires AllTagsExist(sorted, []) && Resolved(sorted, [], slot, tag, code)
    ensures Slots(code) == [] && Increasing(Slots(code), last) && CountStateful([]) == 0
  {
  }

  /** One more slot in front, if the instruction has one. */
  lemma {:induction false} SlotFirst(slot: nat, rest: seq<int>, last: int, stateful: bool)
    requires last < slot && Increasing(rest, if stateful then slot else last)
    requires forall k | 0 <= k < |rest| :: rest[k] == slot + (if stateful then 1 else 0) + k
    ensures var all := (if stateful then [slot as int] else []) + rest;
            && |all| == |rest| + (if stateful then 1 else 0) && Increasing(all, last)
            && forall k | 0 <= k < |all| :: all[k] == slot + k
  {
    if stateful {
      assert ([slot as int] + rest)[1..] == rest;
    } else {
      assert [] + rest == rest;
    }
  }

  // ----- whole programs -----

  /** How many records each rung has. */
  function RungCounts(table: seq<IRRung>): seq<nat> {
    seq(|table|, k requires 0 <= k < |table| => table[k].count)
  }

  predicate RungsShaped(rungs: seq<Placed>) {
    forall r | r in rungs :: Shaped(r.rung, MAX_DEPTH)
  }

  lemma {:induction false} NumberIsShaped(sorted: seq<SourceTag>, nodes: seq<Node<SourceInstr>>, c: Counters, room: nat)
    requires AllTagsExist(sorted, Walk(nodes))
    ensures Shaped(Number(sorted, nodes, c), room) <==> Shaped(nodes, room)
    decreases nodes
  {
    if nodes != [] {
      AllTagsParts(sorted, WalkNode(nodes[0]), Walk(nodes[1..]));
      NumberNodeIsShaped(sorted, nodes[0], c, room);
      NumberIsShaped(sorted, nodes[1..], AfterNode(nodes[0], c), room);
      assert Number(sorted, nodes, c)[1..] == Number(sorted, nodes[1..], AfterNode(nodes[0], c));
    }
  }

  lemma {:induction false} NumberNodeIsShaped(sorted: seq<SourceTag>, node: Node<SourceInstr>, c: Counters, room: nat)
    requires AllTagsExist(sorted, WalkNode(node))
    ensures ShapedNode(NumberNode(sorted, node, c), room) <==> ShapedNode(node, room)
    decreases node
  {
    if node.Branch? && room > 0 {
      NumberLanesAreShaped(sorted, node.lanes, Bump(c), room - 1);
    }
  }

  lemma {:induction false} NumberLanesAreShaped(
      sorted: seq<SourceTag>, lanes: seq<Lane<SourceInstr>>, c: Counters, room: nat)
    requires AllTagsExist(sorted, WalkLanes(lanes))
    ensures |NumberLanes(sorted, lanes, c)| == |lanes|
    ensures ShapedLanes(NumberLanes(sorted, lanes, c), room) <==> ShapedLanes(lanes, room)
    decreases lanes
  {
    if lanes != [] {
      AllTagsParts(sorted, Walk(lanes[0].nodes), WalkLanes(lanes[1..]));
      NumberIsShaped(sorted, lanes[0].nodes, Bump(c), room);
      NumberLanesAreShaped(sorted, lanes[1..], AfterLane(lanes[0], c), room);
      assert NumberLanes(sorted, lanes, c)[1..] == NumberLanes(sorted, lanes[1..], AfterLane(lanes[0], c));
    }
  }

  /** The stream of one rung. */
  lemma {:induction false} RungCode(sorted: seq<SourceTag>, rung: Rung, c: Counters)
    requires AllTagsExist(sorted, Walk(rung))
    ensures var code := Lowered(sorted, rung, c);
            && |code| == After(rung, c).id - c.id
            && Resolved(sorted, Walk(rung), c.slot, c.tag, Executed(code))
            && Depth(code, 0) == Some(0) && AllBare(code)
            && (Walked(code, []) == if Shaped(rung, MAX_DEPTH) then Some([]) else None)
  {
    var tree := Number(sorted, rung, c);
    LoweredLength(sorted, rung, c);
    NumberIsResolved(sorted, rung, c);
    ResolvedIsOrdinary(sorted, Walk(rung), c.slot, c.tag, Walk(tree));
    FlattenIsTree(tree, c.id, 0);
    TreeIsBalanced(tree, c.id, []);
    NumberIsShaped(sorted, rung, c, MAX_DEPTH);
  }

  lemma {:induction false} RungsHead(sorted: seq<SourceTag>, rungs: seq<Placed>, c: Counters)
    requires rungs != [] && RungTagsExist(sorted, rungs)
    ensures AllTagsExist(sorted, Walk(rungs[0].rung)) && RungTagsExist(sorted, rungs[1..])
    ensures var end := After(rungs[0].rung, c);
            && AllSteps(rungs) == Walk(rungs[0].rung) + AllSteps(rungs[1..])
            && AfterRungs(rungs, c) == AfterRungs(rungs[1..], end)
            && LoweredRungs(sorted, rungs, c)
              == Lowered(sorted, rungs[0].rung, c) + LoweredRungs(sorted, rungs[1..], end)
            && end.id >= c.id
            && RungCounts(RungTable(rungs, c)) == [(end.id - c.id) as nat] + RungCounts(RungTable(rungs[1..], end))
    ensures RungsShaped(rungs) <==> Shaped(rungs[0].rung, MAX_DEPTH) && RungsShaped(rungs[1..])
  {
    RungsUnfold(sorted, rungs, c);
    RungsShapedHead(rungs);
    var end := After(rungs[0].rung, c);
    CountsHead(IRRung(rungs[0].routine, c.id, end.id - c.id), RungTable(rungs[1..], end));
    hide Lowered, After, Shaped, Walk, AllTagsExist, LoweredRungs, RungTable, AfterRungs, RungTagsExist, RungsShaped,
         RungCounts, CountBranchesRungs;
  }

  lemma {:induction false} CountsHead(row: IRRung, rest: seq<IRRung>)
    ensures RungCounts([row] + rest) == [row.count] + RungCounts(rest)
  {
  }

  lemma {:induction false} RungsShapedHead(rungs: seq<Placed>)
    requires rungs != []
    ensures RungsShaped(rungs) <==> Shaped(rungs[0].rung, MAX_DEPTH) && RungsShaped(rungs[1..])
  {
    hide Shaped;
    assert rungs == [rungs[0]] + rungs[1..];
  }

  lemma {:induction false} StretchCloses(first: seq<Instr>, others: seq<Instr>, n: nat, counts: seq<nat>)
    requires |first| == n && Depth(first, 0) == Some(0) && RungsClose(others, counts)
    ensures RungsClose(first + others, [n] + counts)
  {
    hide Depth;
    assert (first + others)[..n] == first && (first + others)[n..] == others;
    assert ([n] + counts)[1..] == counts;
  }

  lemma {:induction false} NoRungsCode(sorted: seq<SourceTag>, c: Counters)
    ensures AllSteps([]) == [] && AllTagsExist(sorted, []) && RungTagsExist(sorted, [])
            && LoweredRungs(sorted, [], c) == []
    ensures Resolved(sorted, [], c.slot, c.tag, Executed([])) && RungsClose([], RungCounts(RungTable([], c)))
            && AllBare([])
    ensures Walked([], []) == Some([]) && RungsShaped([])
    ensures AfterRungs([], c) == c && CountStateful([]) == 0 && CountHidden([]) == 0
  {
  }

  /** The stream of a list of rungs: its instructions in order, its rung table, its brackets. */
  lemma {:induction false} RungsCode(sorted: seq<SourceTag>, rungs: seq<Placed>, c: Counters)
    requires RungTagsExist(sorted, rungs)
    ensures AllTagsExist(sorted, AllSteps(rungs))
    ensures var code := LoweredRungs(sorted, rungs, c);
            && Resolved(sorted, AllSteps(rungs), c.slot, c.tag, Executed(code))
            && RungsClose(code, RungCounts(RungTable(rungs, c))) && AllBare(code)
            && (Walked(code, []) == if RungsShaped(rungs) then Some([]) else None)
    ensures AfterRungs(rungs, c).slot == c.slot + CountStateful(AllSteps(rungs))
            && AfterRungs(rungs, c).tag == c.tag + CountHidden(AllSteps(rungs))
    decreases |rungs|
  {
    hide *;
    if rungs == [] {
      NoRungsCode(sorted, c);
    } else {
      var rung, rest := rungs[0].rung, rungs[1..];
      RungsHead(sorted, rungs, c);
      var end := After(rung, c);
      var first, others := Lowered(sorted, rung, c), LoweredRungs(sorted, rest, end);
      RungCode(sorted, rung, c);
      NumberIsResolved(sorted, rung, c);
      RungsCode(sorted, rest, end);
      RungsStep(sorted, rung, AllSteps(rest), c, first, others);
      StretchCloses(first, others, end.id - c.id, RungCounts(RungTable(rest, end)));
    }
  }

  lemma {:induction false} RungsStep(
      sorted: seq<SourceTag>, rung: Rung, steps: seq<SourceInstr>, c: Counters, first: seq<Instr>, others: seq<Instr>)
    requires AllTagsExist(sorted, Walk(rung)) && AllTagsExist(sorted, steps)
    requires Resolved(sorted, Walk(rung), c.slot, c.tag, Executed(first))
    requires Resolved(sorted, steps, c.slot + CountStateful(Walk(rung)), c.tag + CountHidden(Walk(rung)),
             Executed(others))
    requires AllBare(first) && AllBare(others)
    ensures AllTagsExist(sorted, Walk(rung) + steps)
    ensures Resolved(sorted, Walk(rung) + steps, c.slot, c.tag, Executed(first + others)) && AllBare(first + others)
    ensures Walked(first + others, [])
            == match Walked(first, []) case None => None case Some(stack) => Walked(others, stack)
    ensures CountStateful(Walk(rung) + steps) == CountStateful(Walk(rung)) + CountStateful(steps)
    ensures CountHidden(Walk(rung) + steps) == CountHidden(Walk(rung)) + CountHidden(steps)
  {
    hide *;
    ResolvedAppend(sorted, Walk(rung), steps, c.slot, c.tag, Executed(first), Executed(others));
    ExecutedAppend(first, others);
    AllBareAppend(first, others);
    WalkedAppend(first, others, []);
    CountsAppend(Walk(rung), steps);
  }

  // ----- the main result -----

  lemma {:induction false} PassingSteps(tags: seq<SourceTag>, nodes: seq<Node<SourceInstr>>)
    requires NodesPass(tags, nodes)
    ensures forall s | s in Walk(nodes) :: StepPasses(tags, s)
    decreases nodes
  {
    if nodes != [] {
      assert NodePasses(tags, nodes[0]);
      if nodes[0].Branch? {
        PassingLanes(tags, nodes[0].lanes);
      }
      assert NodesPass(tags, nodes[1..]) by {
        assert forall k | 0 <= k < |nodes[1..]| :: nodes[1..][k] == nodes[k + 1];
      }
      PassingSteps(tags, nodes[1..]);
    }
  }

  lemma {:induction false} PassingLanes(tags: seq<SourceTag>, lanes: seq<Lane<SourceInstr>>)
    requires forall k | 0 <= k < |lanes| :: NodesPass(tags, lanes[k].nodes)
    ensures forall s | s in WalkLanes(lanes) :: StepPasses(tags, s)
    decreases lanes
  {
    if lanes != [] {
      PassingSteps(tags, lanes[0].nodes);
      PassingLanes(tags, lanes[1..]);
    }
  }

  lemma {:induction false} PassingTags(tags: seq<SourceTag>, steps: seq<SourceInstr>)
    requires DistinctIds(tags) && forall s | s in steps :: StepPasses(tags, s)
    ensures AllTagsExist(SortTags(tags), steps)
  {
    forall s, o | s in steps && o in s.operands && o.TagRef?
      ensures HasTag(SortTags(tags), o.tagId)
    {
      var k :| 0 <= k < |s.operands| && s.operands[k] == o;
      assert OperandPasses(tags, o, Rules(s.mnemonic)[k]);
      FindInSorted(tags, o.tagId);
    }
  }

  predicate RungsPass(tags: seq<SourceTag>, rungs: seq<Placed>) {
    forall r | r in rungs :: RungPasses(tags, r.rung)
  }

  lemma {:induction false} AdmissibleRungs(c: Controller, routines: seq<seq<Rung>>, first: nat)
    requires forall r, k | 0 <= r < |routines| && 0 <= k < |routines[r]| :: RungPasses(c.tags, routines[r][k])
    ensures RungsPass(c.tags, AllRungs(routines, first))
    decreases |routines|
  {
    if routines != [] {
      assert forall r, k | 0 <= r < |routines[1..]|
             && 0 <= k < |routines[1..][r]| :: routines[1..][r][k] == routines[r + 1][k];
      AdmissibleRungs(c, routines[1..], first + 1);
    }
  }

  /** A project the gate admits can be lowered: every tag it names exists. */
  lemma {:induction false} AdmissibleLowers(c: Controller)
    requires Admissible(c)
    ensures RungTagsExist(SortTags(c.tags), AllRungs(c.routines, 0))
    ensures forall r | r in AllRungs(c.routines, 0) ::
              r.rung != [] && forall s | s in Walk(r.rung) :: StepPasses(c.tags, s)
  {
    AdmissibleRungs(c, c.routines, 0);
    forall r | r in AllRungs(c.routines, 0)
      ensures AllTagsExist(SortTags(c.tags), Walk(r.rung)) && r.rung != []
              && forall s | s in Walk(r.rung) :: StepPasses(c.tags, s)
    {
      PassingSteps(c.tags, r.rung);
      PassingTags(c.tags, Walk(r.rung));
    }
  }

  function Decls(tags: seq<IRTag>): seq<Decl> {
    seq(|tags|, k requires 0 <= k < |tags| => Decl(DataTypeCode(tags[k].dataType), StorageCode(tags[k].storage)))
  }

  /** The program the runtime loads. */
  function Loads(ir: IRProgram): Program {
    Program(Decls(ir.tags), AssembleAll(ir.instructions), RungCounts(ir.rungs))
  }

  /** The conditions of the runtime beyond the compiler's gate: see OperandDeploys for operands;
   *  branches nest at most 32 deep and the number of their lanes is not a multiple of 256. */
  predicate Deployable(c: Controller, directions: Directions) {
    var rungs := AllRungs(c.routines, 0);
    && (forall r, s | r in rungs && s in Walk(r.rung) :: StepDeploys(directions, s))
    && RungsShaped(rungs)
  }

  lemma {:induction false} AllStepsMembers(rungs: seq<Placed>, s: SourceInstr)
    ensures s in AllSteps(rungs) <==> exists r | r in rungs :: s in Walk(r.rung)
    decreases |rungs|
  {
    if rungs != [] {
      AllStepsMembers(rungs[1..], s);
      assert rungs == [rungs[0]] + rungs[1..];
      if s in AllSteps(rungs) {
        if s in Walk(rungs[0].rung) {
          assert rungs[0] in rungs;
        } else {
          var r :| r in rungs[1..] && s in Walk(r.rung);
          assert r in rungs;
        }
      }
    }
  }

  lemma {:induction false} IrDeclares(sorted: seq<SourceTag>, directions: Directions, tags: seq<IRTag>)
    requires AddsHidden(DeclareTags(sorted, directions), tags)
    ensures Declares(sorted, directions, Decls(tags))
  {
    forall k | 0 <= k < |sorted|
      ensures Decls(tags)[k] == Decl(DataTypeCode(sorted[k].dataType),
              StorageCode(Direction(directions, sorted[k].tagId)))
    {
      assert tags[k] == DeclareTag(sorted[k], directions);
    }
  }

  lemma {:induction false} TableCounts(rungs: seq<Placed>, c: Counters)
    requires forall r | r in rungs :: r.rung != []
    ensures forall n | n in RungCounts(RungTable(rungs, c)) :: n > 0
    decreases |rungs|
  {
    if rungs != [] {
      var end := After(rungs[0].rung, c);
      assert rungs[0] in rungs;
      AfterGrows(rungs[0].rung, c);
      TableCounts(rungs[1..], end);
      var counts := RungCounts(RungTable(rungs, c));
      assert counts == [end.id - c.id] + RungCounts(RungTable(rungs[1..], end));
    }
  }

  lemma {:induction false} TableLength(rungs: seq<Placed>, c: Counters)
    ensures |RungTable(rungs, c)| == |rungs|
    decreases |rungs|
  {
    if rungs != [] {
      TableLength(rungs[1..], After(rungs[0].rung, c));
    }
  }

  /** Compiled code is accepted by the runtime's validator exactly when the project meets the
   *  runtime's further conditions. */
  lemma {:induction false} CompiledAcceptedIffDeployable(c: Controller, directions: Directions, ir: IRProgram)
    requires Admissible(c) && LowersTo(c, directions, ir)
    ensures ProgramOk(Loads(ir)) <==> Deployable(c, directions)
  {
    hide Resolved, Walked, AllSteps, AfterRungs, RungTable, RungCounts, LoweredRungs, RungsClose, RungsShaped,
         InstrOk, Slots,
         Executed, Increasing, Admissible, SortTags, AllRungs, AssembleAll, StepDeploys, StepPasses, AllBare, Depth,
         CountHidden, CountStateful, AllTagsExist, DeclOk, Ascending, CountBranchesRungs, Walk;
    var sorted, rungs := SortTags(c.tags), AllRungs(c.routines, 0);
    var start := Counters(0, 0, |sorted|);
    var p, steps := Loads(ir), AllSteps(rungs);
    AdmissibleLowers(c);
    RungsCode(sorted, rungs, start);
    IrDeclares(sorted, directions, ir.tags);
    TableCounts(rungs, start);
    SortSorts(c.tags);
    assert |sorted| == |multiset(sorted)| == |multiset(c.tags)| == |c.tags|;
    CodeAccepted(c, directions, p.decls, rungs, p.code);
    DeclsOk(ir.tags);
  }

  lemma {:induction false} DeclsOk(tags: seq<IRTag>)
    ensures forall d | d in Decls(tags) :: DeclOk(d)
  {
  }

  lemma {:induction false} CodeAccepted(
      c: Controller, directions: Directions, decls: seq<Decl>, rungs: seq<Placed>, code: seq<Instr>)
    requires Admissible(c) && rungs == AllRungs(c.routines, 0)
    requires Declares(SortTags(c.tags), directions, decls)
    requires AllTagsExist(SortTags(c.tags), AllSteps(rungs))
    requires Resolved(SortTags(c.tags), AllSteps(rungs), 0, |c.tags|, Executed(code))
    requires |c.tags| + CountHidden(AllSteps(rungs)) <= |decls| && AllBare(code)
    requires forall r | r in rungs :: forall s | s in Walk(r.rung) :: StepPasses(c.tags, s)
    ensures (forall i | i in code :: InstrOk(decls, i)) <==> forall r, s | r in rungs
            && s in Walk(r.rung) :: StepDeploys(directions, s)
    ensures Increasing(Slots(code), -1)
  {
    var sorted, steps := SortTags(c.tags), AllSteps(rungs);
    hide InstrOk, StepDeploys, StepPasses, Resolved, Declares;
    forall s
      ensures s in steps <==> exists r | r in rungs :: s in Walk(r.rung)
    {
      AllStepsMembers(rungs, s);
    }
    ResolvedAccepted(c.tags, directions, decls, steps, 0, |c.tags|, Executed(code));
    AllInExecuted(code, decls);
    SlotsOfExecuted(code);
    ResolvedSlots(sorted, steps, 0, |c.tags|, Executed(code), -1);
  }
}
