/** The compiler's admission gate, as far as it concerns the code of the selected controller. */
module Validation {
  import opened Bytes
  import opened LadderTree
  import opened Source
  import opened Lowering

  // ----- the operand rules of the instruction registry -----

  datatype Rule = Rule(types: set<DataType>, literal: bool, writable: bool)

  const NUMERIC := Rule({DINT, REAL}, true, false)
  const NUMERIC_DESTINATION := Rule({DINT, REAL}, false, true)

  /** One rule per operand. The registry entry of ONS has types but lacks the other keys the gate
   *  reads, so the gate raises where it needs them. */
  function Rules(m: Mnemonic): seq<Rule> {
    match m
    case XIC => [Rule({BOOL}, true, false)]
    case XIO => [Rule({BOOL}, true, false)]
    case OTE => [Rule({BOOL}, false, true)]
    case OTL => [Rule({BOOL}, false, true)]
    case OTU => [Rule({BOOL}, false, true)]
    case ONS => [Rule({BOOL}, false, true)]
    case TON => [Rule({TIMER}, false, true)]
    case CTU => [Rule({COUNTER}, false, true)]
    case CTD => [Rule({COUNTER}, false, true)]
    case RES => [Rule({TIMER, COUNTER}, false, true)]
    case EQ => [NUMERIC, NUMERIC]
    case NE => [NUMERIC, NUMERIC]
    case GT => [NUMERIC, NUMERIC]
    case GE => [NUMERIC, NUMERIC]
    case LT => [NUMERIC, NUMERIC]
    case LE => [NUMERIC, NUMERIC]
    case MOV => [NUMERIC, NUMERIC_DESTINATION]
    case CLR => [Rule({BOOL, DINT, REAL}, false, true)]
    case ADD => [NUMERIC, NUMERIC, NUMERIC_DESTINATION]
    case SUB => [NUMERIC, NUMERIC, NUMERIC_DESTINATION]
    case MUL => [NUMERIC, NUMERIC, NUMERIC_DESTINATION]
    case DIV => [NUMERIC, NUMERIC, NUMERIC_DESTINATION]
    case NEG => [NUMERIC, NUMERIC_DESTINATION]
    case ABS => [NUMERIC, NUMERIC_DESTINATION]
  }

  /** The members of a type, and those its instructions own. */
  predicate HasMember(t: DataType, m: Member) {
    match t
    case TIMER => m in {PRE, ACC, EN, TT, DN}
    case COUNTER => m in {PRE, ACC, CU, CD, DN, OV, UN}
    case _ => false
  }

  predicate Owned(t: DataType, m: Member) {
    HasMember(t, m) && m != PRE
  }

  datatype Code = E102 | E103 | E104 | E105 | E106 | E107 | E108 | E109 | E114 | E116 | E117 | E122

  /** The tag with an identity: of several the last, as the dictionary of the gate keeps it. */
  function Find(tags: seq<SourceTag>, tagId: nat): Option<SourceTag> {
    if tags == [] then None
    else
      var n := |tags| - 1;
      if tags[n].tagId == tagId then Some(tags[n]) else Find(tags[..n], tagId)
  }

  // ----- what passes the gate -----

  predicate OperandPasses(tags: seq<SourceTag>, o: SourceOperand, rule: Rule) {
    match o
    case TagRef(tagId, member) =>
      (match Find(tags, tagId)
       case None => false
       case Some(t) =>
         && (member.Some? ==> HasMember(t.dataType, member.value))
         && (match member case None => t.dataType case Some(m) => MemberDataType(m)) in rule.types
         && (rule.writable ==> t.writable && (member.Some? ==> !Owned(t.dataType, member.value))))
    case LiteralOf(l) =>
      rule.literal && (l.DintLit? ==> INT32_MIN <= l.v <= INT32_MAX)
  }

  predicate StepPasses(tags: seq<SourceTag>, s: SourceInstr) {
    if NeedsStorage(s) then true
    else
      && s.mnemonic != ONS
      && |s.operands| == |Rules(s.mnemonic)|
      && forall k | 0 <= k < |s.operands| :: OperandPasses(tags, s.operands[k], Rules(s.mnemonic)[k])
  }

  predicate NodesPass(tags: seq<SourceTag>, nodes: seq<Node<SourceInstr>>)
    decreases nodes
  {
    forall k | 0 <= k < |nodes| :: NodePasses(tags, nodes[k])
  }

  predicate NodePasses(tags: seq<SourceTag>, node: Node<SourceInstr>)
    decreases node
  {
    match node
    case Step(s) => StepPasses(tags, s)
    case Branch(lanes) =>
      |lanes| >= 2 && forall k | 0 <= k < |lanes| :: lanes[k].nodes != [] && NodesPass(tags, lanes[k].nodes)
  }

  function PowerOfTwo(n: nat): nat {
    if n == 0 then 1 else 2 * PowerOfTwo(n - 1)
  }

  /** From here on an integer does not round to a double: half way between the largest double and
   *  2 ** 1024. */
  const DOUBLE_LIMIT := PowerOfTwo(1024) - PowerOfTwo(970)

  /** `math.isfinite` raises on an integer beyond the doubles. */
  predicate TagRaises(t: SourceTag) {
    && t.dataType == REAL && t.initial.Some? && t.initial.value.DintLit?
    && !(-DOUBLE_LIMIT < t.initial.value.v < DOUBLE_LIMIT)
  }

  predicate TagPasses(t: SourceTag) {
    match t.dataType
    case BOOL => t.initial.Some? ==> t.initial.value.BoolLit?
    case DINT => t.initial.Some? ==> t.initial.value.DintLit? && INT32_MIN <= t.initial.value.v <= INT32_MAX
    case REAL => t.initial.Some? ==> !t.initial.value.BoolLit? && !TagRaises(t)
    case _ =>
      if t.preset.Some? then 0 <= t.preset.value <= INT32_MAX
      else t.initial.Some? && t.initial.value.DintLit? && 0 <= t.initial.value.v <= INT32_MAX
  }

  predicate RungPasses(tags: seq<SourceTag>, rung: Rung) {
    rung != [] && NodesPass(tags, rung)
  }

  /** The controller passes the gate. */
  predicate Admissible(c: Controller) {
    && DistinctIds(c.tags)
    && (forall t | t in c.tags :: TagPasses(t))
    && forall r, k | 0 <= r < |c.routines| && 0 <= k < |c.routines[r]| :: RungPasses(c.tags, c.routines[r][k])
  }

  // ----- what makes the gate raise -----

  /** The gate gets as far as the keys of the rule: the operand is a literal, or names a tag that
   *  exists and a member that it has, if any. */
  predicate Resolves(tags: seq<SourceTag>, o: SourceOperand) {
    match o
    case LiteralOf(_) => true
    case TagRef(tagId, member) =>
      match Find(tags, tagId)
      case None => false
      case Some(t) => member.Some? ==> HasMember(t.dataType, member.value)
  }

  /** An ONS with one operand, which resolves: its rule lacks the keys. */
  predicate StepRaises(tags: seq<SourceTag>, s: SourceInstr) {
    s.mnemonic == ONS && |s.operands| == 1 && Resolves(tags, s.operands[0])
  }

  predicate NodesRaise(tags: seq<SourceTag>, nodes: seq<Node<SourceInstr>>)
    decreases nodes
  {
    exists k | 0 <= k < |nodes| :: NodeRaises(tags, nodes[k])
  }

  predicate NodeRaises(tags: seq<SourceTag>, node: Node<SourceInstr>)
    decreases node
  {
    match node
    case Step(s) => StepRaises(tags, s)
    case Branch(lanes) => exists k | 0 <= k < |lanes| :: NodesRaise(tags, lanes[k].nodes)
  }

  predicate RungsRaise(tags: seq<SourceTag>, routines: seq<seq<Rung>>) {
    exists r, k | 0 <= r < |routines| && 0 <= k < |routines[r]| :: NodesRaise(tags, routines[r][k])
  }

  /** The gate raises on the controller instead of answering. */
  predicate GateRaises(c: Controller) {
    (exists t | t in c.tags :: TagRaises(t)) || RungsRaise(c.tags, c.routines)
  }

  // ----- the gate itself -----

  /** `validate_compile_project`: the diagnostics of one controller. raised is the exception that
   *  aborts the gate: see GateRaises. */
  class Gate {
    const tags: seq<SourceTag>
    var diagnostics: seq<Code>
    var raised: bool

    constructor (tags: seq<SourceTag>)
      ensures this.tags == tags && diagnostics == [] && !raised
    {
      this.tags := tags;
      diagnostics, raised := [], false;
    }

    /** Nothing has been reported. */
    predicate Clean()
      reads this
    {
      diagnostics == [] && !raised
    }

    method Add(code: Code)
      modifies this`diagnostics
      ensures diagnostics == old(diagnostics) + [code]
    {
      diagnostics := diagnostics + [code];
    }

    method CheckOperand(o: SourceOperand, rule: Rule, gap: bool)
      requires !raised
      modifies this
      ensures Clean() <==> old(Clean()) && !gap && OperandPasses(tags, o, rule)
      ensures raised <==> gap && Resolves(tags, o)
    {
      match o
      case TagRef(tagId, member) =>
        var found := Find(tags, tagId);
        if found.None? {
          Add(E103);
          return;
        }
        var t := found.value;
        var typ := t.dataType;
        if member.Some? {
          if !HasMember(t.dataType, member.value) {
            Add(E104);
            return;
          }
          typ := MemberDataType(member.value);
        }
        if typ !in rule.types {
          Add(E105);
        }
        if gap {
          raised := true;
          return;
        }
        if rule.writable && (!t.writable || (member.Some? && Owned(t.dataType, member.value))) {
          Add(E106);
        }
      case LiteralOf(l) =>
        if gap {
          raised := true;
          return;
        }
        if !rule.literal {
          Add(E105);
        }
        if l.DintLit? && !(INT32_MIN <= l.v <= INT32_MAX) {
          Add(E116);
        }
    }

    method CheckStep(s: SourceInstr)
      requires !raised
      modifies this
      ensures Clean() <==> old(Clean()) && StepPasses(tags, s)
      ensures raised <==> StepRaises(tags, s)
    {
      var rules := Rules(s.mnemonic);
      if |s.operands| != |rules| {
        if !NeedsStorage(s) {
          Add(E102);
        }
        return;
      }
      ghost var start := Clean();
      var k := 0;
      while k < |rules|
        invariant 0 <= k <= |rules| && !raised
        invariant k > 0 && s.mnemonic == ONS ==> !Resolves(tags, s.operands[0])
        invariant Clean() <==>
                    && start
                    && (k > 0 ==> s.mnemonic != ONS)
                    && forall j | 0 <= j < k :: OperandPasses(tags, s.operands[j], rules[j])
      {
        CheckOperand(s.operands[k], rules[k], s.mnemonic == ONS);
        if raised {
          return;
        }
        k := k + 1;
      }
    }

    method CheckNodes(nodes: seq<Node<SourceInstr>>)
      requires !raised
      modifies this
      ensures Clean() <==> old(Clean()) && NodesPass(tags, nodes)
      ensures raised <==> NodesRaise(tags, nodes)
      decreases nodes
    {
      ghost var start := Clean();
      var k := 0;
      while k < |nodes|
        invariant 0 <= k <= |nodes| && !raised && forall j | 0 <= j < k :: !NodeRaises(tags, nodes[j])
        invariant Clean() <==> start && forall j | 0 <= j < k :: NodePasses(tags, nodes[j])
      {
        match nodes[k] {
          case Step(s) => CheckStep(s);
          case Branch(lanes) => CheckBranch(nodes[k], lanes);
        }
        if raised {
          return;
        }
        k := k + 1;
      }
    }

    method CheckBranch(ghost node: Node<SourceInstr>, lanes: seq<Lane<SourceInstr>>)
      requires !raised && node == Branch(lanes)
      modifies this
      ensures Clean() <==> old(Clean()) && NodePasses(tags, node)
      ensures raised <==> NodeRaises(tags, node)
      decreases node
    {
      ghost var start := Clean();
      if |lanes| < 2 {
        Add(E108);
      }
      var k := 0;
      while k < |lanes|
        invariant 0 <= k <= |lanes| && !raised && forall j | 0 <= j < k :: !NodesRaise(tags, lanes[j].nodes)
        invariant Clean() <==> start && |lanes| >= 2 && forall j | 0 <= j < k ::
                    lanes[j].nodes != [] && NodesPass(tags, lanes[j].nodes)
      {
        if lanes[k].nodes == [] {
          Add(E109);
        }
        CheckNodes(lanes[k].nodes);
        if raised {
          return;
        }
        k := k + 1;
      }
    }

    method CheckTags()
      requires Clean()
      modifies this
      ensures Clean() <==> DistinctIds(tags) && forall t | t in tags :: TagPasses(t)
      ensures raised <==> exists t | t in tags :: TagRaises(t)
    {
      var seen: set<nat> := {};
      var k := 0;
      while k < |tags|
        invariant 0 <= k <= |tags| && !raised && forall j | 0 <= j < k :: !TagRaises(tags[j])
        invariant seen == set j | 0 <= j < k :: tags[j].tagId
        invariant Clean() <==> DistinctIds(tags[..k]) && forall j | 0 <= j < k :: TagPasses(tags[j])
      {
        ghost var clean := Clean();
        var t := tags[k];
        DistinctSnoc(tags, k);
        if t.tagId in seen {
          Add(E122);
        }
        if TagRaises(t) {
          assert t in tags && !TagPasses(t);
          raised := true;
          return;
        }
        if !TagPasses(t) {
          Add(match t.dataType
              case BOOL => E114
              case DINT => if t.initial.value.DintLit? then E116 else E114
              case REAL => E114
              case _ => E117);
        }
        seen := seen + {t.tagId};
        k := k + 1;
      }
      assert tags[..k] == tags;
    }

    method CheckRungs(routines: seq<seq<Rung>>)
      requires !raised
      modifies this
      ensures Clean() <==> old(Clean()) && forall r, k | 0 <= r < |routines|
              && 0 <= k < |routines[r]| :: RungPasses(tags, routines[r][k])
      ensures raised <==> RungsRaise(tags, routines)
    {
      ghost var start := Clean();
      var r := 0;
      while r < |routines|
        invariant 0 <= r <= |routines| && !raised
        invariant forall q, k | 0 <= q < r && 0 <= k < |routines[q]| :: !NodesRaise(tags, routines[q][k])
        invariant Clean() <==> start && forall q, k | 0 <= q < r
                  && 0 <= k < |routines[q]| :: RungPasses(tags, routines[q][k])
      {
        ghost var before := Clean();
        var k := 0;
        while k < |routines[r]|
          invariant 0 <= k <= |routines[r]| && !raised
          invariant forall j | 0 <= j < k :: !NodesRaise(tags, routines[r][j])
          invariant Clean() <==> before && forall j | 0 <= j < k :: RungPasses(tags, routines[r][j])
        {
          if routines[r][k] == [] {
            Add(E107);
          }
          CheckNodes(routines[r][k]);
          if raised {
            assert !RungPasses(tags, routines[r][k]) || !before
                   || exists j | 0 <= j < k :: !RungPasses(tags, routines[r][j]);
            return;
          }
          k := k + 1;
        }
        r := r + 1;
      }
    }
  }

  lemma {:induction false} DistinctSnoc(tags: seq<SourceTag>, k: nat)
    requires k < |tags|
    ensures DistinctIds(tags[..k + 1]) <==>
              DistinctIds(tags[..k]) && forall j | 0 <= j < k :: tags[j].tagId != tags[k].tagId
  {
    if DistinctIds(tags[..k + 1]) {
      forall j | 0 <= j < k
        ensures tags[j].tagId != tags[k].tagId
      {
        assert tags[..k + 1][j].tagId != tags[..k + 1][k].tagId;
      }
      forall i, j | 0 <= i < j < k
        ensures tags[..k][i].tagId != tags[..k][j].tagId
      {
        assert tags[..k + 1][i].tagId != tags[..k + 1][j].tagId;
      }
    }
  }

  /** The gate passes a controller exactly when it is admissible, and raises exactly where GateRaises
   *  says. */
  method Validate(c: Controller) returns (raised: bool, diagnostics: seq<Code>)
    ensures !raised && diagnostics == [] <==> Admissible(c)
    ensures raised <==> GateRaises(c)
  {
    var gate: Gate := new Gate(c.tags);
    gate.CheckTags();
    if !gate.raised {
      gate.CheckRungs(c.routines);
    }
    return gate.raised, gate.diagnostics;
  }

  /** The form the registry documents: a one-shot with a BOOL tag as its storage makes the gate
   *  raise, and so does a literal in its place. */
  lemma {:induction false} DocumentedOneShotRaises(retentive: bool, l: Literal)
    ensures var storage := SourceTag(0, BOOL, None, None, true, retentive);
            && GateRaises(Controller([storage], [[[Step(SourceInstr(ONS, [TagRef(0, None)]))]]]))
            && GateRaises(Controller([], [[[Step(SourceInstr(ONS, [LiteralOf(l)]))]]]))
  {
    var storage := SourceTag(0, BOOL, None, None, true, retentive);
    OneStepRaises([storage], SourceInstr(ONS, [TagRef(0, None)]));
    OneStepRaises([], SourceInstr(ONS, [LiteralOf(l)]));
  }

  lemma {:induction false} OneStepRaises(tags: seq<SourceTag>, s: SourceInstr)
    requires StepRaises(tags, s)
    ensures GateRaises(Controller(tags, [[[Step(s)]]]))
  {
    var routines := [[[Step(s)]]];
    assert NodeRaises(tags, routines[0][0][0]);
    assert NodesRaise(tags, routines[0][0]);
  }
}
