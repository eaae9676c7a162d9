/** One instruction: the record the compiler emits does to the store what the instruction means in the
 *  project. */
module LadderSteps {
  import opened Bytes
  import opened Instructions
  import opened ControlFlow
  import opened Semantics
  import opened Source
  import opened Lowering
  import opened Validation
  import opened Compiled
  import opened InstructionLaws
  import opened LadderState
  import LM = LadderMeaning

  // ----- the statement -----

  /** The fault the runtime records for a problem. */
  predicate Reports(f: FaultRecord, why: LM.Problem) {
    match why
    case Overflow => f.category == Category.NUMERIC && f.code == 3
    case ZeroDivisor => f.category == Category.NUMERIC && f.code == 2
    case NoConversion => f.category == Category.NUMERIC && f.code == 1
    case NegativePreset => f.category == Category.TIMER && f.code == 3
    case MixedTypes => f.category == EXECUTION && (f.code == 14 || f.code == 17)
    case Malformed => false
  }

  /** The effect on the store is the turn of the world. */
  predicate Corresponds(sorted: seq<SourceTag>, directions: Directions, e: Effect<Store, FaultRecord>, turn: LM.Turn) {
    match turn
    case Went(w, power) => e.Passed? && e.power == power && Represents(sorted, directions, e.st, w)
    case Stopped(w, why) => e.Failed? && Reports(e.fault, why) && Represents(sorted, directions, e.st, w)
  }

  /** The store holds the world of the project. */
  predicate Holds(tags: seq<SourceTag>, directions: Directions, st: Store, w: LM.World) {
    DistinctIds(tags) && Represents(SortTags(tags), directions, st, w)
  }

  /** The record is that of an admitted, deployable instruction that can be built. */
  predicate Emitted(tags: seq<SourceTag>, directions: Directions, s: SourceInstr, i: Instr, slot: nat) {
    && s.mnemonic != ONS && |i.args| == |s.operands| == |Rules(s.mnemonic)| && i.op == Opcode(s.mnemonic)
    && (Stateful(s.mnemonic) ==> i.slot == slot)
    && forall k | 0 <= k < |s.operands| :: EmittedOperand(tags, directions, s.mnemonic, s.operands[k],
      Rules(s.mnemonic)[k], i.args[k])
  }

  predicate EmittedOperand(
      tags: seq<SourceTag>, directions: Directions, m: Mnemonic, o: SourceOperand, rule: Rule, a: Operand) {
    && OperandPasses(tags, o, rule) && OperandDeploys(directions, m, o, rule) && o != LiteralOf(WideReal)
    && (o.TagRef? ==> HasTag(SortTags(tags), o.tagId)) && a == Seen(tags, o)
  }

  /** The visible records drive a tag with the slots of the instructions in sight that drive it. */
  ghost predicate SameSight(tags: seq<SourceTag>, insight: seq<SourceInstr>, visible: seq<Instr>) {
    forall id, k: nat | HasTag(SortTags(tags), id) ::
      SlotOf(visible, IndexOf(SortTags(tags), id), k) <==> LM.DrivenBy(insight, 0, id, k)
  }

  lemma {:induction false} StepRecord(tags: seq<SourceTag>, directions: Directions, s: SourceInstr, c: Counters)
    requires DistinctIds(tags) && StepPasses(tags, s) && !NeedsStorage(s)
    requires StepDeploys(directions, s) && LiteralOf(WideReal) !in s.operands
    ensures TagsExist(SortTags(tags), s)
    ensures Emitted(tags, directions, s, Assemble(LowerStep(SortTags(tags), s, c)), c.slot)
  {
    hide SortTags, DistinctIds, OperandPasses, LowerOperand, AssembleOperand, Rules, OperandDeploys;
    forall k | 0 <= k < |s.operands| && s.operands[k].TagRef?
      ensures HasTag(SortTags(tags), s.operands[k].tagId)
    {
      PassingType(tags, s.operands[k], Rules(s.mnemonic)[k]);
      FindInSorted(tags, s.operands[k].tagId);
    }
  }

  /** An operand that is read: a value the gate expects. */
  lemma {:induction false} Operands(
      tags: seq<SourceTag>, directions: Directions, st: Store, w: LM.World, m: Mnemonic, o: SourceOperand, rule: Rule,
      a: Operand)
      returns (v: Value)
    requires Holds(tags, directions, st, w) && EmittedOperand(tags, directions, m, o, rule, a)
    requires rule.types == {BOOL} || rule.types == {DINT, REAL}
    ensures LM.Reading(w, o) == Some(v) && Denotes(st, a, v)
    ensures o.TagRef? ==> (rule.types == {BOOL} <==> v.BoolV?)
    ensures o.LiteralOf? ==> (o.lit.BoolLit? <==> v.BoolV?)
  {
    hide Represents, DistinctIds, SortTags, OperandPasses, Denotes;
    OperandReadsAs(tags, directions, st, w, o, rule);
    v := LM.Reading(w, o).value;
    OperandDenotes(tags, directions, st, w, o, rule, v);
  }

  /** The destination of an instruction. */
  ghost predicate Target(tags: seq<SourceTag>, st: Store, w: LM.World, o: SourceOperand, a: Operand, n: nat) {
    && o.TagRef? && o.member.None? && LM.Named(w, o) == Some(o.tagId)
    && n < |SortTags(tags)| && SortTags(tags)[n].tagId == o.tagId && n < |st.tags|
    && a.kind == 1 && a.raw == n && w.data[o.tagId] == st.tags[n].data
    && forall v: Value | ValueCode(v) == TypeCode(st.tags[n].data) :: Destination(st, a, v)
  }

  lemma {:induction false} Targets(
      tags: seq<SourceTag>, directions: Directions, st: Store, w: LM.World, m: Mnemonic, o: SourceOperand, rule: Rule,
      a: Operand)
      returns (n: nat)
    requires Holds(tags, directions, st, w) && EmittedOperand(tags, directions, m, o, rule, a)
    requires rule.writable && !HasStateTag(m)
    ensures Target(tags, st, w, o, a, n)
    ensures rule.types == {BOOL} ==> st.tags[n].data.BoolD?
    ensures rule.types == {DINT, REAL} ==> st.tags[n].data.DintD? || st.tags[n].data.RealD?
    ensures rule.types == {BOOL, DINT, REAL} ==>
              st.tags[n].data.BoolD? || st.tags[n].data.DintD? || st.tags[n].data.RealD?
  {
    n := IndexOf(SortTags(tags), o.tagId);
    PlainDestination(tags, directions, st, w, m, o, rule);
    hide Represents, DistinctIds, SortTags, OperandPasses;
  }

  // ----- bits -----

  lemma {:induction false} ContactMeans(
      tags: seq<SourceTag>, directions: Directions, ctx: Context, st: Store, w: LM.World, s: SourceInstr, i: Instr,
      slot: nat, power: bool)
    requires Holds(tags, directions, st, w) && Emitted(tags, directions, s, i, slot)
             && (s.mnemonic == XIC || s.mnemonic == XIO)
    ensures |s.operands| == 1
    ensures Corresponds(SortTags(tags), directions, Execute(ctx, i, st, power),
                        LM.Contact(w, s.operands[0], power, s.mnemonic == XIC))
  {
    assert Rules(s.mnemonic)[0] == Rule({BOOL}, true, false);
    assert EmittedOperand(tags, directions, s.mnemonic, s.operands[0], Rules(s.mnemonic)[0], i.args[0]);
    hide Represents, DistinctIds, SortTags, OperandPasses, Execute, Denotes;
    var v := Operands(tags, directions, st, w, s.mnemonic, s.operands[0], Rules(s.mnemonic)[0], i.args[0]);
    Contacts(ctx, i, st, power, v.b);
  }

  lemma {:induction false} CoilMeans(
      tags: seq<SourceTag>, directions: Directions, ctx: Context, st: Store, w: LM.World, s: SourceInstr, i: Instr,
      slot: nat, power: bool)
    requires Holds(tags, directions, st, w) && Emitted(tags, directions, s, i, slot)
    requires s.mnemonic == OTE || s.mnemonic == OTL || s.mnemonic == OTU
    ensures |s.operands| == 1
    ensures var e, o := Execute(ctx, i, st, power), s.operands[0];
            && (s.mnemonic == OTE ==> Corresponds(SortTags(tags), directions, e, LM.Coil(w, o, power, true, power)))
            && (s.mnemonic == OTL ==> Corresponds(SortTags(tags), directions, e, LM.Coil(w, o, power, power, true)))
            && (s.mnemonic == OTU ==> Corresponds(SortTags(tags), directions, e, LM.Coil(w, o, power, power, false)))
  {
    var o, sorted, e := s.operands[0], SortTags(tags), Execute(ctx, i, st, power);
    assert Rules(s.mnemonic)[0] == Rule({BOOL}, false, true);
    assert EmittedOperand(tags, directions, s.mnemonic, o, Rules(s.mnemonic)[0], i.args[0]);
    hide Represents, DistinctIds, SortTags, OperandPasses, Execute, Destination, Assigns, LM.Assigned;
    var n := Targets(tags, directions, st, w, s.mnemonic, o, Rules(s.mnemonic)[0], i.args[0]);
    Coils(ctx, i, st, power);
    if s.mnemonic == OTE {
      ValueStored(sorted, directions, st, w, e, n, BoolV(power), power);
    } else if power {
      ValueStored(sorted, directions, st, w, e, n, BoolV(s.mnemonic == OTL), power);
    }
  }

  lemma {:induction false} ShotMeans(
      tags: seq<SourceTag>, directions: Directions, ctx: Context, st: Store, w: LM.World, i: Instr, shot: nat,
      power: bool)
    requires Represents(SortTags(tags), directions, st, w) && shot < |w.shots|
    requires i.op == OP_ONS && i.args == [Operand(1, 1, 0, |SortTags(tags)| + shot)]
    ensures Corresponds(SortTags(tags), directions, Execute(ctx, i, st, power), LM.OneShot(w, shot, power))
  {
    var sorted, n := SortTags(tags), |SortTags(tags)| + shot;
    var s := w.shots[shot];
    assert SameShot(s, st, n);
    var shown := if s.force.Some? then s.force == Some(BoolV(true)) else s.stored;
    assert Denotes(st, i.args[0], BoolV(shown)) && Destination(st, i.args[0], BoolV(power));
    hide Represents, SortTags, Execute, Destination, Denotes, Assigns;
    OneShots(ctx, i, st, power, shown);
    ShotStored(sorted, directions, st, w, Execute(ctx, i, st, power), shot, power, power && !shown);
  }

  // ----- timers and counters -----

  /** The tag of a timer or counter instruction. */
  lemma {:induction false} StateTargets(
      tags: seq<SourceTag>, directions: Directions, st: Store, w: LM.World, m: Mnemonic, o: SourceOperand, rule: Rule,
      a: Operand)
      returns (n: nat)
    requires Holds(tags, directions, st, w) && EmittedOperand(tags, directions, m, o, rule, a)
    requires rule.types <= {DataType.TIMER, DataType.COUNTER} && !rule.literal
    ensures o.TagRef? && o.member.None? && LM.Named(w, o) == Some(o.tagId)
    ensures n < |SortTags(tags)| && SortTags(tags)[n].tagId == o.tagId && n < |st.tags|
    ensures a.kind == 1 && a.raw == n && n == IndexOf(SortTags(tags), o.tagId) && w.data[o.tagId] == st.tags[n].data
    ensures st.tags[n].data.TimerD? || st.tags[n].data.CounterD?
    ensures DataType.COUNTER !in rule.types ==> st.tags[n].data.TimerD?
    ensures DataType.TIMER !in rule.types ==> st.tags[n].data.CounterD?
  {
    PassingType(tags, o, rule);
    TagPlace(tags, directions, st, w, o.tagId);
    n := IndexOf(SortTags(tags), o.tagId);
  }

  lemma {:induction false} OwnMark(
      sorted: seq<SourceTag>, directions: Directions, st: Store, w: LM.World, i: Instr, k: nat)
    requires Represents(sorted, directions, st, w) && k < |w.marks| && i.slot == k
    ensures OwnRecord(st, i, k) && SameMark(w.marks[k], st.states[k], k)
  {
    assert forall j | 0 <= j < |w.marks| :: SameMark(w.marks[j], st.states[j], j);
  }

  lemma {:induction false} DelayMeans(
      tags: seq<SourceTag>, directions: Directions, ctx: Context, st: Store, w: LM.World, s: SourceInstr, i: Instr,
      slot: nat, power: bool)
    requires Holds(tags, directions, st, w) && Emitted(tags, directions, s, i, slot) && s.mnemonic == TON
             && slot < |w.marks|
    ensures |s.operands| == 1
    ensures Corresponds(SortTags(tags), directions, Execute(ctx, i, st, power),
            LM.OnDelay(w, s.operands[0], ctx.tick, slot, power))
  {
    var o, sorted, e := s.operands[0], SortTags(tags), Execute(ctx, i, st, power);
    assert EmittedOperand(tags, directions, TON, o, Rules(TON)[0], i.args[0]);
    var n := StateTargets(tags, directions, st, w, TON, o, Rules(TON)[0], i.args[0]);
    hide Represents, DistinctIds, SortTags, OperandPasses, Execute, LM.OnDelay;
    DelayTurn(sorted, directions, ctx, st, w, i, o, n, slot, power);
  }

  lemma {:induction false} DelayTurn(
      sorted: seq<SourceTag>, directions: Directions, ctx: Context, st: Store, w: LM.World, i: Instr,
      o: SourceOperand, n: nat, slot: nat, power: bool)
    requires Represents(sorted, directions, st, w) && n < |sorted| && n < |st.tags| && slot < |w.marks|
    requires o.TagRef? && LM.Named(w, o) == Some(o.tagId) && sorted[n].tagId == o.tagId
             && w.data[o.tagId] == st.tags[n].data
    requires st.tags[n].data.TimerD?
    requires i.op == OP_TON && |i.args| == 1 && i.args[0].kind == 1 && i.args[0].raw == n && i.slot == slot
    ensures Corresponds(sorted, directions, Execute(ctx, i, st, power), LM.OnDelay(w, o, ctx.tick, slot, power))
  {
    var e, d, id := Execute(ctx, i, st, power), st.tags[n].data, o.tagId;
    OwnMark(sorted, directions, st, w, i, slot);
    hide Represents, Execute, OwnRecord, Leaves;
    OnDelays(ctx, i, st, power, slot, d.pre, d.acc, d.en, d.tt, d.dn);
    if d.pre >= 0 {
      var turn := LM.OnDelay(w, o, ctx.tick, slot, power);
      var d1, m1 := turn.w.data[id], turn.w.marks[slot];
      RecordChanges(sorted, directions, st, w, e, n, d1, slot, StateRecord(slot, m1.edge, m1.timing, m1.since), power,
        m1);
    }
  }

  lemma {:induction false} CountMeans(
      tags: seq<SourceTag>, directions: Directions, ctx: Context, st: Store, w: LM.World, s: SourceInstr, i: Instr,
      slot: nat, power: bool)
    requires Holds(tags, directions, st, w) && Emitted(tags, directions, s, i, slot)
    requires (s.mnemonic == CTU || s.mnemonic == CTD) && slot < |w.marks|
    ensures |s.operands| == 1
    ensures Corresponds(SortTags(tags), directions, Execute(ctx, i, st, power),
                        LM.Count(w, s.operands[0], slot, power, s.mnemonic == CTU))
  {
    var o, sorted, e := s.operands[0], SortTags(tags), Execute(ctx, i, st, power);
    assert EmittedOperand(tags, directions, s.mnemonic, o, Rules(s.mnemonic)[0], i.args[0]);
    var n := StateTargets(tags, directions, st, w, s.mnemonic, o, Rules(s.mnemonic)[0], i.args[0]);
    hide Represents, DistinctIds, SortTags, OperandPasses, Execute, LM.Count;
    CountTurn(sorted, directions, ctx, st, w, i, o, n, slot, power);
  }

  lemma {:induction false} CountTurn(
      sorted: seq<SourceTag>, directions: Directions, ctx: Context, st: Store, w: LM.World, i: Instr,
      o: SourceOperand, n: nat, slot: nat, power: bool)
    requires Represents(sorted, directions, st, w) && n < |sorted| && n < |st.tags| && slot < |w.marks|
    requires o.TagRef? && LM.Named(w, o) == Some(o.tagId) && sorted[n].tagId == o.tagId
             && w.data[o.tagId] == st.tags[n].data
    requires st.tags[n].data.CounterD?
    requires (i.op == OP_CTU || i.op == OP_CTD) && |i.args| == 1 && i.args[0].kind == 1 && i.args[0].raw == n
             && i.slot == slot
    ensures Corresponds(sorted, directions, Execute(ctx, i, st, power), LM.Count(w, o, slot, power, i.op == OP_CTU))
  {
    hide *;
    var d := CountLeaves(sorted, directions, ctx, st, w, i, n, slot, power);
    var mark := w.marks[slot].(edge := power);
    RecordChanges(sorted, directions, st, w, Execute(ctx, i, st, power), n, d, slot, st.states[slot].(edge := power),
      power, mark);
    CountGoes(w, o, slot, power, i.op == OP_CTU, d);
    WentCorresponds(sorted, directions, Execute(ctx, i, st, power), LM.Count(w, o, slot, power, i.op == OP_CTU));
  }

  lemma {:induction false} WentCorresponds(
      sorted: seq<SourceTag>, directions: Directions, e: Effect<Store, FaultRecord>, turn: LM.Turn)
    requires turn.Went? && e.Passed? && e.power == turn.power && Represents(sorted, directions, e.st, turn.w)
    ensures Corresponds(sorted, directions, e, turn)
  {
  }

  /** The data of the counter after its turn. */
  function Counted(d: Data, power: bool, edge: bool, up: bool): Data
    requires d.CounterD?
  {
    var rise := power && !edge;
    if up then
      var now: int32 := if !rise then d.acc else if d.acc == 0x7fff_ffff then -0x8000_0000 else d.acc + 1;
      CounterD(d.pre, now, power, d.cd, now >= d.pre, d.ov || (rise && d.acc == 0x7fff_ffff), d.un)
    else
      var now: int32 := if !rise then d.acc else if d.acc == -0x8000_0000 then 0x7fff_ffff else d.acc - 1;
      CounterD(d.pre, now, d.cu, power, now >= d.pre, d.ov, d.un || (rise && d.acc == -0x8000_0000))
  }

  lemma {:induction false} CountLeaves(
      sorted: seq<SourceTag>, directions: Directions, ctx: Context, st: Store, w: LM.World, i: Instr, n: nat, slot: nat,
      power: bool) returns (d: Data)
    requires Represents(sorted, directions, st, w) && n < |st.tags| && slot < |w.marks| && st.tags[n].data.CounterD?
    requires (i.op == OP_CTU || i.op == OP_CTD) && |i.args| == 1 && i.args[0].kind == 1 && i.args[0].raw == n
             && i.slot == slot
    ensures d == Counted(st.tags[n].data, power, w.marks[slot].edge, i.op == OP_CTU)
    ensures TypeCode(d) == TypeCode(st.tags[n].data)
    ensures slot < |st.states| && Execute(ctx, i, st, power).Passed? && Execute(ctx, i, st, power).power == power
    ensures var r := st.states[slot].(edge := power);
            Leaves(Execute(ctx, i, st, power), st, n, d, slot, r, power)
              && SameMark(w.marks[slot].(edge := power), r, slot)
  {
    var c := st.tags[n].data;
    d := Counted(c, power, w.marks[slot].edge, i.op == OP_CTU);
    OwnMark(sorted, directions, st, w, i, slot);
    hide Represents, Execute, OwnRecord;
    Counts(ctx, i, st, power, slot, c.pre, c.acc, c.cu, c.cd, c.dn, c.ov, c.un);
  }

  lemma {:induction false} CountGoes(w: LM.World, o: SourceOperand, slot: nat, power: bool, up: bool, d: Data)
    requires o.TagRef? && LM.Named(w, o) == Some(o.tagId) && w.data[o.tagId].CounterD? && slot < |w.marks|
    requires d == Counted(w.data[o.tagId], power, w.marks[slot].edge, up)
    ensures LM.Count(w, o, slot, power, up)
         == LM.Went(w.(data := w.data[o.tagId := d], marks := w.marks[slot := w.marks[slot].(edge := power)]), power)
  {
  }

  lemma {:induction false} ResetMeans(
      tags: seq<SourceTag>, directions: Directions, ctx: Context, st: Store, w: LM.World, s: SourceInstr, i: Instr,
      slot: nat, insight: seq<SourceInstr>, power: bool)
    requires Holds(tags, directions, st, w) && Emitted(tags, directions, s, i, slot) && s.mnemonic == RES
    requires SameSight(tags, insight, ctx.visible)
    ensures |s.operands| == 1
    ensures Corresponds(SortTags(tags), directions, Execute(ctx, i, st, power),
            LM.Reset(w, s.operands[0], insight, power))
  {
    var o, sorted, e := s.operands[0], SortTags(tags), Execute(ctx, i, st, power);
    assert EmittedOperand(tags, directions, RES, o, Rules(RES)[0], i.args[0]);
    var n := StateTargets(tags, directions, st, w, RES, o, Rules(RES)[0], i.args[0]);
    hide DistinctIds, SortTags, OperandPasses, Execute, SlotOf, LM.DrivenBy;
    Resets(ctx, i, st, power);
    if power {
      var turn := LM.Reset(w, o, insight, power);
      var st0 := e.st.(states := st.states);
      DataChanges(sorted, directions, st, w, st0, n, turn.w.data[o.tagId]);
      var w0 := w.(data := turn.w.data);
      forall k | 0 <= k < |w.marks|
        ensures SameMark(turn.w.marks[k], e.st.states[k], k)
      {
        assert SameMark(w.marks[k], st.states[k], k);
      }
      RecordsChange(sorted, directions, st0, w0, e.st, turn.w.marks);
    }
  }

  // ----- comparisons, moves and arithmetic -----

  /** A number that is read. */
  lemma {:induction false} NumericSource(
      tags: seq<SourceTag>, directions: Directions, st: Store, w: LM.World, m: Mnemonic, o: SourceOperand, a: Operand)
      returns (v: Value)
    requires Holds(tags, directions, st, w) && EmittedOperand(tags, directions, m, o, Validation.NUMERIC, a)
    ensures LM.Reading(w, o) == Some(v) && Denotes(st, a, v) && (m != MOV ==> InstructionLaws.Numeric(v))
  {
    hide Represents, DistinctIds, SortTags, OperandPasses, Denotes, LM.Reading;
    v := Operands(tags, directions, st, w, m, o, Validation.NUMERIC, a);
  }

  /** A number that is written. */
  lemma {:induction false} NumericTarget(
      tags: seq<SourceTag>, directions: Directions, st: Store, w: LM.World, m: Mnemonic, o: SourceOperand, a: Operand)
      returns (n: nat)
    requires Holds(tags, directions, st, w) && EmittedOperand(tags, directions, m, o, NUMERIC_DESTINATION, a)
    requires m in {MOV, NEG, ABS, ADD, SUB, MUL, DIV}
    ensures Target(tags, st, w, o, a, n) && (st.tags[n].data.DintD? || st.tags[n].data.RealD?)
  {
    hide Holds, OperandPasses, EmittedOperand, Target;
    n := Targets(tags, directions, st, w, m, o, NUMERIC_DESTINATION, a);
    TargetIs(tags, st, w, o, a, n);
  }

  lemma {:induction false} TargetIs(tags: seq<SourceTag>, st: Store, w: LM.World, o: SourceOperand, a: Operand, n: nat)
    requires Target(tags, st, w, o, a, n)
    ensures o.TagRef? && o.member.None? && LM.Named(w, o) == Some(o.tagId)
    ensures n < |SortTags(tags)| && SortTags(tags)[n].tagId == o.tagId && n < |st.tags|
    ensures a.kind == 1 && a.raw == n && o.tagId in w.data && w.data[o.tagId] == st.tags[n].data
    ensures forall v: Value | ValueCode(v) == TypeCode(st.tags[n].data) :: Destination(st, a, v)
  {
  }

  /** The record of a comparison, a move or arithmetic has the operands its mnemonic asks for. */
  lemma {:induction false} NumericOperands(
      tags: seq<SourceTag>, directions: Directions, s: SourceInstr, i: Instr, slot: nat)
    requires Emitted(tags, directions, s, i, slot)
    ensures i.op == Opcode(s.mnemonic)
    ensures s.mnemonic in {EQ, NE, GT, GE, LT, LE} ==>
              && |s.operands| == |i.args| == 2
              && EmittedOperand(tags, directions, s.mnemonic, s.operands[0], Validation.NUMERIC, i.args[0])
              && EmittedOperand(tags, directions, s.mnemonic, s.operands[1], Validation.NUMERIC, i.args[1])
    ensures s.mnemonic in {MOV, NEG, ABS} ==>
              && |s.operands| == |i.args| == 2
              && EmittedOperand(tags, directions, s.mnemonic, s.operands[0], Validation.NUMERIC, i.args[0])
              && EmittedOperand(tags, directions, s.mnemonic, s.operands[1], NUMERIC_DESTINATION, i.args[1])
    ensures s.mnemonic in {ADD, SUB, MUL, DIV} ==>
              && |s.operands| == |i.args| == 3
              && EmittedOperand(tags, directions, s.mnemonic, s.operands[0], Validation.NUMERIC, i.args[0])
              && EmittedOperand(tags, directions, s.mnemonic, s.operands[1], Validation.NUMERIC, i.args[1])
              && EmittedOperand(tags, directions, s.mnemonic, s.operands[2], NUMERIC_DESTINATION, i.args[2])
  {
    hide EmittedOperand, Opcode;
  }

  lemma {:induction false} ComparisonMeans(
      tags: seq<SourceTag>, directions: Directions, ctx: Context, st: Store, w: LM.World, s: SourceInstr, i: Instr,
      slot: nat, power: bool)
    requires Holds(tags, directions, st, w) && Emitted(tags, directions, s, i, slot)
             && s.mnemonic in {EQ, NE, GT, GE, LT, LE}
    ensures |s.operands| == 2
    ensures Corresponds(SortTags(tags), directions, Execute(ctx, i, st, power),
                        LM.Comparison(ctx.reals, w, s.mnemonic, s.operands[0], s.operands[1], power))
  {
    var m := s.mnemonic;
    hide *;
    NumericOperands(tags, directions, s, i, slot);
    var x := NumericSource(tags, directions, st, w, m, s.operands[0], i.args[0]);
    var y := NumericSource(tags, directions, st, w, m, s.operands[1], i.args[1]);
    HoldsRepresents(tags, directions, st, w);
    ComparisonTurn(SortTags(tags), directions, ctx, st, w, m, i, s.operands[0], s.operands[1], x, y, power);
  }

  lemma {:induction false} HoldsRepresents(tags: seq<SourceTag>, directions: Directions, st: Store, w: LM.World)
    requires Holds(tags, directions, st, w)
    ensures Represents(SortTags(tags), directions, st, w) && DistinctIds(tags)
  {
  }

  lemma {:induction false} ComparisonTurn(
      sorted: seq<SourceTag>, directions: Directions, ctx: Context, st: Store, w: LM.World, m: Mnemonic, i: Instr,
      a: SourceOperand, b: SourceOperand, x: Value, y: Value, power: bool)
    requires Represents(sorted, directions, st, w) && m in {EQ, NE, GT, GE, LT, LE} && i.op == Opcode(m)
             && |i.args| == 2
    requires LM.Reading(w, a) == Some(x) && Denotes(st, i.args[0], x) && InstructionLaws.Numeric(x)
    requires LM.Reading(w, b) == Some(y) && Denotes(st, i.args[1], y) && InstructionLaws.Numeric(y)
    ensures Corresponds(sorted, directions, Execute(ctx, i, st, power), LM.Comparison(ctx.reals, w, m, a, b, power))
  {
    hide Represents, Execute, Denotes, LM.Reading;
    Comparisons(ctx, i, st, power, x, y);
  }

  /** Source and destination of MOV, NEG and ABS. */
  lemma {:induction false} SourceAndTarget(
      tags: seq<SourceTag>, directions: Directions, st: Store, w: LM.World, s: SourceInstr, i: Instr, slot: nat)
      returns (x: Value, n: nat)
    requires Holds(tags, directions, st, w) && Emitted(tags, directions, s, i, slot) && s.mnemonic in {MOV, NEG, ABS}
    ensures |s.operands| == 2 == |i.args| && i.op == Opcode(s.mnemonic)
    ensures LM.Reading(w, s.operands[0]) == Some(x) && Denotes(st, i.args[0], x)
    ensures s.mnemonic != MOV ==> InstructionLaws.Numeric(x)
    ensures Target(tags, st, w, s.operands[1], i.args[1], n) && (st.tags[n].data.DintD? || st.tags[n].data.RealD?)
  {
    var m := s.mnemonic;
    hide *;
    NumericOperands(tags, directions, s, i, slot);
    x := NumericSource(tags, directions, st, w, m, s.operands[0], i.args[0]);
    n := NumericTarget(tags, directions, st, w, m, s.operands[1], i.args[1]);
  }

  lemma {:induction false} MoveMeans(
      tags: seq<SourceTag>, directions: Directions, ctx: Context, st: Store, w: LM.World, s: SourceInstr, i: Instr,
      slot: nat, power: bool)
    requires Holds(tags, directions, st, w) && Emitted(tags, directions, s, i, slot) && s.mnemonic == MOV
    ensures |s.operands| == 2
    ensures Corresponds(SortTags(tags), directions, Execute(ctx, i, st, power),
                        LM.Move(ctx.reals, w, s.operands[0], s.operands[1], power))
  {
    var x, n := SourceAndTarget(tags, directions, st, w, s, i, slot);
    hide Represents, DistinctIds, SortTags, Execute, Denotes, Destination, LM.Move, Corresponds, Emitted;
    MoveTurn(SortTags(tags), directions, ctx, st, w, i, s.operands[0], s.operands[1], x, n, power);
  }

  lemma {:induction false} MoveTurn(
      sorted: seq<SourceTag>, directions: Directions, ctx: Context, st: Store, w: LM.World, i: Instr,
      a: SourceOperand, o: SourceOperand, x: Value, n: nat, power: bool)
    requires Represents(sorted, directions, st, w) && n < |sorted| && n < |st.tags|
    requires i.op == OP_MOV && |i.args| == 2 && i.args[1].raw == n
    requires LM.Reading(w, a) == Some(x) && Denotes(st, i.args[0], x)
    requires o.TagRef? && LM.Named(w, o) == Some(o.tagId) && sorted[n].tagId == o.tagId
             && w.data[o.tagId] == st.tags[n].data
    requires st.tags[n].data.DintD? || st.tags[n].data.RealD?
    requires forall v: Value | ValueCode(v) == TypeCode(st.tags[n].data) :: Destination(st, i.args[1], v)
    ensures Corresponds(sorted, directions, Execute(ctx, i, st, power), LM.Move(ctx.reals, w, a, o, power))
  {
    var e := Execute(ctx, i, st, power);
    var z := if st.tags[n].data.DintD? then DintV(0) else RealV(0);
    hide Represents, Execute, Denotes, Destination, LM.Assigned, LM.Reading;
    assert TypeCode(st.tags[n].data) == ValueCode(z);
    Moves(ctx, i, st, power, x, z);
    if power {
      if (x.DintV? && z.DintV?) || (x.RealV? && z.RealV?) {
        ValueStored(sorted, directions, st, w, e, n, x, power);
      } else if x.DintV? {
        ValueStored(sorted, directions, st, w, e, n, RealV(ctx.reals.ofDint(x.d)), power);
      } else if x.RealV? && ctx.reals.toDint(x.bits).Some? {
        ValueStored(sorted, directions, st, w, e, n, DintV(ctx.reals.toDint(x.bits).value), power);
      }
    }
  }

  lemma {:induction false} ClearMeans(
      tags: seq<SourceTag>, directions: Directions, ctx: Context, st: Store, w: LM.World, s: SourceInstr, i: Instr,
      slot: nat, power: bool)
    requires Holds(tags, directions, st, w) && Emitted(tags, directions, s, i, slot) && s.mnemonic == CLR
    ensures |s.operands| == 1
    ensures Corresponds(SortTags(tags), directions, Execute(ctx, i, st, power), LM.Clear(w, s.operands[0], power))
  {
    var o, sorted, e := s.operands[0], SortTags(tags), Execute(ctx, i, st, power);
    var rule := Rules(CLR)[0];
    assert rule.types == {BOOL, DINT, REAL} && rule.writable;
    assert EmittedOperand(tags, directions, CLR, o, rule, i.args[0]);
    hide Represents, DistinctIds, SortTags, OperandPasses, Execute, Denotes, Destination, Assigns, LM.Assigned,
         EmittedOperand;
    var n := Targets(tags, directions, st, w, CLR, o, rule, i.args[0]);
    var d := st.tags[n].data;
    var z := if d.BoolD? then BoolV(false) else if d.DintD? then DintV(0) else RealV(0);
    assert TypeCode(d) == ValueCode(z);
    Clears(ctx, i, st, power, z);
    if power {
      ValueStored(sorted, directions, st, w, e, n, z, power);
    }
  }

  lemma {:induction false} QuotientUnique(a: int, b: int, q: int)
    requires b != 0 && Divides(a, b, q)
    ensures q == LM.Divided(a, b)
  {
    var p := LM.Divided(a, b);
    DividedDivides(a, b);
    Multiples(q - p, b);
    assert (q - p) * b == q * b - p * b;
    hide LM.Divided;
  }

  /** A multiple of b is at least as large as b, unless it is zero. */
  lemma {:induction false} Multiples(d: int, b: int)
    requires b != 0
    ensures d == 0 || (if b < 0 then d * b <= b || d * b >= -b else d * b >= b || d * b <= -b)
  {
    if d >= 1 {
      assert d * b == b + (d - 1) * b;
    } else if d <= -1 {
      assert d * b == -b + (d + 1) * b;
    }
  }

  lemma {:induction false} DividedDivides(a: int, b: int)
    requires b != 0
    ensures Divides(a, b, LM.Divided(a, b))
  {
    var m, n := if a < 0 then -a else a, if b < 0 then -b else b;
    var k, r := m / n, m % n;
    var p := k * n;
    assert m == p + r && 0 <= r < n;
    Products(k, n);
    var q := LM.Divided(a, b);
    assert q == (if (a < 0) == (b < 0) then k else -k) && b == (if b < 0 then -n else n);
    assert q * b == if a < 0 then -p else p;
  }

  lemma {:induction false} ArithmeticMeans(
      tags: seq<SourceTag>, directions: Directions, ctx: Context, st: Store, w: LM.World, s: SourceInstr, i: Instr,
      slot: nat, power: bool)
    requires Holds(tags, directions, st, w) && Emitted(tags, directions, s, i, slot)
             && s.mnemonic in {ADD, SUB, MUL, DIV}
    ensures |s.operands| == 3
    ensures Corresponds(SortTags(tags), directions, Execute(ctx, i, st, power),
                        LM.Arithmetic(ctx.reals, w, s.mnemonic, s.operands[0], s.operands[1], s.operands[2], power))
  {
    var m, o := s.mnemonic, s.operands[2];
    hide *;
    NumericOperands(tags, directions, s, i, slot);
    var x := NumericSource(tags, directions, st, w, m, s.operands[0], i.args[0]);
    var y := NumericSource(tags, directions, st, w, m, s.operands[1], i.args[1]);
    var n := NumericTarget(tags, directions, st, w, m, o, i.args[2]);
    HoldsRepresents(tags, directions, st, w);
    TargetIs(tags, st, w, o, i.args[2], n);
    ArithmeticTurn(SortTags(tags), directions, ctx, st, w, m, i, s.operands[0], s.operands[1], o, x, y, n, power);
  }

  lemma {:induction false} ArithmeticTurn(
      sorted: seq<SourceTag>, directions: Directions, ctx: Context, st: Store, w: LM.World, m: Mnemonic, i: Instr,
      a: SourceOperand, b: SourceOperand, o: SourceOperand, x: Value, y: Value, n: nat, power: bool)
    requires Represents(sorted, directions, st, w) && n < |sorted| && n < |st.tags|
    requires m in {ADD, SUB, MUL, DIV} && i.op == Opcode(m) && |i.args| == 3 && i.args[2].kind == 1
             && i.args[2].raw == n
    requires LM.Reading(w, a) == Some(x) && Denotes(st, i.args[0], x) && InstructionLaws.Numeric(x)
    requires LM.Reading(w, b) == Some(y) && Denotes(st, i.args[1], y) && InstructionLaws.Numeric(y)
    requires o.TagRef? && LM.Named(w, o) == Some(o.tagId) && sorted[n].tagId == o.tagId
             && w.data[o.tagId] == st.tags[n].data
    requires st.tags[n].data.DintD? || st.tags[n].data.RealD?
    requires forall v: Value | ValueCode(v) == TypeCode(st.tags[n].data) :: Destination(st, i.args[2], v)
    ensures Corresponds(sorted, directions, Execute(ctx, i, st, power), LM.Arithmetic(ctx.reals, w, m, a, b, o, power))
  {
    var e, d := Execute(ctx, i, st, power), st.tags[n].data;
    hide Represents, Execute, Denotes, Assigns, Destination, LM.Assigned, LM.Divided, Divides;
    if d.RealD? {
      assert ValueCode(RealV(0)) == TypeCode(d);
      RealTurn(sorted, directions, ctx, st, w, m, i, a, b, o, x, y, n, power);
    } else {
      assert ValueCode(DintV(0)) == TypeCode(d);
      if x.DintV? && y.DintV? {
        DintTurn(sorted, directions, ctx, st, w, m, i, a, b, o, x.d, y.d, n, power);
      } else if power {
        MixedArithmetic(ctx, i, st, x, y);
      } else {
        QuietArithmetic(ctx, i, st, x, y);
      }
    }
  }

  lemma {:induction false} RealTurn(
      sorted: seq<SourceTag>, directions: Directions, ctx: Context, st: Store, w: LM.World, m: Mnemonic, i: Instr,
      a: SourceOperand, b: SourceOperand, o: SourceOperand, x: Value, y: Value, n: nat, power: bool)
    requires Represents(sorted, directions, st, w) && n < |sorted| && n < |st.tags|
    requires m in {ADD, SUB, MUL, DIV} && i.op == Opcode(m) && |i.args| == 3 && i.args[2].raw == n
    requires LM.Reading(w, a) == Some(x) && Denotes(st, i.args[0], x) && InstructionLaws.Numeric(x)
    requires LM.Reading(w, b) == Some(y) && Denotes(st, i.args[1], y) && InstructionLaws.Numeric(y)
    requires o.TagRef? && LM.Named(w, o) == Some(o.tagId) && sorted[n].tagId == o.tagId
             && w.data[o.tagId] == st.tags[n].data
    requires st.tags[n].data.RealD? && Destination(st, i.args[2], RealV(0))
    ensures Corresponds(sorted, directions, Execute(ctx, i, st, power), LM.Arithmetic(ctx.reals, w, m, a, b, o, power))
  {
    var e := Execute(ctx, i, st, power);
    var p, r := LM.InReal(ctx.reals, x), LM.InReal(ctx.reals, y);
    var q := ctx.reals.arith(i.op, p, r);
    hide Represents, Execute, Denotes, Destination, LM.Assigned, LM.Reading;
    RealArithmetic(ctx, i, st, power, x, y, p, r, 0);
    if power && !(m == DIV && ctx.reals.isZero(r)) && ctx.reals.isFinite(q) {
      ValueStored(sorted, directions, st, w, e, n, RealV(q), power);
    }
  }

  lemma {:induction false} QuietArithmetic(c: Context, i: Instr, s: Store, x: Value, y: Value)
    requires IsMath(i.op) && |i.args| == 3 && Denotes(s, i.args[0], x) && Denotes(s, i.args[1], y)
    ensures Execute(c, i, s, false) == Passed(s, false)
  {
    ReadDenotes(s, i.args[0], x);
    hide Read;
  }

  lemma {:induction false} DintTurn(
      sorted: seq<SourceTag>, directions: Directions, ctx: Context, st: Store, w: LM.World, m: Mnemonic, i: Instr,
      a: SourceOperand, b: SourceOperand, o: SourceOperand, x: int32, y: int32, n: nat, power: bool)
    requires Represents(sorted, directions, st, w) && n < |sorted| && n < |st.tags|
    requires m in {ADD, SUB, MUL, DIV} && i.op == Opcode(m) && |i.args| == 3 && i.args[2].raw == n
    requires LM.Reading(w, a) == Some(DintV(x)) && Denotes(st, i.args[0], DintV(x))
    requires LM.Reading(w, b) == Some(DintV(y)) && Denotes(st, i.args[1], DintV(y))
    requires o.TagRef? && LM.Named(w, o) == Some(o.tagId) && sorted[n].tagId == o.tagId
             && w.data[o.tagId] == st.tags[n].data
    requires st.tags[n].data.DintD? && Destination(st, i.args[2], DintV(0))
    ensures Corresponds(sorted, directions, Execute(ctx, i, st, power), LM.Arithmetic(ctx.reals, w, m, a, b, o, power))
  {
    var e := Execute(ctx, i, st, power);
    hide Represents, Execute, Denotes, Destination, LM.Assigned, LM.Divided, Divides;
    DintArithmetic(ctx, i, st, power, x, y);
    if power && !(m == DIV && y == 0) {
      var q :| InstructionLaws.Result(i.op, x, y, q) && StoresOrOverflows(e, st, i, n, q, power);
      if m == DIV {
        QuotientUnique(x, y, q);
      }
      assert q == LM.Computed(m, x, y);
      if INT32_MIN <= q <= INT32_MAX {
        ValueStored(sorted, directions, st, w, e, n, DintV(q), power);
      }
    }
  }

  lemma {:induction false} SignMeans(
      tags: seq<SourceTag>, directions: Directions, ctx: Context, st: Store, w: LM.World, s: SourceInstr, i: Instr,
      slot: nat, power: bool)
    requires Holds(tags, directions, st, w) && Emitted(tags, directions, s, i, slot)
             && (s.mnemonic == NEG || s.mnemonic == ABS)
    ensures |s.operands| == 2
    ensures Corresponds(SortTags(tags), directions, Execute(ctx, i, st, power),
                        LM.Sign(ctx.reals, w, s.mnemonic, s.operands[0], s.operands[1], power))
  {
    var x, n := SourceAndTarget(tags, directions, st, w, s, i, slot);
    hide Represents, DistinctIds, SortTags, Execute, Denotes, Destination, LM.Sign, Corresponds, Emitted;
    SignTurn(SortTags(tags), directions, ctx, st, w, s.mnemonic, i, s.operands[0], s.operands[1], x, n, power);
  }

  lemma {:induction false} SignTurn(
      sorted: seq<SourceTag>, directions: Directions, ctx: Context, st: Store, w: LM.World, m: Mnemonic, i: Instr,
      a: SourceOperand, o: SourceOperand, x: Value, n: nat, power: bool)
    requires Represents(sorted, directions, st, w) && n < |sorted| && n < |st.tags|
    requires (m == NEG || m == ABS) && i.op == Opcode(m) && |i.args| == 2 && i.args[1].raw == n
    requires LM.Reading(w, a) == Some(x) && Denotes(st, i.args[0], x) && InstructionLaws.Numeric(x)
    requires o.TagRef? && LM.Named(w, o) == Some(o.tagId) && sorted[n].tagId == o.tagId
             && w.data[o.tagId] == st.tags[n].data
    requires st.tags[n].data.DintD? || st.tags[n].data.RealD?
    requires forall v: Value | ValueCode(v) == TypeCode(st.tags[n].data) :: Destination(st, i.args[1], v)
    ensures Corresponds(sorted, directions, Execute(ctx, i, st, power), LM.Sign(ctx.reals, w, m, a, o, power))
  {
    var d := st.tags[n].data;
    hide Represents, Execute, Denotes, Destination, LM.Assigned, LM.Reading, LM.Sign, Corresponds;
    if d.RealD? {
      assert ValueCode(RealV(0)) == TypeCode(d);
      RealSignTurn(sorted, directions, ctx, st, w, m, i, a, o, x, n, power);
    } else {
      assert ValueCode(DintV(0)) == TypeCode(d);
      DintSignTurn(sorted, directions, ctx, st, w, m, i, a, o, x, n, power);
    }
  }

  lemma {:induction false} RealSignTurn(
      sorted: seq<SourceTag>, directions: Directions, ctx: Context, st: Store, w: LM.World, m: Mnemonic, i: Instr,
      a: SourceOperand, o: SourceOperand, x: Value, n: nat, power: bool)
    requires Represents(sorted, directions, st, w) && n < |sorted| && n < |st.tags|
    requires (m == NEG || m == ABS) && i.op == Opcode(m) && |i.args| == 2 && i.args[1].raw == n
    requires LM.Reading(w, a) == Some(x) && Denotes(st, i.args[0], x) && InstructionLaws.Numeric(x)
    requires o.TagRef? && LM.Named(w, o) == Some(o.tagId) && sorted[n].tagId == o.tagId
             && w.data[o.tagId] == st.tags[n].data
    requires st.tags[n].data.RealD? && Destination(st, i.args[1], RealV(0))
    ensures Corresponds(sorted, directions, Execute(ctx, i, st, power), LM.Sign(ctx.reals, w, m, a, o, power))
  {
    var e, r := Execute(ctx, i, st, power), LM.InReal(ctx.reals, x);
    var v := RealV(if m == NEG then ctx.reals.negate(r) else ctx.reals.absolute(r));
    hide Represents, Execute, Denotes, Destination, LM.Assigned, LM.Reading;
    RealSigns(ctx, i, st, power, x, r, 0);
    if power {
      ValueStored(sorted, directions, st, w, e, n, v, power);
    }
  }

  lemma {:induction false} DintSignTurn(
      sorted: seq<SourceTag>, directions: Directions, ctx: Context, st: Store, w: LM.World, m: Mnemonic, i: Instr,
      a: SourceOperand, o: SourceOperand, x: Value, n: nat, power: bool)
    requires Represents(sorted, directions, st, w) && n < |sorted| && n < |st.tags|
    requires (m == NEG || m == ABS) && i.op == Opcode(m) && |i.args| == 2 && i.args[1].raw == n
    requires LM.Reading(w, a) == Some(x) && Denotes(st, i.args[0], x) && InstructionLaws.Numeric(x)
    requires o.TagRef? && LM.Named(w, o) == Some(o.tagId) && sorted[n].tagId == o.tagId
             && w.data[o.tagId] == st.tags[n].data
    requires st.tags[n].data.DintD? && Destination(st, i.args[1], DintV(0))
    ensures Corresponds(sorted, directions, Execute(ctx, i, st, power), LM.Sign(ctx.reals, w, m, a, o, power))
  {
    var e := Execute(ctx, i, st, power);
    hide Represents, Execute, Denotes, Destination, LM.Assigned, LM.Reading;
    if x.DintV? {
      DintSigns(ctx, i, st, power, x.d);
      if power && x.d > INT32_MIN {
        ValueStored(sorted, directions, st, w, e, n, DintV(if m == NEG || x.d < 0 then -x.d else x.d), power);
      }
    } else if power {
      MixedSigns(ctx, i, st, x);
    } else {
      QuietSigns(ctx, i, st, x);
    }
  }

  lemma {:induction false} QuietSigns(c: Context, i: Instr, s: Store, x: Value)
    requires (i.op == OP_NEG || i.op == OP_ABS) && |i.args| == 2 && Denotes(s, i.args[0], x)
    ensures Execute(c, i, s, false) == Passed(s, false)
  {
    ReadDenotes(s, i.args[0], x);
    hide Read;
  }

  // ----- any instruction -----

  /** Where an instruction stands, in numbers of slots and of tags. */
  predicate InPlace(tags: seq<SourceTag>, w: LM.World, s: SourceInstr, c: Counters, at: LM.Place) {
    && at.slot == c.slot && |tags| + at.shot == c.tag
    && (Stateful(s.mnemonic) ==> at.slot < |w.marks|) && (NeedsStorage(s) ==> at.shot < |w.shots|)
  }

  /** The record of an admitted, deployable instruction that can be built does to the store what the
   *  instruction means in the project. */
  lemma {:induction false} StepMeans(
      tags: seq<SourceTag>, directions: Directions, ctx: Context, st: Store, w: LM.World, s: SourceInstr, c: Counters,
      at: LM.Place, power: bool)
    requires Holds(tags, directions, st, w) && InPlace(tags, w, s, c, at) && SameSight(tags, at.insight, ctx.visible)
    requires StepPasses(tags, s) && StepDeploys(directions, s) && LiteralOf(WideReal) !in s.operands
    ensures TagsExist(SortTags(tags), s)
    ensures Corresponds(SortTags(tags), directions, Execute(ctx, Assemble(LowerStep(SortTags(tags), s, c)), st, power),
                        LM.Meaning(ctx.reals, ctx.tick, w, s, at, power))
  {
    if NeedsStorage(s) {
      var i := Assemble(LowerStep(SortTags(tags), s, c));
      SortedSize(tags);
      assert i.args == [Operand(1, 1, 0, |SortTags(tags)| + at.shot)];
      hide Represents, SortTags, Execute, LM.OneShot, Corresponds;
      ShotMeans(tags, directions, ctx, st, w, i, at.shot, power);
    } else {
      StepRecord(tags, directions, s, c);
      hide Holds, Emitted, Corresponds, SortTags, Execute, StepPasses, StepDeploys, SameSight, Assemble, LowerStep,
           TagsExist;
      EmittedMeans(tags, directions, ctx, st, w, s, Assemble(LowerStep(SortTags(tags), s, c)), c, at, power);
    }
  }

  lemma {:induction false} EmittedMeans(
      tags: seq<SourceTag>, directions: Directions, ctx: Context, st: Store, w: LM.World, s: SourceInstr, i: Instr,
      c: Counters, at: LM.Place, power: bool)
    requires Holds(tags, directions, st, w) && InPlace(tags, w, s, c, at) && SameSight(tags, at.insight, ctx.visible)
    requires Emitted(tags, directions, s, i, at.slot)
    ensures Corresponds(SortTags(tags), directions, Execute(ctx, i, st, power),
            LM.Meaning(ctx.reals, ctx.tick, w, s, at, power))
  {
    var m := s.mnemonic;
    assert m != ONS && |s.operands| == |Rules(m)| == LM.Arity(m);
    hide Holds, Emitted, Corresponds, SortTags, Execute, SameSight, LM.Contact, LM.Coil, LM.OnDelay, LM.Count,
         LM.Reset, LM.Comparison,
         LM.Move, LM.Clear, LM.Arithmetic, LM.Sign;
    if m in {XIC, XIO} {
      ContactMeans(tags, directions, ctx, st, w, s, i, at.slot, power);
    } else if m in {OTE, OTL, OTU} {
      CoilMeans(tags, directions, ctx, st, w, s, i, at.slot, power);
    } else if m == TON {
      DelayMeans(tags, directions, ctx, st, w, s, i, at.slot, power);
    } else if m in {CTU, CTD} {
      CountMeans(tags, directions, ctx, st, w, s, i, at.slot, power);
    } else if m == RES {
      ResetMeans(tags, directions, ctx, st, w, s, i, at.slot, at.insight, power);
    } else if m in {EQ, NE, GT, GE, LT, LE} {
      ComparisonMeans(tags, directions, ctx, st, w, s, i, at.slot, power);
    } else if m == MOV {
      MoveMeans(tags, directions, ctx, st, w, s, i, at.slot, power);
    } else if m == CLR {
      ClearMeans(tags, directions, ctx, st, w, s, i, at.slot, power);
    } else if m in {ADD, SUB, MUL, DIV} {
      ArithmeticMeans(tags, directions, ctx, st, w, s, i, at.slot, power);
    } else {
      SignMeans(tags, directions, ctx, st, w, s, i, at.slot, power);
    }
  }
}
