/** What the gate admits at each place of an instruction, by the type of the tag. */
module GateLaws {
  import opened Bytes
  import opened Source
  import opened Lowering
  import opened Validation

  predicate Compares(m: Mnemonic) {
    m == EQ || m == NE || m == GT || m == GE || m == LT || m == LE
  }

  predicate Calculates(m: Mnemonic) {
    m == ADD || m == SUB || m == MUL || m == DIV
  }

  predicate Converts(m: Mnemonic) {
    m == MOV || m == NEG || m == ABS
  }

  predicate IsCoil(m: Mnemonic) {
    m == OTE || m == OTL || m == OTU
  }

  /** How many operands there are. */
  function Count(m: Mnemonic): nat {
    if Calculates(m) then 3 else if Compares(m) || Converts(m) then 2 else 1
  }

  /** Place k is read, not written. */
  predicate IsSource(m: Mnemonic, k: nat) {
    m == XIC || m == XIO || Compares(m) || (Converts(m) && k == 0) || (Calculates(m) && k < 2)
  }

  /** The types place k takes. */
  predicate Takes(m: Mnemonic, k: nat, t: DataType) {
    match t
    case BOOL => m == XIC || m == XIO || IsCoil(m) || m == ONS || m == CLR
    case DINT => Compares(m) || Calculates(m) || Converts(m) || m == CLR
    case REAL => Compares(m) || Calculates(m) || Converts(m) || m == CLR
    case TIMER => m == TON || m == RES
    case COUNTER => m == CTU || m == CTD || m == RES
  }

  /** The members of timers and counters, and their types. */
  lemma {:induction false} Members(t: DataType, m: Member)
    ensures HasMember(t, m) <==>
            || (t == DataType.TIMER && (m == PRE || m == ACC || m == EN || m == TT || m == DN))
            || (t == DataType.COUNTER && (m == PRE || m == ACC || m == CU || m == CD || m == DN || m == OV || m == UN))
    ensures MemberDataType(m) == if m == PRE || m == ACC then DINT else BOOL
  {
  }

  predicate RuleFits(m: Mnemonic, k: nat) {
    && |Rules(m)| == Count(m) && k < Count(m)
    && Rules(m)[k].literal == IsSource(m, k) && Rules(m)[k].writable == !IsSource(m, k)
    && forall t :: t in Rules(m)[k].types <==> Takes(m, k, t)
  }

  lemma {:induction false} RuleOfOne(m: Mnemonic)
    requires Count(m) == 1
    ensures RuleFits(m, 0)
  {
  }

  lemma {:induction false} RuleOfMore(m: Mnemonic, k: nat)
    requires 1 < Count(m) && k < Count(m)
    ensures RuleFits(m, k)
  {
    if Compares(m) {
      RuleOfComparison(m, k);
    } else if Converts(m) {
      RuleOfConversion(m, k);
    } else {
      RuleOfCalculation(m, k);
    }
    hide *;
  }

  lemma {:induction false} RuleOfComparison(m: Mnemonic, k: nat)
    requires Compares(m) && k < 2
    ensures RuleFits(m, k)
  {
    assert Rules(m)[k] == NUMERIC && |Rules(m)| == 2;
    hide Rules;
  }

  lemma {:induction false} RuleOfConversion(m: Mnemonic, k: nat)
    requires Converts(m) && k < 2
    ensures RuleFits(m, k)
  {
    assert Rules(m)[k] == (if k == 0 then NUMERIC else NUMERIC_DESTINATION) && |Rules(m)| == 2;
    hide Rules;
  }

  lemma {:induction false} RuleOfCalculation(m: Mnemonic, k: nat)
    requires Calculates(m) && k < 3
    ensures RuleFits(m, k)
  {
    assert Rules(m)[k] == (if k < 2 then NUMERIC else NUMERIC_DESTINATION) && |Rules(m)| == 3;
    hide Rules;
  }

  lemma {:induction false} RuleIs(m: Mnemonic, k: nat)
    requires k < Count(m)
    ensures RuleFits(m, k)
  {
    hide RuleFits, Count;
    CountPositive(m);
    if Count(m) == 1 {
      RuleOfOne(m);
    } else {
      RuleOfMore(m, k);
    }
  }

  lemma {:induction false} CountPositive(m: Mnemonic)
    ensures 1 <= Count(m) <= 3
  {
  }

  /** Every place is a source, which takes literals and tags, or a destination, which takes writable tags; of a
   *  timer or counter instructions may only write PRE. */
  lemma {:induction false} WhatPasses(
      tags: seq<SourceTag>, t: SourceTag, m: Mnemonic, k: nat, l: Literal, member: Member)
    requires Find(tags, t.tagId) == Some(t) && k < Count(m)
    ensures |Rules(m)| == Count(m)
    ensures OperandPasses(tags, LiteralOf(l), Rules(m)[k]) <==>
            IsSource(m, k) && (l.DintLit? ==> -2_147_483_648 <= l.v <= 2_147_483_647)
    ensures OperandPasses(tags, TagRef(t.tagId, None), Rules(m)[k]) <==>
            Takes(m, k, t.dataType) && (IsSource(m, k) || t.writable)
    ensures OperandPasses(tags, TagRef(t.tagId, Some(member)), Rules(m)[k]) <==>
            && HasMember(t.dataType, member) && Takes(m, k, if member == PRE || member == ACC then DINT else BOOL)
            && (IsSource(m, k) || (t.writable && member == PRE))
  {
    RuleIs(m, k);
    Members(t.dataType, member);
    hide Find, Rules, Takes, IsSource, Count, HasMember, MemberDataType;
    var rule := Rules(m)[k];
    assert t.dataType in rule.types <==> Takes(m, k, t.dataType);
    assert MemberDataType(member) in rule.types <==> Takes(m, k, MemberDataType(member));
  }

  /** A name that is no tag passes nowhere. */
  lemma {:induction false} UnknownFails(tags: seq<SourceTag>, id: nat, m: Mnemonic, k: nat, member: Option<Member>)
    requires k < |Rules(m)| && forall t | t in tags :: t.tagId != id
    ensures !OperandPasses(tags, TagRef(id, member), Rules(m)[k])
  {
    NotFound(tags, id);
  }

  lemma {:induction false} NotFound(tags: seq<SourceTag>, id: nat)
    requires forall t | t in tags :: t.tagId != id
    ensures Find(tags, id).None?
    decreases |tags|
  {
    if tags != [] {
      assert tags[|tags| - 1] in tags;
      NotFound(tags[..|tags| - 1], id);
    }
  }
}
