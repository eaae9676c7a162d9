/** The runtime's store as the world of a project: which tag number is which tag, and that operands and
 *  updates mean the same on both sides. */
module LadderState {
  import opened Bytes
  import opened Instructions
  import opened ControlFlow
  import opened Semantics
  import opened Source
  import opened Lowering
  import opened Validation
  import opened Compiled
  import opened InstructionLaws
  import LM = LadderMeaning

  // ----- the relation -----

  /** Tag n of the store is the n-th tag of the project, under its force. */
  predicate SameTag(t: SourceTag, directions: Directions, st: Store, w: LM.World, n: nat)
    requires n < |st.tags|
  {
    && st.tags[n].storage == StorageCode(Direction(directions, t.tagId))
    && TypeCode(st.tags[n].data) == DataTypeCode(t.dataType)
    && t.tagId in w.data && w.data[t.tagId] == st.tags[n].data
    && match st.forces[n]
       case None => t.tagId !in w.forces
       case Some(v) => t.tagId in w.forces && w.forces[t.tagId] == v && ValueCode(v) == DataTypeCode(t.dataType)
  }

  predicate SameShot(shot: LM.Shot, st: Store, n: nat)
    requires n < |st.tags|
  {
    && st.tags[n] == Tag(0, BoolD(shot.stored)) && st.forces[n] == shot.force
    && (shot.force.Some? ==> shot.force.value.BoolV?)
  }

  predicate SameMark(m: LM.Mark, r: StateRecord, k: nat) {
    r.slot == k && r.edge == m.edge && r.valid == m.timing && r.time == m.since
  }

  /** The store holds the world: first the tags of the project in the order of their identities, then
   *  the storage of the bare one-shots, and one record for each instruction that remembers. */
  predicate Represents(sorted: seq<SourceTag>, directions: Directions, st: Store, w: LM.World) {
    && DistinctIds(sorted) && |st.tags| == |sorted| + |w.shots| && |st.states| == |w.marks|
    && (forall n | 0 <= n < |sorted| :: SameTag(sorted[n], directions, st, w, n))
    && (forall k | 0 <= k < |w.shots| :: SameShot(w.shots[k], st, |sorted| + k))
    && (forall k | 0 <= k < |w.marks| :: SameMark(w.marks[k], st.states[k], k))
    && (forall id | id in w.data :: exists n :: 0 <= n < |sorted| && sorted[n].tagId == id)
  }

  lemma {:induction false} SortedDistinct(tags: seq<SourceTag>)
    requires DistinctIds(tags)
    ensures DistinctIds(SortTags(tags))
  {
    SortSorts(tags);
    StaysDistinct(tags, SortTags(tags));
  }

  // ----- updates -----

  /** One tag gets new data of its type. */
  lemma {:induction false} DataChanges(
      sorted: seq<SourceTag>, directions: Directions, st: Store, w: LM.World, st1: Store, n: nat, d: Data)
    requires Represents(sorted, directions, st, w) && n < |sorted|
    requires OnlyTag(st, st1, n) && st1.states == st.states && st1.tags[n].data == d
    requires TypeCode(d) == TypeCode(st.tags[n].data)
    ensures Represents(sorted, directions, st1, w.(data := w.data[sorted[n].tagId := d]))
  {
    var id := sorted[n].tagId;
    var w1 := w.(data := w.data[id := d]);
    forall m | 0 <= m < |sorted|
      ensures SameTag(sorted[m], directions, st1, w1, m)
    {
      assert SameTag(sorted[m], directions, st, w, m);
      assert m != n ==> sorted[m].tagId != id;
    }
    forall k | 0 <= k < |w1.shots|
      ensures SameShot(w1.shots[k], st1, |sorted| + k)
    {
      assert SameShot(w.shots[k], st, |sorted| + k);
    }
  }

  lemma {:induction false} ValueStored(
      sorted: seq<SourceTag>, directions: Directions, st: Store, w: LM.World, e: Effect<Store, FaultRecord>, n: nat,
      v: Value, power: bool)
    requires Represents(sorted, directions, st, w) && n < |sorted|
    requires Assigns(e, st, n, v, power) && ValueCode(v) == TypeCode(st.tags[n].data)
    ensures Represents(sorted, directions, e.st, LM.Assigned(w, sorted[n].tagId, v))
  {
    DataChanges(sorted, directions, st, w, e.st, n, e.st.tags[n].data);
  }

  /** One tag and one record change together. */
  lemma {:induction false} RecordChanges(
      sorted: seq<SourceTag>, directions: Directions, st: Store, w: LM.World, e: Effect<Store, FaultRecord>, n: nat,
      d: Data, k: nat, r: StateRecord, power: bool, m: LM.Mark)
    requires Represents(sorted, directions, st, w) && n < |sorted|
    requires Leaves(e, st, n, d, k, r, power) && TypeCode(d) == TypeCode(st.tags[n].data) && SameMark(m, r, k)
    ensures Represents(sorted, directions, e.st, w.(data := w.data[sorted[n].tagId := d], marks := w.marks[k := m]))
  {
    var st0 := e.st.(states := st.states);
    DataChanges(sorted, directions, st, w, st0, n, d);
    var w0 := w.(data := w.data[sorted[n].tagId := d]);
    RecordsChange(sorted, directions, st0, w0, e.st, w0.marks[k := m]);
  }

  /** The records change, and nothing else. */
  lemma {:induction false} RecordsChange(
      sorted: seq<SourceTag>, directions: Directions, st: Store, w: LM.World, st1: Store, marks: seq<LM.Mark>)
    requires Represents(sorted, directions, st, w) && st1 == st.(states := st1.states)
    requires |marks| == |w.marks| == |st1.states| && forall k | 0 <= k < |marks| :: SameMark(marks[k], st1.states[k], k)
    ensures Represents(sorted, directions, st1, w.(marks := marks))
  {
    forall m | 0 <= m < |sorted|
      ensures SameTag(sorted[m], directions, st1, w.(marks := marks), m)
    {
      assert SameTag(sorted[m], directions, st, w, m);
    }
    forall k | 0 <= k < |w.shots|
      ensures SameShot(w.shots[k], st1, |sorted| + k)
    {
      assert SameShot(w.shots[k], st, |sorted| + k);
    }
  }

  /** A bare one-shot stores its input. */
  lemma {:induction false} ShotStored(
      sorted: seq<SourceTag>, directions: Directions, st: Store, w: LM.World, e: Effect<Store, FaultRecord>, k: nat,
      b: bool, power: bool)
    requires Represents(sorted, directions, st, w) && k < |w.shots|
    requires Assigns(e, st, |sorted| + k, BoolV(b), power)
    ensures Represents(sorted, directions, e.st, w.(shots := w.shots[k := LM.Shot(b, w.shots[k].force)]))
  {
    var st1 := e.st;
    var w1 := w.(shots := w.shots[k := LM.Shot(b, w.shots[k].force)]);
    assert SameShot(w.shots[k], st, |sorted| + k);
    forall m | 0 <= m < |sorted|
      ensures SameTag(sorted[m], directions, st1, w1, m)
    {
      assert SameTag(sorted[m], directions, st, w, m);
    }
    forall j | 0 <= j < |w1.shots|
      ensures SameShot(w1.shots[j], st1, |sorted| + j)
    {
      assert SameShot(w.shots[j], st, |sorted| + j);
    }
  }

  // ----- operands -----

  /** A tag that passes has its number, and the number is its place in the store. */
  lemma {:induction false} TagPlace(
      tags: seq<SourceTag>, directions: Directions, st: Store, w: LM.World, id: nat)
    requires DistinctIds(tags) && Represents(SortTags(tags), directions, st, w) && Find(tags, id).Some?
    ensures var sorted := SortTags(tags);
            var n := IndexOf(sorted, id);
            && HasTag(sorted, id) && n < |sorted| && sorted[n].tagId == id && sorted[n] == Find(tags, id).value
            && SameTag(sorted[n], directions, st, w, n)
  {
    FindInSorted(tags, id);
    IndexFinds(SortTags(tags), id);
  }

  function Seen(tags: seq<SourceTag>, o: SourceOperand): Operand
    requires o.TagRef? ==> HasTag(SortTags(tags), o.tagId)
  {
    AssembleOperand(LowerOperand(SortTags(tags), o))
  }

  /** What an operand reads as in the project is what its record denotes in the store. */
  lemma {:induction false} OperandDenotes(
      tags: seq<SourceTag>, directions: Directions, st: Store, w: LM.World, o: SourceOperand, rule: Rule, v: Value)
    requires DistinctIds(tags) && Represents(SortTags(tags), directions, st, w) && OperandPasses(tags, o, rule)
    requires LM.Reading(w, o) == Some(v)
    ensures o.TagRef? ==> HasTag(SortTags(tags), o.tagId)
    ensures Denotes(st, Seen(tags, o), v)
  {
    if o.TagRef? {
      TagPlace(tags, directions, st, w, o.tagId);
      var n := IndexOf(SortTags(tags), o.tagId);
      var t := SortTags(tags)[n];
      hide Represents, DistinctIds, SortTags, Denotes, OperandPasses, LM.Reading, HasTag;
      assert Seen(tags, o).kind == 1 && Seen(tags, o).raw == n && Seen(tags, o).member == MemberCode(o.member);
      TagDenotes(t, directions, st, w, n, o.member, Seen(tags, o), v);
    } else {
      LiteralDenotes(tags, st, w, o, v);
    }
  }

  lemma {:induction false} LiteralDenotes(tags: seq<SourceTag>, st: Store, w: LM.World, o: SourceOperand, v: Value)
    requires o.LiteralOf? && LM.Reading(w, o) == Some(v)
    ensures Denotes(st, Seen(tags, o), v)
  {
  }

  lemma {:induction false} TagDenotes(
      t: SourceTag, directions: Directions, st: Store, w: LM.World, n: nat, member: Option<Member>, a: Operand,
      v: Value)
    requires n < |st.tags| && SameTag(t, directions, st, w, n) && LM.Reading(w, TagRef(t.tagId, member)) == Some(v)
    requires a.kind == 1 && a.raw == n && a.member == MemberCode(member)
    ensures Denotes(st, a, v)
  {
  }

  /** It reads as something, of the type the gate has seen. */
  lemma {:induction false} OperandReadsAs(
      tags: seq<SourceTag>, directions: Directions, st: Store, w: LM.World, o: SourceOperand, rule: Rule)
    requires DistinctIds(tags) && Represents(SortTags(tags), directions, st, w) && OperandPasses(tags, o, rule)
    requires rule.types <= {BOOL, DINT, REAL} && o != LiteralOf(WideReal)
    ensures LM.Reading(w, o).Some?
    ensures o.TagRef? ==> rule.types == {BOOL} ==> LM.Reading(w, o).value.BoolV?
    ensures o.TagRef? ==> rule.types == {DINT, REAL} ==> !LM.Reading(w, o).value.BoolV?
  {
    if o.TagRef? {
      TagPlace(tags, directions, st, w, o.tagId);
      var n := IndexOf(SortTags(tags), o.tagId);
      PassingType(tags, o, rule);
      hide Represents, DistinctIds, SortTags, LM.Reading, OperandPasses, Find;
      TagReadsAs(SortTags(tags)[n], directions, st, w, n, o.member);
    }
  }

  /** The type the gate has seen. */
  lemma {:induction false} PassingType(tags: seq<SourceTag>, o: SourceOperand, rule: Rule)
    requires OperandPasses(tags, o, rule) && o.TagRef?
    ensures Find(tags, o.tagId).Some?
    ensures var t := Find(tags, o.tagId).value;
            && (o.member.Some? ==> HasMember(t.dataType, o.member.value))
            && (if o.member.Some? then MemberDataType(o.member.value) else t.dataType) in rule.types
  {
  }

  lemma {:induction false} TagReadsAs(
      t: SourceTag, directions: Directions, st: Store, w: LM.World, n: nat, member: Option<Member>)
    requires n < |st.tags| && SameTag(t, directions, st, w, n)
    requires member.Some? ==> HasMember(t.dataType, member.value)
    requires (if member.Some? then MemberDataType(member.value) else t.dataType) in {BOOL, DINT, REAL}
    ensures var r := LM.Reading(w, TagRef(t.tagId, member));
            r.Some? && (r.value.BoolV? <==> (if member.Some? then MemberDataType(member.value) else t.dataType) == BOOL)
  {
  }

  /** A destination that deploys is a plain tag of the project, writable in the store. */
  lemma {:induction false} PlainDestination(
      tags: seq<SourceTag>, directions: Directions, st: Store, w: LM.World, m: Mnemonic, o: SourceOperand, rule: Rule)
    requires DistinctIds(tags) && Represents(SortTags(tags), directions, st, w) && OperandPasses(tags, o, rule)
    requires OperandDeploys(directions, m, o, rule) && rule.writable && !HasStateTag(m)
    ensures o.TagRef? && o.member.None? && HasTag(SortTags(tags), o.tagId)
    ensures var n, a := IndexOf(SortTags(tags), o.tagId), Seen(tags, o);
            && LM.Named(w, o) == Some(o.tagId) && n < |SortTags(tags)| && SortTags(tags)[n].tagId == o.tagId
            && a == Operand(1, DataTypeCode(SortTags(tags)[n].dataType), 0, n) && w.data[o.tagId] == st.tags[n].data
            && SortTags(tags)[n].dataType in rule.types
              && TypeCode(st.tags[n].data) == DataTypeCode(SortTags(tags)[n].dataType)
            && forall v: Value | ValueCode(v) == TypeCode(st.tags[n].data) :: Destination(st, a, v)
  {
    TagPlace(tags, directions, st, w, o.tagId);
  }
}
