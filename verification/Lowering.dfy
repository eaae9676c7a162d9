/** Lowering a controller: tag numbering, branch bracketing, hidden one-shot storage, state slots
 *  and the rung table. */
module Lowering {
  import opened Bytes
  import opened Instructions
  import opened LadderTree
  import opened ControlFlow
  import opened Admission
  import opened Source

  // ----- tag order -----

  function Insert(t: SourceTag, sorted: seq<SourceTag>): seq<SourceTag> {
    if sorted == [] || t.tagId < sorted[0].tagId then [t] + sorted else [sorted[0]] + Insert(t, sorted[1..])
  }

  /** The tags in the order of their identities; a tag's number is its place here. */
  function SortTags(tags: seq<SourceTag>): seq<SourceTag> {
    if tags == [] then [] else Insert(tags[|tags| - 1], SortTags(tags[..|tags| - 1]))
  }

  predicate Ascending(tags: seq<SourceTag>) {
    forall j, k | 0 <= j < k < |tags| :: tags[j].tagId <= tags[k].tagId
  }

  predicate DistinctIds(tags: seq<SourceTag>) {
    forall j, k | 0 <= j < k < |tags| :: tags[j].tagId != tags[k].tagId
  }

  lemma {:induction false} AscendingCons(t: SourceTag, rest: seq<SourceTag>)
    requires Ascending(rest) && forall k | 0 <= k < |rest| :: t.tagId <= rest[k].tagId
    ensures Ascending([t] + rest)
  {
    var all := [t] + rest;
    assert forall k | 1 <= k < |all| :: all[k] == rest[k - 1];
  }

  lemma {:induction false} InsertSorts(t: SourceTag, sorted: seq<SourceTag>)
    requires Ascending(sorted)
    ensures Ascending(Insert(t, sorted)) && multiset(Insert(t, sorted)) == multiset(sorted) + multiset{t}
    decreases |sorted|
  {
    hide Ascending;
    if sorted == [] || t.tagId < sorted[0].tagId {
      InsertsFirst(t, sorted);
    } else {
      TailsInherit(sorted);
      InsertSorts(t, sorted[1..]);
      var rest := Insert(t, sorted[1..]);
      InsertsLater(t, sorted, rest);
    }
  }

  lemma {:induction false} InsertsFirst(t: SourceTag, sorted: seq<SourceTag>)
    requires Ascending(sorted) && (sorted == [] || t.tagId < sorted[0].tagId)
    ensures Ascending([t] + sorted) && multiset([t] + sorted) == multiset(sorted) + multiset{t}
  {
    AscendingCons(t, sorted);
  }

  lemma {:induction false} InsertsLater(t: SourceTag, sorted: seq<SourceTag>, rest: seq<SourceTag>)
    requires sorted != [] && t.tagId >= sorted[0].tagId && Ascending(sorted) && Ascending(rest)
    requires multiset(rest) == multiset(sorted[1..]) + multiset{t}
    ensures Ascending([sorted[0]] + rest) && multiset([sorted[0]] + rest) == multiset(sorted) + multiset{t}
  {
    assert sorted == [sorted[0]] + sorted[1..];
    forall k | 0 <= k < |rest|
      ensures sorted[0].tagId <= rest[k].tagId
    {
      assert rest[k] in multiset(rest);
      assert rest[k] == t || rest[k] in sorted[1..];
    }
    AscendingCons(sorted[0], rest);
  }

  lemma {:induction false} SortSorts(tags: seq<SourceTag>)
    ensures Ascending(SortTags(tags)) && multiset(SortTags(tags)) == multiset(tags)
    decreases |tags|
  {
    if tags != [] {
      var n := |tags| - 1;
      SortSorts(tags[..n]);
      InsertSorts(tags[n], SortTags(tags[..n]));
      assert tags == tags[..n] + [tags[n]];
    }
  }

  lemma {:induction false} SortedSize(tags: seq<SourceTag>)
    ensures |SortTags(tags)| == |tags|
  {
    SortSorts(tags);
    assert |SortTags(tags)| == |multiset(SortTags(tags))| == |multiset(tags)| == |tags|;
  }

  /** A list in strictly ascending order is determined by its elements. */
  lemma {:induction false} SortedUnique(a: seq<SourceTag>, b: seq<SourceTag>)
    requires Ascending(a) && Ascending(b) && DistinctIds(a) && multiset(a) == multiset(b)
    ensures a == b
    decreases |a|
  {
    if a == [] {
      assert |multiset(b)| == 0;
    } else {
      SameLength(a, b);
      SameHead(a, b);
      TailsAgree(a, b);
      hide Ascending, DistinctIds;
      TailsInherit(a);
      TailsInherit(b);
      SortedUnique(a[1..], b[1..]);
      assert a == [a[0]] + a[1..] && b == [b[0]] + b[1..];
    }
  }

  lemma {:induction false} SameLength(a: seq<SourceTag>, b: seq<SourceTag>)
    requires multiset(a) == multiset(b)
    ensures |a| == |b|
  {
    assert |a| == |multiset(a)| && |b| == |multiset(b)|;
  }

  lemma {:induction false} MultisetTail(a: seq<SourceTag>)
    requires a != []
    ensures multiset(a) == multiset{a[0]} + multiset(a[1..])
  {
    assert a == [a[0]] + a[1..];
  }

  lemma {:induction false} TailsAgree(a: seq<SourceTag>, b: seq<SourceTag>)
    requires a != [] && b != [] && a[0] == b[0] && multiset(a) == multiset(b)
    ensures multiset(a[1..]) == multiset(b[1..])
  {
    MultisetTail(a);
    MultisetTail(b);
    assert multiset(a[1..]) == multiset(a) - multiset{a[0]};
    assert multiset(b[1..]) == multiset(b) - multiset{b[0]};
  }

  lemma {:induction false} TailsInherit(a: seq<SourceTag>)
    requires a != []
    ensures Ascending(a) ==> Ascending(a[1..])
    ensures DistinctIds(a) ==> DistinctIds(a[1..])
  {
  }

  lemma {:induction false} SameHead(a: seq<SourceTag>, b: seq<SourceTag>)
    requires a != [] && b != [] && Ascending(a) && Ascending(b) && DistinctIds(a) && multiset(a) == multiset(b)
    ensures a[0] == b[0]
  {
    assert a[0] in multiset(b) && b[0] in multiset(a);
    var m :| 0 <= m < |b| && b[m] == a[0];
    var n :| 0 <= n < |a| && a[n] == b[0];
    assert b[0].tagId <= b[m].tagId && a[0].tagId <= a[n].tagId;
  }

  /** Declaration order does not matter: permuting a tag list with distinct identities leaves the
   *  sorted list, and with it every tag number, unchanged. */
  lemma {:induction false} OrderIndependent(a: seq<SourceTag>, b: seq<SourceTag>)
    requires DistinctIds(a) && multiset(a) == multiset(b)
    ensures SortTags(a) == SortTags(b)
  {
    SortSorts(a);
    SortSorts(b);
    StaysDistinct(a, SortTags(a));
    SortedUnique(SortTags(a), SortTags(b));
  }

  lemma {:induction false} StaysDistinct(a: seq<SourceTag>, b: seq<SourceTag>)
    requires DistinctIds(a) && multiset(a) == multiset(b)
    ensures DistinctIds(b)
    decreases |a|
  {
    forall j, k | 0 <= j < k < |b|
      ensures b[j].tagId != b[k].tagId
    {
      if b[j] == b[k] {
        var x := b[j];
        assert b == b[..j] + [x] + b[j + 1..k] + [x] + b[k + 1..];
        assert multiset(b)[x] >= 2;
        Twice(a, x);
      } else {
        assert b[j] in multiset(a) && b[k] in multiset(a);
        var m :| 0 <= m < |a| && a[m] == b[j];
        var n :| 0 <= n < |a| && a[n] == b[k];
        assert m < n || n < m;
      }
    }
  }

  lemma {:induction false} Twice(a: seq<SourceTag>, x: SourceTag)
    requires DistinctIds(a)
    ensures multiset(a)[x] <= 1
  {
    if x in a {
      var m :| 0 <= m < |a| && a[m] == x;
      assert a == a[..m] + [x] + a[m + 1..];
      assert x !in a[..m] && x !in a[m + 1..];
    }
  }

  // ----- numbering -----

  /** `len(ins)`, `states` and `len(tags)` as lowering proceeds. */
  datatype Counters = Counters(id: nat, slot: nat, tag: nat)

  /** The number of a tag, or the length of the list if there is none. */
  function IndexOf(sorted: seq<SourceTag>, tagId: nat): nat {
    if sorted == [] then 0 else if sorted[0].tagId == tagId then 0 else 1 + IndexOf(sorted[1..], tagId)
  }

  predicate HasTag(sorted: seq<SourceTag>, tagId: nat) {
    IndexOf(sorted, tagId) < |sorted|
  }

  /** Every tag the tree names exists; lowering runs only on validated projects. */
  predicate TagsExist(sorted: seq<SourceTag>, s: SourceInstr) {
    forall o | o in s.operands && o.TagRef? :: HasTag(sorted, o.tagId)
  }

  predicate AllTagsExist(sorted: seq<SourceTag>, steps: seq<SourceInstr>) {
    forall s | s in steps :: TagsExist(sorted, s)
  }

  function LowerOperand(sorted: seq<SourceTag>, o: SourceOperand): IROperand
    requires o.TagRef? ==> HasTag(sorted, o.tagId)
  {
    match o
    case LiteralOf(l) => IRLiteral(l)
    case TagRef(tagId, member) =>
      var n := IndexOf(sorted, tagId);
      IRTagOperand(match member case None => sorted[n].dataType case Some(m) => MemberDataType(m), n, member)
  }

  /** A one-shot without operand gets a storage tag of its own. */
  predicate NeedsStorage(s: SourceInstr) {
    s.mnemonic == ONS && s.operands == []
  }

  predicate Stateful(m: Mnemonic) {
    m == TON || m == CTU || m == CTD
  }

  function LowerStep(sorted: seq<SourceTag>, s: SourceInstr, c: Counters): IRInstr
    requires TagsExist(sorted, s)
  {
    IRInstr(c.id, Opcode(s.mnemonic),
            if NeedsStorage(s) then [IRTagOperand(BOOL, c.tag, None)]
            else seq(|s.operands|, k requires 0 <= k < |s.operands| => LowerOperand(sorted, s.operands[k])),
            if Stateful(s.mnemonic) then Some(c.slot) else None)
  }

  function AfterStep(s: SourceInstr, c: Counters): Counters {
    Counters(c.id + 1, c.slot + (if Stateful(s.mnemonic) then 1 else 0), c.tag + (if NeedsStorage(s) then 1 else 0))
  }

  function Bump(c: Counters): Counters {
    c.(id := c.id + 1)
  }

  /** The counters after a tree. */
  function After(nodes: seq<Node<SourceInstr>>, c: Counters): Counters
    decreases nodes
  {
    if nodes == [] then c else After(nodes[1..], AfterNode(nodes[0], c))
  }

  function AfterNode(node: Node<SourceInstr>, c: Counters): Counters
    decreases node
  {
    match node
    case Step(s) => AfterStep(s, c)
    case Branch(lanes) => Bump(AfterLanes(lanes, Bump(c)))
  }

  function AfterLanes(lanes: seq<Lane<SourceInstr>>, c: Counters): Counters
    decreases lanes
  {
    if lanes == [] then c else AfterLanes(lanes[1..], AfterLane(lanes[0], c))
  }

  function AfterLane(lane: Lane<SourceInstr>, c: Counters): Counters
    decreases lane
  {
    Bump(After(lane.nodes, Bump(c)))
  }

  /** The tree with each instruction resolved to the record lowering emits for it: this is what a
   *  rung means. Its slot and its storage are its own. */
  function Number(sorted: seq<SourceTag>, nodes: seq<Node<SourceInstr>>, c: Counters): seq<Node<Instr>>
    requires AllTagsExist(sorted, Walk(nodes))
    decreases nodes
  {
    if nodes == [] then [] else
      assert forall s | s in WalkNode(nodes[0]) :: s in Walk(nodes);
      assert forall s | s in Walk(nodes[1..]) :: s in Walk(nodes);
      [NumberNode(sorted, nodes[0], c)] + Number(sorted, nodes[1..], AfterNode(nodes[0], c))
  }

  function NumberNode(sorted: seq<SourceTag>, node: Node<SourceInstr>, c: Counters): Node<Instr>
    requires AllTagsExist(sorted, WalkNode(node))
    decreases node
  {
    match node
    case Step(s) =>
      assert s in WalkNode(node);
      Step(Assemble(LowerStep(sorted, s, c)))
    case Branch(lanes) => Branch(NumberLanes(sorted, lanes, Bump(c)))
  }

  function NumberLanes(sorted: seq<SourceTag>, lanes: seq<Lane<SourceInstr>>, c: Counters): seq<Lane<Instr>>
    requires AllTagsExist(sorted, WalkLanes(lanes))
    decreases lanes
  {
    if lanes == [] then [] else
      assert forall s | s in Walk(lanes[0].nodes) :: s in WalkLanes(lanes);
      assert forall s | s in WalkLanes(lanes[1..]) :: s in WalkLanes(lanes);
      [NumberLane(sorted, lanes[0], c)] + NumberLanes(sorted, lanes[1..], AfterLane(lanes[0], c))
  }

  function NumberLane(sorted: seq<SourceTag>, lane: Lane<SourceInstr>, c: Counters): Lane<Instr>
    requires AllTagsExist(sorted, Walk(lane.nodes))
    decreases lane
  {
    Lane(Number(sorted, lane.nodes, Bump(c)))
  }

  /** The stream lowering emits for a tree. */
  function Lowered(sorted: seq<SourceTag>, nodes: seq<Node<SourceInstr>>, c: Counters): seq<Instr>
    requires AllTagsExist(sorted, Walk(nodes))
  {
    Flatten(Number(sorted, nodes, c), c.id)
  }

  // ----- the record numbers of the stream -----

  lemma {:induction false} LoweredLength(sorted: seq<SourceTag>, nodes: seq<Node<SourceInstr>>, c: Counters)
    requires AllTagsExist(sorted, Walk(nodes))
    ensures |Lowered(sorted, nodes, c)| == After(nodes, c).id - c.id
    decreases nodes
  {
    if nodes != [] {
      assert forall s | s in WalkNode(nodes[0]) :: s in Walk(nodes);
      assert forall s | s in Walk(nodes[1..]) :: s in Walk(nodes);
      LoweredNodeLength(sorted, nodes[0], c);
      LoweredLength(sorted, nodes[1..], AfterNode(nodes[0], c));
      assert Number(sorted, nodes, c)[1..] == Number(sorted, nodes[1..], AfterNode(nodes[0], c));
    }
  }

  lemma {:induction false} LoweredNodeLength(sorted: seq<SourceTag>, node: Node<SourceInstr>, c: Counters)
    requires AllTagsExist(sorted, WalkNode(node))
    ensures |FlattenNode(NumberNode(sorted, node, c), c.id)| == AfterNode(node, c).id - c.id
    decreases node
  {
    if node.Branch? {
      LoweredLanesLength(sorted, node.lanes, Bump(c));
    }
  }

  lemma {:induction false} LoweredLanesLength(sorted: seq<SourceTag>, lanes: seq<Lane<SourceInstr>>, c: Counters)
    requires AllTagsExist(sorted, WalkLanes(lanes))
    ensures |FlattenLanes(NumberLanes(sorted, lanes, c), c.id)| == AfterLanes(lanes, c).id - c.id
    decreases lanes
  {
    if lanes != [] {
      assert forall s | s in Walk(lanes[0].nodes) :: s in WalkLanes(lanes);
      assert forall s | s in WalkLanes(lanes[1..]) :: s in WalkLanes(lanes);
      LoweredLength(sorted, lanes[0].nodes, Bump(c));
      LoweredLanesLength(sorted, lanes[1..], AfterLane(lanes[0], c));
      assert NumberLanes(sorted, lanes, c)[1..] == NumberLanes(sorted, lanes[1..], AfterLane(lanes[0], c));
    }
  }

  lemma {:induction false} TagsOfHead(sorted: seq<SourceTag>, nodes: seq<Node<SourceInstr>>)
    requires nodes != [] && AllTagsExist(sorted, Walk(nodes))
    ensures AllTagsExist(sorted, WalkNode(nodes[0])) && AllTagsExist(sorted, Walk(nodes[1..]))
  {
    hide TagsExist, WalkNode;
    assert forall s | s in WalkNode(nodes[0]) :: s in Walk(nodes);
    assert forall s | s in Walk(nodes[1..]) :: s in Walk(nodes);
  }

  lemma {:induction false} NumberUnfolds(sorted: seq<SourceTag>, nodes: seq<Node<SourceInstr>>, c: Counters)
    requires nodes != [] && AllTagsExist(sorted, Walk(nodes))
    requires AllTagsExist(sorted, WalkNode(nodes[0])) && AllTagsExist(sorted, Walk(nodes[1..]))
    ensures Number(sorted, nodes, c)
            == [NumberNode(sorted, nodes[0], c)] + Number(sorted, nodes[1..], AfterNode(nodes[0], c))
  {
    hide NumberNode, AfterNode, AllTagsExist, Walk, WalkNode;
  }

  /** Unfolding the stream one node at a time, as the compiler emits it. */
  lemma {:induction false} LoweredHead(sorted: seq<SourceTag>, nodes: seq<Node<SourceInstr>>, c: Counters)
    requires nodes != [] && AllTagsExist(sorted, Walk(nodes))
    ensures AllTagsExist(sorted, WalkNode(nodes[0])) && AllTagsExist(sorted, Walk(nodes[1..]))
    ensures Lowered(sorted, nodes, c)
         == FlattenNode(NumberNode(sorted, nodes[0], c), c.id) + Lowered(sorted, nodes[1..], AfterNode(nodes[0], c))
  {
    hide Number, NumberNode, AfterNode, Flatten, FlattenNode, AllTagsExist, Walk, WalkNode;
    TagsOfHead(sorted, nodes);
    NumberUnfolds(sorted, nodes, c);
    LoweredNodeLength(sorted, nodes[0], c);
    FlattenHead(NumberNode(sorted, nodes[0], c), Number(sorted, nodes[1..], AfterNode(nodes[0], c)), c.id);
  }

  lemma {:induction false} FlattenHead(node: Node<Instr>, rest: seq<Node<Instr>>, id: nat)
    ensures Flatten([node] + rest, id) == FlattenNode(node, id) + Flatten(rest, id + |FlattenNode(node, id)|)
  {
    assert ([node] + rest)[1..] == rest;
  }

  lemma {:induction false} TagsOfLanes(sorted: seq<SourceTag>, lanes: seq<Lane<SourceInstr>>)
    requires lanes != [] && AllTagsExist(sorted, WalkLanes(lanes))
    ensures AllTagsExist(sorted, Walk(lanes[0].nodes)) && AllTagsExist(sorted, WalkLanes(lanes[1..]))
  {
    hide TagsExist, Walk;
    assert forall s | s in Walk(lanes[0].nodes) :: s in WalkLanes(lanes);
    assert forall s | s in WalkLanes(lanes[1..]) :: s in WalkLanes(lanes);
  }

  lemma {:induction false} LanesUnfold(sorted: seq<SourceTag>, lanes: seq<Lane<SourceInstr>>, c: Counters)
    requires lanes != [] && AllTagsExist(sorted, WalkLanes(lanes))
    requires AllTagsExist(sorted, Walk(lanes[0].nodes)) && AllTagsExist(sorted, WalkLanes(lanes[1..]))
    ensures NumberLanes(sorted, lanes, c)
            == [NumberLane(sorted, lanes[0], c)] + NumberLanes(sorted, lanes[1..], AfterLane(lanes[0], c))
  {
    hide NumberLane, AfterLane, AllTagsExist, Walk, WalkLanes;
  }

  lemma {:induction false} LaneLength(sorted: seq<SourceTag>, lane: Lane<SourceInstr>, c: Counters)
    requires AllTagsExist(sorted, Walk(lane.nodes))
    ensures |FlattenLane(NumberLane(sorted, lane, c), c.id)| == AfterLane(lane, c).id - c.id
  {
    LoweredLength(sorted, lane.nodes, Bump(c));
    hide Number, After, Flatten, Walk, AllTagsExist;
  }

  lemma {:induction false} LoweredLanesHead(sorted: seq<SourceTag>, lanes: seq<Lane<SourceInstr>>, c: Counters)
    requires lanes != [] && AllTagsExist(sorted, WalkLanes(lanes))
    ensures AllTagsExist(sorted, Walk(lanes[0].nodes)) && AllTagsExist(sorted, WalkLanes(lanes[1..]))
    ensures FlattenLanes(NumberLanes(sorted, lanes, c), c.id)
         == FlattenLane(NumberLane(sorted, lanes[0], c), c.id)
           + FlattenLanes(NumberLanes(sorted, lanes[1..], AfterLane(lanes[0], c)), AfterLane(lanes[0], c).id)
  {
    hide NumberLanes, NumberLane, AfterLane, FlattenLanes, FlattenLane, AllTagsExist, Walk, WalkLanes;
    TagsOfLanes(sorted, lanes);
    LanesUnfold(sorted, lanes, c);
    LaneLength(sorted, lanes[0], c);
    FlattenLanesHead(NumberLane(sorted, lanes[0], c), NumberLanes(sorted, lanes[1..], AfterLane(lanes[0], c)), c.id);
  }

  lemma {:induction false} FlattenLanesHead(lane: Lane<Instr>, rest: seq<Lane<Instr>>, id: nat)
    ensures FlattenLanes([lane] + rest, id) == FlattenLane(lane, id) + FlattenLanes(rest, id + |FlattenLane(lane, id)|)
  {
    assert ([lane] + rest)[1..] == rest;
  }

  // ----- whole controllers -----

  const HIDDEN := IRTag(BOOL, INTERNAL, Some(BoolLit(false)), false)

  function HiddenTags(n: nat): seq<IRTag> {
    seq(n, _ => HIDDEN)
  }

  /** Only hidden one-shot storage was added. */
  predicate AddsHidden(before: seq<IRTag>, tags: seq<IRTag>) {
    |before| <= |tags| && tags == before + HiddenTags(|tags| - |before|)
  }

  function DeclareTag(t: SourceTag, directions: Directions): IRTag {
    IRTag(t.dataType, if t.tagId in directions then directions[t.tagId] else INTERNAL,
          if t.initial.Some? then t.initial else (match t.preset case None => None case Some(v) => Some(DintLit(v))),
          t.retentive)
  }

  function DeclareTags(sorted: seq<SourceTag>, directions: Directions): seq<IRTag> {
    seq(|sorted|, k requires 0 <= k < |sorted| => DeclareTag(sorted[k], directions))
  }

  /** A rung with the number of its routine. */
  datatype Placed = Placed(routine: nat, rung: Rung)

  function PlaceRungs(rungs: seq<Rung>, routine: nat): seq<Placed> {
    seq(|rungs|, k requires 0 <= k < |rungs| => Placed(routine, rungs[k]))
  }

  /** All rungs in order; routines are numbered from first on. */
  function AllRungs(routines: seq<seq<Rung>>, first: nat): seq<Placed> {
    if routines == [] then [] else PlaceRungs(routines[0], first) + AllRungs(routines[1..], first + 1)
  }

  predicate RungTagsExist(sorted: seq<SourceTag>, rungs: seq<Placed>) {
    forall r | r in rungs :: AllTagsExist(sorted, Walk(r.rung))
  }

  function AfterRungs(rungs: seq<Placed>, c: Counters): Counters {
    if rungs == [] then c else AfterRungs(rungs[1..], After(rungs[0].rung, c))
  }

  /** The streams of the rungs, one after the other. */
  function LoweredRungs(sorted: seq<SourceTag>, rungs: seq<Placed>, c: Counters): seq<Instr>
    requires RungTagsExist(sorted, rungs)
  {
    if rungs == [] then []
    else Lowered(sorted, rungs[0].rung, c) + LoweredRungs(sorted, rungs[1..], After(rungs[0].rung, c))
  }

  /** The rung table: where each rung starts and how many records it has. */
  function RungTable(rungs: seq<Placed>, c: Counters): seq<IRRung>
  {
    if rungs == [] then []
    else
      var end := After(rungs[0].rung, c);
      AfterGrows(rungs[0].rung, c);
      [IRRung(rungs[0].routine, c.id, end.id - c.id)] + RungTable(rungs[1..], end)
  }

  lemma {:induction false} AfterGrows(nodes: seq<Node<SourceInstr>>, c: Counters)
    ensures After(nodes, c).id >= c.id + |nodes| && After(nodes, c).slot >= c.slot && After(nodes, c).tag >= c.tag
    decreases nodes
  {
    if nodes != [] {
      AfterNodeGrows(nodes[0], c);
      AfterGrows(nodes[1..], AfterNode(nodes[0], c));
    }
  }

  lemma {:induction false} AfterNodeGrows(node: Node<SourceInstr>, c: Counters)
    ensures AfterNode(node, c).id > c.id && AfterNode(node, c).slot >= c.slot && AfterNode(node, c).tag >= c.tag
    decreases node
  {
    if node.Branch? {
      AfterLanesGrows(node.lanes, Bump(c));
    }
  }

  lemma {:induction false} AfterLanesGrows(lanes: seq<Lane<SourceInstr>>, c: Counters)
    ensures AfterLanes(lanes, c).id >= c.id && AfterLanes(lanes, c).slot >= c.slot && AfterLanes(lanes, c).tag >= c.tag
    decreases lanes
  {
    if lanes != [] {
      AfterGrows(lanes[0].nodes, Bump(c));
      AfterLanesGrows(lanes[1..], AfterLane(lanes[0], c));
    }
  }

  function CountBranches(nodes: seq<Node<SourceInstr>>): nat
    decreases nodes
  {
    if nodes == [] then 0 else CountBranchesNode(nodes[0]) + CountBranches(nodes[1..])
  }

  function CountBranchesNode(node: Node<SourceInstr>): nat
    decreases node
  {
    match node
    case Step(_) => 0
    case Branch(lanes) => 1 + CountBranchesLanes(lanes)
  }

  function CountBranchesLanes(lanes: seq<Lane<SourceInstr>>): nat
    decreases lanes
  {
    if lanes == [] then 0 else CountBranches(lanes[0].nodes) + CountBranchesLanes(lanes[1..])
  }

  function CountBranchesRungs(rungs: seq<Placed>): nat {
    if rungs == [] then 0 else CountBranches(rungs[0].rung) + CountBranchesRungs(rungs[1..])
  }

  // ----- literals -----

  function OperandLiterals(operands: seq<IROperand>): seq<Literal> {
    if operands == [] then [] else
      (if operands[0].IRLiteral? then [operands[0].lit] else []) + OperandLiterals(operands[1..])
  }

  /** The literals of the records, in order. */
  function IRLiterals(ins: seq<IRInstr>): seq<Literal> {
    if ins == [] then [] else OperandLiterals(ins[0].operands) + IRLiterals(ins[1..])
  }

  function StepLiterals(operands: seq<SourceOperand>): seq<Literal> {
    if operands == [] then [] else
      (if operands[0].LiteralOf? then [operands[0].lit] else []) + StepLiterals(operands[1..])
  }

  /** The literals of instructions, in order. */
  function SourceLiterals(steps: seq<SourceInstr>): seq<Literal> {
    if steps == [] then [] else StepLiterals(steps[0].operands) + SourceLiterals(steps[1..])
  }

  function AllSteps(rungs: seq<Placed>): seq<SourceInstr> {
    if rungs == [] then [] else Walk(rungs[0].rung) + AllSteps(rungs[1..])
  }

  lemma {:induction false} IRLiteralsAppend(a: seq<IRInstr>, b: seq<IRInstr>)
    ensures IRLiterals(a + b) == IRLiterals(a) + IRLiterals(b)
    decreases |a|
  {
    if a == [] {
      assert a + b == b;
    } else {
      assert (a + b)[0] == a[0] && (a + b)[1..] == a[1..] + b;
      IRLiteralsAppend(a[1..], b);
    }
  }

  lemma {:induction false} SourceLiteralsAppend(a: seq<SourceInstr>, b: seq<SourceInstr>)
    ensures SourceLiterals(a + b) == SourceLiterals(a) + SourceLiterals(b)
    decreases |a|
  {
    if a == [] {
      assert a + b == b;
    } else {
      assert (a + b)[0] == a[0] && (a + b)[1..] == a[1..] + b;
      SourceLiteralsAppend(a[1..], b);
    }
  }

  lemma {:induction false} AllStepsAppend(a: seq<Placed>, b: seq<Placed>)
    ensures AllSteps(a + b) == AllSteps(a) + AllSteps(b)
    decreases |a|
  {
    if a == [] {
      assert a + b == b;
    } else {
      assert (a + b)[0] == a[0] && (a + b)[1..] == a[1..] + b;
      AllStepsAppend(a[1..], b);
    }
  }

  lemma {:induction false} SameLiterals(sorted: seq<SourceTag>, source: seq<SourceOperand>, lowered: seq<IROperand>)
    requires |source| == |lowered|
    requires forall k | 0 <= k < |source| :: source[k].TagRef? ==> HasTag(sorted, source[k].tagId)
    requires forall k | 0 <= k < |source| :: lowered[k] == LowerOperand(sorted, source[k])
    ensures OperandLiterals(lowered) == StepLiterals(source)
    decreases |source|
  {
    if source != [] {
      SameLiterals(sorted, source[1..], lowered[1..]);
    }
  }

  /** A record has the literals of its instruction. */
  lemma {:induction false} StepKeepsLiterals(sorted: seq<SourceTag>, s: SourceInstr, c: Counters)
    requires TagsExist(sorted, s)
    ensures IRLiterals([LowerStep(sorted, s, c)]) == SourceLiterals([s]) == StepLiterals(s.operands)
  {
    var i := LowerStep(sorted, s, c);
    assert [i][1..] == [] && [s][1..] == [];
    assert OperandLiterals(i.operands) == StepLiterals(s.operands) by {
      if NeedsStorage(s) {
        assert i.operands[1..] == [] && OperandLiterals([]) == [];
      } else {
        SameLiterals(sorted, s.operands, i.operands);
      }
    }
    assert IRLiterals([]) == [] && SourceLiterals([]) == [];
    assert StepLiterals(s.operands) + [] == StepLiterals(s.operands);
  }

  lemma {:induction false} LiteralsHead(nodes: seq<Node<SourceInstr>>)
    requires nodes != []
    ensures SourceLiterals(Walk(nodes)) == SourceLiterals(WalkNode(nodes[0])) + SourceLiterals(Walk(nodes[1..]))
  {
    SourceLiteralsAppend(WalkNode(nodes[0]), Walk(nodes[1..]));
  }

  lemma {:induction false} LaneLiteralsHead(lanes: seq<Lane<SourceInstr>>)
    requires lanes != []
    ensures SourceLiterals(WalkLanes(lanes))
            == SourceLiterals(Walk(lanes[0].nodes)) + SourceLiterals(WalkLanes(lanes[1..]))
  {
    SourceLiteralsAppend(Walk(lanes[0].nodes), WalkLanes(lanes[1..]));
  }

  lemma {:induction false} RungLiteralsHead(rungs: seq<Placed>)
    requires rungs != []
    ensures SourceLiterals(AllSteps(rungs))
            == SourceLiterals(Walk(rungs[0].rung)) + SourceLiterals(AllSteps(rungs[1..]))
  {
    SourceLiteralsAppend(Walk(rungs[0].rung), AllSteps(rungs[1..]));
  }

  lemma {:induction false} NoLiterals()
    ensures SourceLiterals(Walk([])) == [] && SourceLiterals(WalkLanes([])) == [] && SourceLiterals(AllSteps([])) == []
  {
  }

  /** What lowering produces: its records are given by what they assemble to and by their literals. */
  predicate LowersTo(controller: Controller, directions: Directions, ir: IRProgram) {
    var sorted, rungs := SortTags(controller.tags), AllRungs(controller.routines, 0);
    var start := Counters(0, 0, |sorted|);
    && RungTagsExist(sorted, rungs)
    && AssembleAll(ir.instructions) == LoweredRungs(sorted, rungs, start)
    && IRLiterals(ir.instructions) == SourceLiterals(AllSteps(rungs))
    && ir.rungs == RungTable(rungs, start)
    && AddsHidden(DeclareTags(sorted, directions), ir.tags) && |ir.tags| == AfterRungs(rungs, start).tag
    && ir.branches == CountBranchesRungs(rungs)
  }

  lemma {:induction false} LoweredNothing(sorted: seq<SourceTag>, nodes: seq<Node<SourceInstr>>, c: Counters)
    requires nodes == []
    ensures AllTagsExist(sorted, Walk(nodes)) && Lowered(sorted, nodes, c) == []
  {
  }

  lemma {:induction false} LoweredNoLanes(sorted: seq<SourceTag>, lanes: seq<Lane<SourceInstr>>, c: Counters)
    requires lanes == []
    ensures AllTagsExist(sorted, WalkLanes(lanes)) && FlattenLanes(NumberLanes(sorted, lanes, c), c.id) == []
  {
  }

  /** `lower`: the accumulators of the closure become the fields. */
  class Lowerer {
    const sorted: seq<SourceTag>
    var tags: seq<IRTag>
    var ins: seq<IRInstr>
    var rungs: seq<IRRung>
    var states: nat
    var branches: nat

    constructor (sorted: seq<SourceTag>)
      ensures this.sorted == sorted && tags == [] && ins == [] && rungs == [] && states == 0 && branches == 0
    {
      this.sorted := sorted;
      tags, ins, rungs, states, branches := [], [], [], 0, 0;
    }

    function Now(): Counters
      reads this
    {
      Counters(|ins|, states, |tags|)
    }

    ghost function Code(): seq<Instr>
      reads this
    {
      AssembleAll(ins)
    }

    /** The literals emitted so far. */
    ghost function Literals(): seq<Literal>
      reads this
    {
      IRLiterals(ins)
    }

    lemma {:induction false} CodeGrows(more: seq<IRInstr>)
      ensures AssembleAll(ins + more) == Code() + AssembleAll(more)
      ensures IRLiterals(ins + more) == Literals() + IRLiterals(more)
    {
      IRLiteralsAppend(ins, more);
    }

    method EmitControl(op: byte)
      modifies this`ins
      ensures Code() == old(Code()) + [Control(op, |old(ins)|)] && |ins| == |old(ins)| + 1
      ensures Literals() == old(Literals())
    {
      var i := IRInstr(|ins|, op, [], None);
      assert IRLiterals([i]) == [] && Literals() + [] == Literals() by {
        assert [i][1..] == [];
      }
      CodeGrows([i]);
      assert Assemble(i).args == [];
      ins := ins + [i];
    }

    /** The operands of an instruction as it states them. */
    method LowerOperands(s: SourceInstr) returns (operands: seq<IROperand>)
      requires TagsExist(sorted, s)
      ensures |operands| == |s.operands|
      ensures forall j | 0 <= j < |operands| :: operands[j] == LowerOperand(sorted, s.operands[j])
    {
      operands := [];
      var k := 0;
      while k < |s.operands|
        invariant 0 <= k <= |s.operands| && |operands| == k
        invariant forall j | 0 <= j < k :: operands[j] == LowerOperand(sorted, s.operands[j])
      {
        operands := operands + [LowerOperand(sorted, s.operands[k])];
        k := k + 1;
      }
    }

    method EmitStep(s: SourceInstr)
      requires TagsExist(sorted, s)
      modifies this`ins, this`tags, this`states
      ensures Code() == old(Code()) + [Assemble(LowerStep(sorted, s, old(Now())))]
      ensures Literals() == old(Literals()) + SourceLiterals([s])
      ensures Now() == AfterStep(s, old(Now()))
      ensures AddsHidden(old(tags), tags)
    {
      hide IRLiterals, SourceLiterals, LowerOperand, Assemble;
      ghost var lowered := LowerStep(sorted, s, Now());
      StepKeepsLiterals(sorted, s, Now());
      var operands := LowerOperands(s);
      if s.mnemonic == ONS && operands == [] {
        operands := [IRTagOperand(BOOL, |tags|, None)];
        tags := tags + [HIDDEN];
      }
      assert operands == lowered.operands;
      var slot := if Stateful(s.mnemonic) then Some(states) else None;
      if Stateful(s.mnemonic) {
        states := states + 1;
      }
      var i := IRInstr(|ins|, Opcode(s.mnemonic), operands, slot);
      assert i == lowered;
      CodeGrows([i]);
      ins := ins + [i];
    }

    method EmitNodes(nodes: seq<Node<SourceInstr>>)
      requires AllTagsExist(sorted, Walk(nodes))
      modifies this`ins, this`tags, this`states, this`branches
      ensures Code() == old(Code()) + Lowered(sorted, nodes, old(Now()))
      ensures Literals() == old(Literals()) + SourceLiterals(Walk(nodes))
      ensures Now() == After(nodes, old(Now()))
      ensures AddsHidden(old(tags), tags)
      ensures branches == old(branches) + CountBranches(nodes)
      decreases nodes
    {
      hide Lowered, FlattenNode, NumberNode, AfterNode, Walk, WalkNode, Assemble, IRLiterals, SourceLiterals;
      ghost var whole := old(Code()) + Lowered(sorted, nodes, Now());
      ghost var literals := old(Literals()) + SourceLiterals(Walk(nodes));
      var k := 0;
      assert nodes[0..] == nodes;
      while k < |nodes|
        invariant 0 <= k <= |nodes| && AllTagsExist(sorted, Walk(nodes[k..]))
        invariant Code() + Lowered(sorted, nodes[k..], Now()) == whole
        invariant Literals() + SourceLiterals(Walk(nodes[k..])) == literals
        invariant After(nodes[k..], Now()) == After(nodes, old(Now()))
        invariant AddsHidden(old(tags), tags)
        invariant branches + CountBranches(nodes[k..]) == old(branches) + CountBranches(nodes)
      {
        LoweredHead(sorted, nodes[k..], Now());
        LiteralsHead(nodes[k..]);
        assert nodes[k..][0] == nodes[k] && nodes[k..][1..] == nodes[k + 1..];
        EmitNode(nodes[k]);
        k := k + 1;
      }
      LoweredNothing(sorted, nodes[k..], Now());
      NoLiterals();
      assert Code() + [] == Code() && Literals() + [] == Literals();
    }

    method EmitNode(node: Node<SourceInstr>)
      requires AllTagsExist(sorted, WalkNode(node))
      modifies this`ins, this`tags, this`states, this`branches
      ensures Code() == old(Code()) + FlattenNode(NumberNode(sorted, node, old(Now())), |old(ins)|)
      ensures Literals() == old(Literals()) + SourceLiterals(WalkNode(node))
      ensures Now() == AfterNode(node, old(Now()))
      ensures AddsHidden(old(tags), tags)
      ensures branches == old(branches) + CountBranchesNode(node)
      decreases node, 1
    {
      hide FlattenLanes, NumberLanes, AfterLanes, WalkLanes, Assemble, CountBranchesLanes, AddsHidden, IRLiterals,
           SourceLiterals;
      match node
      case Step(s) =>
        assert s in WalkNode(node);
        EmitStep(s);
      case Branch(lanes) =>
        EmitBranch(node, lanes);
    }

    method EmitBranch(ghost node: Node<SourceInstr>, lanes: seq<Lane<SourceInstr>>)
      requires node == Branch(lanes) && AllTagsExist(sorted, WalkLanes(lanes))
      modifies this`ins, this`tags, this`states, this`branches
      ensures |ins| == AfterLanes(lanes, Bump(old(Now()))).id + 1
      ensures Code() == old(Code()) + ([Control(OP_BRANCH_BEGIN, |old(ins)|)]
                        + FlattenLanes(NumberLanes(sorted, lanes, Bump(old(Now()))), |old(ins)| + 1)
                          + [Control(OP_BRANCH_END, |ins| - 1)])
      ensures Literals() == old(Literals()) + SourceLiterals(WalkLanes(lanes))
      ensures Now() == Bump(AfterLanes(lanes, Bump(old(Now()))))
      ensures AddsHidden(old(tags), tags)
      ensures branches == old(branches) + 1 + CountBranchesLanes(lanes)
      decreases node, 0
    {
      hide FlattenLanes, NumberLanes, AfterLanes, WalkLanes, Assemble, CountBranchesLanes, AddsHidden, IRLiterals,
           SourceLiterals;
      branches := branches + 1;
      EmitControl(OP_BRANCH_BEGIN);
      EmitLanes(lanes);
      EmitControl(OP_BRANCH_END);
    }

    method EmitLanes(lanes: seq<Lane<SourceInstr>>)
      requires AllTagsExist(sorted, WalkLanes(lanes))
      modifies this`ins, this`tags, this`states, this`branches
      ensures Code() == old(Code()) + FlattenLanes(NumberLanes(sorted, lanes, old(Now())), |old(ins)|)
      ensures Literals() == old(Literals()) + SourceLiterals(WalkLanes(lanes))
      ensures Now() == AfterLanes(lanes, old(Now()))
      ensures AddsHidden(old(tags), tags)
      ensures branches == old(branches) + CountBranchesLanes(lanes)
      decreases lanes
    {
      hide FlattenLanes, NumberLanes, FlattenLane, Walk, WalkLanes, After, IRLiterals, SourceLiterals;
      ghost var whole := old(Code()) + FlattenLanes(NumberLanes(sorted, lanes, Now()), |ins|);
      ghost var literals := old(Literals()) + SourceLiterals(WalkLanes(lanes));
      var k := 0;
      assert lanes[0..] == lanes;
      while k < |lanes|
        invariant 0 <= k <= |lanes| && AllTagsExist(sorted, WalkLanes(lanes[k..]))
        invariant Code() + FlattenLanes(NumberLanes(sorted, lanes[k..], Now()), |ins|) == whole
        invariant Literals() + SourceLiterals(WalkLanes(lanes[k..])) == literals
        invariant AfterLanes(lanes[k..], Now()) == AfterLanes(lanes, old(Now()))
        invariant AddsHidden(old(tags), tags)
        invariant branches + CountBranchesLanes(lanes[k..]) == old(branches) + CountBranchesLanes(lanes)
      {
        LoweredLanesHead(sorted, lanes[k..], Now());
        LaneLiteralsHead(lanes[k..]);
        assert lanes[k..][0] == lanes[k] && lanes[k..][1..] == lanes[k + 1..];
        EmitLane(lanes[k]);
        k := k + 1;
      }
      LoweredNoLanes(sorted, lanes[k..], Now());
      NoLiterals();
      assert Code() + [] == Code() && Literals() + [] == Literals();
    }

    method EmitLane(lane: Lane<SourceInstr>)
      requires AllTagsExist(sorted, Walk(lane.nodes))
      modifies this`ins, this`tags, this`states, this`branches
      ensures Code() == old(Code()) + FlattenLane(NumberLane(sorted, lane, old(Now())), |old(ins)|)
      ensures Literals() == old(Literals()) + SourceLiterals(Walk(lane.nodes))
      ensures Now() == AfterLane(lane, old(Now()))
      ensures AddsHidden(old(tags), tags)
      ensures branches == old(branches) + CountBranches(lane.nodes)
      decreases lane
    {
      hide Number, Flatten, Walk, After, AllTagsExist, AddsHidden, AssembleAll, CountBranches, IRLiterals,
           SourceLiterals;
      ghost var code := Code();
      EmitControl(OP_LANE_BEGIN);
      ghost var body := Lowered(sorted, lane.nodes, Now());
      EmitNodes(lane.nodes);
      LoweredLength(sorted, lane.nodes, Bump(old(Now())));
      EmitControl(OP_LANE_END);
      assert Code() == code + ([Control(OP_LANE_BEGIN, |old(ins)|)] + body + [Control(OP_LANE_END, |ins| - 1)]);
    }

    method Declare(directions: Directions)
      requires tags == []
      modifies this`tags
      ensures tags == DeclareTags(sorted, directions)
    {
      var n := 0;
      while n < |sorted|
        invariant 0 <= n <= |sorted| && tags == DeclareTags(sorted[..n], directions)
      {
        tags := tags + [DeclareTag(sorted[n], directions)];
        n := n + 1;
      }
      assert sorted[..n] == sorted;
    }

    method EmitRoutines(routines: seq<seq<Rung>>)
      requires RungTagsExist(sorted, AllRungs(routines, 0))
      modifies this`ins, this`tags, this`states, this`branches, this`rungs
      ensures var all := AllRungs(routines, 0);
              && Code() == old(Code()) + LoweredRungs(sorted, all, old(Now()))
              && Literals() == old(Literals()) + SourceLiterals(AllSteps(all))
              && rungs == old(rungs) + RungTable(all, old(Now()))
              && Now() == AfterRungs(all, old(Now()))
              && branches == old(branches) + CountBranchesRungs(all)
      ensures AddsHidden(old(tags), tags)
    {
      hide LoweredRungs, RungTable, AfterRungs, CountBranchesRungs, RungTagsExist, PlaceRungs, Assemble, IRLiterals,
           SourceLiterals, AllSteps;
      ghost var literals := old(Literals()) + SourceLiterals(AllSteps(AllRungs(routines, 0)));
      ghost var all, start, table0 := AllRungs(routines, 0), Now(), rungs;
      ghost var code := Code() + LoweredRungs(sorted, all, start);
      var r := 0;
      assert routines[0..] == routines;
      while r < |routines|
        invariant 0 <= r <= |routines|
        invariant RungTagsExist(sorted, AllRungs(routines[r..], r))
        invariant Code() + LoweredRungs(sorted, AllRungs(routines[r..], r), Now()) == code
        invariant Literals() + SourceLiterals(AllSteps(AllRungs(routines[r..], r))) == literals
        invariant rungs + RungTable(AllRungs(routines[r..], r), Now()) == table0 + RungTable(all, start)
        invariant AfterRungs(AllRungs(routines[r..], r), Now()) == AfterRungs(all, start)
        invariant AddsHidden(old(tags), tags)
        invariant branches + CountBranchesRungs(AllRungs(routines[r..], r)) == old(branches) + CountBranchesRungs(all)
      {
        assert routines[r..][0] == routines[r] && routines[r..][1..] == routines[r + 1..];
        ghost var here, rest := PlaceRungs(routines[r], r), AllRungs(routines[r + 1..], r + 1);
        assert AllRungs(routines[r..], r) == here + rest;
        RungsAppend(sorted, here, rest, Now());
        AllStepsAppend(here, rest);
        SourceLiteralsAppend(AllSteps(here), AllSteps(rest));
        EmitRoutine(r, routines[r]);
        r := r + 1;
      }
      assert AllRungs(routines[r..], r) == [];
      NoRungs(sorted, Now());
      NoLiterals();
      assert Code() + [] == Code() && rungs + [] == rungs && Literals() + [] == Literals();
    }

    /** The rungs of one routine. */
    method EmitRoutine(routine: nat, source: seq<Rung>)
      requires RungTagsExist(sorted, PlaceRungs(source, routine))
      modifies this`ins, this`tags, this`states, this`branches, this`rungs
      ensures var placed := PlaceRungs(source, routine);
              && Code() == old(Code()) + LoweredRungs(sorted, placed, old(Now()))
              && Literals() == old(Literals()) + SourceLiterals(AllSteps(placed))
              && rungs == old(rungs) + RungTable(placed, old(Now()))
              && Now() == AfterRungs(placed, old(Now()))
              && branches == old(branches) + CountBranchesRungs(placed)
      ensures AddsHidden(old(tags), tags)
    {
      hide Lowered, After, Walk, Assemble, CountBranches, AllTagsExist, IRLiterals, SourceLiterals, AllSteps;
      ghost var literals := old(Literals()) + SourceLiterals(AllSteps(PlaceRungs(source, routine)));
      ghost var placed, start, table0 := PlaceRungs(source, routine), Now(), rungs;
      ghost var code := Code() + LoweredRungs(sorted, placed, start);
      var k := 0;
      assert placed[0..] == placed;
      while k < |source|
        invariant 0 <= k <= |source|
        invariant Code() + LoweredRungs(sorted, placed[k..], Now()) == code
        invariant Literals() + SourceLiterals(AllSteps(placed[k..])) == literals
        invariant rungs + RungTable(placed[k..], Now()) == table0 + RungTable(placed, start)
        invariant AfterRungs(placed[k..], Now()) == AfterRungs(placed, start)
        invariant AddsHidden(old(tags), tags)
        invariant branches + CountBranchesRungs(placed[k..]) == old(branches) + CountBranchesRungs(placed)
      {
        assert placed[k..][0] == Placed(routine, source[k]) && placed[k..][1..] == placed[k + 1..];
        assert placed[k] in placed;
        RungLiteralsHead(placed[k..]);
        var first := |ins|;
        AfterGrows(source[k], Now());
        EmitNodes(source[k]);
        rungs := rungs + [IRRung(routine, first, |ins| - first)];
        k := k + 1;
      }
      assert placed[k..] == [];
      NoLiterals();
      assert Code() + [] == Code() && rungs + [] == rungs && Literals() + [] == Literals();
    }
  }

  lemma {:induction false} NoRungs(sorted: seq<SourceTag>, c: Counters)
    ensures RungTagsExist(sorted, []) && LoweredRungs(sorted, [], c) == [] && RungTable([], c) == []
    ensures AfterRungs([], c) == c && CountBranchesRungs([]) == 0
  {
  }

  lemma {:induction false} RungsAppend(sorted: seq<SourceTag>, a: seq<Placed>, b: seq<Placed>, c: Counters)
    requires RungTagsExist(sorted, a + b)
    ensures RungTagsExist(sorted, a) && RungTagsExist(sorted, b)
    ensures LoweredRungs(sorted, a + b, c) == LoweredRungs(sorted, a, c) + LoweredRungs(sorted, b, AfterRungs(a, c))
    ensures RungTable(a + b, c) == RungTable(a, c) + RungTable(b, AfterRungs(a, c))
    ensures AfterRungs(a + b, c) == AfterRungs(b, AfterRungs(a, c))
    ensures CountBranchesRungs(a + b) == CountBranchesRungs(a) + CountBranchesRungs(b)
    decreases |a|
  {
    hide Lowered, After, Walk, CountBranches, AllTagsExist, LoweredRungs, RungTable, AfterRungs, CountBranchesRungs,
         RungTagsExist;
    RungTagsParts(sorted, a, b);
    if a == [] {
      assert a + b == b;
      NoRungs(sorted, c);
      assert [] + LoweredRungs(sorted, b, c) == LoweredRungs(sorted, b, c) && [] + RungTable(b, c) == RungTable(b, c);
    } else {
      var tail, end := a[1..], After(a[0].rung, c);
      assert (a + b)[0] == a[0] && (a + b)[1..] == tail + b;
      RungsUnfold(sorted, a, c);
      RungsUnfold(sorted, a + b, c);
      RungsAppend(sorted, tail, b, end);
      var first, code, more := Lowered(sorted, a[0].rung, c), LoweredRungs(sorted, tail, end),
          LoweredRungs(sorted, b, AfterRungs(tail, end));
      assert first + (code + more) == first + code + more;
      var row: seq<IRRung> := [IRRung(a[0].routine, c.id, end.id - c.id)];
      assert row + (RungTable(tail, end) + RungTable(b, AfterRungs(tail, end)))
             == row + RungTable(tail, end) + RungTable(b, AfterRungs(tail, end));
    }
  }

  lemma {:induction false} RungTagsParts(sorted: seq<SourceTag>, a: seq<Placed>, b: seq<Placed>)
    requires RungTagsExist(sorted, a + b)
    ensures RungTagsExist(sorted, a) && RungTagsExist(sorted, b)
  {
    hide AllTagsExist, Walk;
    assert forall r | r in a :: r in a + b;
    assert forall r | r in b :: r in a + b;
  }

  lemma {:induction false} RungsUnfold(sorted: seq<SourceTag>, rungs: seq<Placed>, c: Counters)
    requires rungs != [] && RungTagsExist(sorted, rungs)
    ensures AllTagsExist(sorted, Walk(rungs[0].rung)) && RungTagsExist(sorted, rungs[1..])
    ensures var end := After(rungs[0].rung, c);
            && LoweredRungs(sorted, rungs, c)
              == Lowered(sorted, rungs[0].rung, c) + LoweredRungs(sorted, rungs[1..], end)
            && end.id >= c.id
            && RungTable(rungs, c) == [IRRung(rungs[0].routine, c.id, end.id - c.id)] + RungTable(rungs[1..], end)
            && AfterRungs(rungs, c) == AfterRungs(rungs[1..], end)
    ensures CountBranchesRungs(rungs) == CountBranches(rungs[0].rung) + CountBranchesRungs(rungs[1..])
  {
    hide Lowered, After, Walk, CountBranches, AllTagsExist;
    assert rungs[0] in rungs && forall r | r in rungs[1..] :: r in rungs;
    AfterGrows(rungs[0].rung, c);
  }

  /** `lower`. */
  method Lower(controller: Controller, directions: Directions) returns (ir: IRProgram)
    requires RungTagsExist(SortTags(controller.tags), AllRungs(controller.routines, 0))
    ensures LowersTo(controller, directions, ir)
  {
    var sorted := SortTags(controller.tags);
    var l: Lowerer := new Lowerer(sorted);
    l.Declare(directions);
    assert l.Now() == Counters(0, 0, |sorted|) && l.Code() == [] && l.Literals() == [];
    hide LoweredRungs, RungTable, AfterRungs, CountBranchesRungs, RungTagsExist, AllRungs, AllSteps, SourceLiterals,
         IRLiterals;
    l.EmitRoutines(controller.routines);
    assert [] + LoweredRungs(sorted, AllRungs(controller.routines, 0), Counters(0, 0, |sorted|)) == l.Code();
    assert [] + RungTable(AllRungs(controller.routines, 0), Counters(0, 0, |sorted|)) == l.rungs;
    assert [] + SourceLiterals(AllSteps(AllRungs(controller.routines, 0))) == l.Literals();
    ir := IRProgram(l.tags, l.ins, l.rungs, l.branches);
  }

  // ----- lowering determines the program -----

  lemma {:induction false} CodesDiffer(a: DataType, b: DataType, m: Option<Member>, n: Option<Member>)
    ensures DataTypeCode(a) == DataTypeCode(b) <==> a == b
    ensures MemberCode(m) == MemberCode(n) <==> m == n
  {
  }

  /** Operands that assemble alike and have the same literals are the same. */
  lemma {:induction false} SameOperands(a: seq<IROperand>, b: seq<IROperand>, x: seq<Literal>, y: seq<Literal>)
    requires |a| == |b| && forall k | 0 <= k < |a| :: AssembleOperand(a[k]) == AssembleOperand(b[k])
    requires OperandLiterals(a) + x == OperandLiterals(b) + y
    ensures a == b && x == y
    decreases |a|
  {
    if a == [] {
      assert [] + x == x && [] + y == y;
    } else {
      assert AssembleOperand(a[0]) == AssembleOperand(b[0]);
      var p, q := OperandLiterals(a[1..]), OperandLiterals(b[1..]);
      if a[0].IRLiteral? {
        assert ([a[0].lit] + p + x)[0] == ([b[0].lit] + q + y)[0];
        assert ([a[0].lit] + p + x)[1..] == p + x && ([b[0].lit] + q + y)[1..] == q + y;
      } else {
        CodesDiffer(a[0].dataType, b[0].dataType, a[0].member, b[0].member);
        assert [] + p == p && [] + q == q;
      }
      SameOperands(a[1..], b[1..], x, y);
      assert a == [a[0]] + a[1..] && b == [b[0]] + b[1..];
    }
  }

  lemma {:induction false} SameRecords(a: seq<IRInstr>, b: seq<IRInstr>)
    requires AssembleAll(a) == AssembleAll(b) && IRLiterals(a) == IRLiterals(b)
    ensures a == b
    decreases |a|
  {
    assert |AssembleAll(a)| == |a| && |AssembleAll(b)| == |b|;
    if a != [] {
      assert AssembleAll(a)[0] == Assemble(a[0]) && AssembleAll(b)[0] == Assemble(b[0]);
      assert AssembleAll(a)[1..] == AssembleAll(a[1..]) && AssembleAll(b)[1..] == AssembleAll(b[1..]);
      forall k | 0 <= k < |a[0].operands|
        ensures |b[0].operands| == |a[0].operands|
                && AssembleOperand(a[0].operands[k]) == AssembleOperand(b[0].operands[k])
      {
        assert Assemble(a[0]).args[k] == Assemble(b[0]).args[k];
      }
      assert |Assemble(a[0]).args| == |a[0].operands| && |Assemble(b[0]).args| == |b[0].operands|;
      SameOperands(a[0].operands, b[0].operands, IRLiterals(a[1..]), IRLiterals(b[1..]));
      SameRecords(a[1..], b[1..]);
      assert a == [a[0]] + a[1..] && b == [b[0]] + b[1..];
    }
  }

  /** A controller lowers to one program only. */
  lemma {:induction false} LowersUniquely(controller: Controller, directions: Directions, a: IRProgram, b: IRProgram)
    requires LowersTo(controller, directions, a) && LowersTo(controller, directions, b)
    ensures a == b
  {
    hide SortTags, AllRungs, LoweredRungs, RungTable, SourceLiterals, IRLiterals, AssembleAll;
    SameRecords(a.instructions, b.instructions);
  }
}
