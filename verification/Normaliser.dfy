/** The reference engine's walk over a rung tree, and the normaliser that rewrites trees in the
 *  editor. What a single instruction does is a parameter. */
module Normaliser {
  import opened Bytes
  import opened LadderTree

  datatype Result<+S> = Result(st: S, power: bool)

  // ----- the engine -----

  /** `_execute_nodes`: nodes in series pass power on; a branch gives every lane its input power, on
   *  the state the previous lane left, and passes power when some lane does. A branch without
   *  lanes is a wire. */
  function RunNodes<S, T>(exec: (T, S, bool) -> Result<S>, nodes: seq<Node<T>>, st: S, power: bool): Result<S>
    decreases nodes
  {
    if nodes == [] then Result(st, power)
    else
      var r := RunNode(exec, nodes[0], st, power);
      RunNodes(exec, nodes[1..], r.st, r.power)
  }

  function RunNode<S, T>(exec: (T, S, bool) -> Result<S>, node: Node<T>, st: S, power: bool): Result<S>
    decreases node
  {
    match node
    case Step(i) => exec(i, st, power)
    case Branch(lanes) => if lanes == [] then Result(st, power) else RunLanes(exec, lanes, st, power)
  }

  function RunLanes<S, T>(exec: (T, S, bool) -> Result<S>, lanes: seq<Lane<T>>, st: S, power: bool): Result<S>
    decreases lanes
  {
    if lanes == [] then Result(st, false)
    else
      var first := RunNodes(exec, lanes[0].nodes, st, power);
      var rest := RunLanes(exec, lanes[1..], first.st, power);
      Result(rest.st, first.power || rest.power)
  }

  lemma {:induction false} RunAppend<S, T>(
      exec: (T, S, bool) -> Result<S>, a: seq<Node<T>>, b: seq<Node<T>>, st: S, power: bool)
    ensures var r := RunNodes(exec, a, st, power); RunNodes(exec, a + b, st, power) == RunNodes(exec, b, r.st, r.power)
    decreases |a|
  {
    if a == [] {
      assert a + b == b;
    } else {
      assert (a + b)[0] == a[0] && (a + b)[1..] == a[1..] + b;
      var r := RunNode(exec, a[0], st, power);
      RunAppend(exec, a[1..], b, r.st, r.power);
    }
  }

  // ----- the normaliser -----

  /** `normalize_nodes`: empty lanes go, a branch without lanes goes, a branch with one lane becomes
   *  that lane. */
  function Normalise<T>(nodes: seq<Node<T>>): seq<Node<T>>
    decreases nodes
  {
    if nodes == [] then [] else NormaliseNode(nodes[0]) + Normalise(nodes[1..])
  }

  function NormaliseNode<T>(node: Node<T>): seq<Node<T>>
    decreases node
  {
    match node
    case Step(_) => [node]
    case Branch(lanes) => Joined(NormaliseLanes(lanes))
  }

  function NormaliseLanes<T>(lanes: seq<Lane<T>>): seq<Lane<T>>
    decreases lanes
  {
    if lanes == [] then []
    else
      var first := Normalise(lanes[0].nodes);
      (if first == [] then [] else [Lane(first)]) + NormaliseLanes(lanes[1..])
  }

  function Joined<T>(lanes: seq<Lane<T>>): seq<Node<T>> {
    if lanes == [] then [] else if |lanes| == 1 then lanes[0].nodes else [Branch(lanes)]
  }

  /** The normaliser's loop. */
  method NormalizeNodes<T(==)>(nodes: seq<Node<T>>) returns (normalized: seq<Node<T>>)
    ensures normalized == Normalise(nodes)
    decreases nodes
  {
    hide NormaliseNode;
    normalized := [];
    var n := 0;
    assert nodes[0..] == nodes;
    while n < |nodes|
      invariant 0 <= n <= |nodes| && normalized + Normalise(nodes[n..]) == Normalise(nodes)
    {
      assert nodes[n..][0] == nodes[n] && nodes[n..][1..] == nodes[n + 1..];
      var more := NormalizeNode(nodes[n]);
      normalized := normalized + more;
      n := n + 1;
    }
    assert normalized + [] == normalized;
  }

  method NormalizeNode<T(==)>(node: Node<T>) returns (normalized: seq<Node<T>>)
    ensures normalized == NormaliseNode(node)
    decreases node
  {
    match node
    case Step(_) => normalized := [node];
    case Branch(lanes) =>
      var kept := NormalizeLanes(lanes);
      if kept == [] {
        normalized := [];
      } else if |kept| == 1 {
        normalized := kept[0].nodes;
      } else {
        normalized := [Branch(kept)];
      }
  }

  /** The lanes of a branch, without those that become empty. */
  method NormalizeLanes<T(==)>(lanes: seq<Lane<T>>) returns (kept: seq<Lane<T>>)
    ensures kept == NormaliseLanes(lanes)
    decreases lanes
  {
    hide Normalise;
    kept := [];
    var k := 0;
    assert lanes[0..] == lanes;
    while k < |lanes|
      invariant 0 <= k <= |lanes| && kept + NormaliseLanes(lanes[k..]) == NormaliseLanes(lanes)
    {
      assert lanes[k..][0] == lanes[k] && lanes[k..][1..] == lanes[k + 1..];
      var lane := NormalizeNodes(lanes[k].nodes);
      if lane != [] {
        kept := kept + [Lane(lane)];
      }
      k := k + 1;
    }
    assert kept + [] == kept;
  }

  // ----- normal trees -----

  /** Every branch has at least two lanes and no lane is empty. */
  predicate Normal<T>(nodes: seq<Node<T>>)
    decreases nodes
  {
    nodes == [] || (NormalNode(nodes[0]) && Normal(nodes[1..]))
  }

  predicate NormalNode<T>(node: Node<T>)
    decreases node
  {
    match node
    case Step(_) => true
    case Branch(lanes) => |lanes| >= 2 && NormalLanes(lanes)
  }

  predicate NormalLanes<T>(lanes: seq<Lane<T>>)
    decreases lanes
  {
    lanes == [] || (lanes[0].nodes != [] && Normal(lanes[0].nodes) && NormalLanes(lanes[1..]))
  }

  lemma {:induction false} NormalAppend<T>(a: seq<Node<T>>, b: seq<Node<T>>)
    ensures Normal(a + b) <==> Normal(a) && Normal(b)
    decreases |a|
  {
    if a == [] {
      assert a + b == b;
    } else {
      assert (a + b)[0] == a[0] && (a + b)[1..] == a[1..] + b;
      NormalAppend(a[1..], b);
    }
  }

  /** The result of normalising is normal. */
  lemma {:induction false} NormaliseIsNormal<T>(nodes: seq<Node<T>>)
    ensures Normal(Normalise(nodes))
    decreases nodes
  {
    if nodes != [] {
      if nodes[0].Branch? {
        NormaliseLanesAreNormal(nodes[0].lanes);
        JoinedIsNormal(NormaliseLanes(nodes[0].lanes));
      } else {
        assert [nodes[0]][1..] == [];
      }
      NormaliseIsNormal(nodes[1..]);
      NormalAppend(NormaliseNode(nodes[0]), Normalise(nodes[1..]));
    }
  }

  lemma {:induction false} JoinedIsNormal<T>(lanes: seq<Lane<T>>)
    requires NormalLanes(lanes)
    ensures Normal(Joined(lanes))
  {
    if |lanes| >= 2 {
      assert NormalNode(Branch(lanes)) && [Branch(lanes)][1..] == [];
      assert Normal<T>([]);
    }
  }

  lemma {:induction false} NormaliseLanesAreNormal<T>(lanes: seq<Lane<T>>)
    ensures NormalLanes(NormaliseLanes(lanes))
    decreases lanes
  {
    if lanes != [] {
      NormaliseIsNormal(lanes[0].nodes);
      NormaliseLanesAreNormal(lanes[1..]);
      var first, rest := Normalise(lanes[0].nodes), NormaliseLanes(lanes[1..]);
      if first != [] {
        assert ([Lane(first)] + rest)[1..] == rest;
      } else {
        assert [] + rest == rest;
      }
    }
  }

  /** A normal tree is left as it is. */
  lemma {:induction false} NormalIsKept<T>(nodes: seq<Node<T>>)
    requires Normal(nodes)
    ensures Normalise(nodes) == nodes
    decreases nodes
  {
    if nodes != [] {
      if nodes[0].Branch? {
        NormalLanesAreKept(nodes[0].lanes);
      }
      NormalIsKept(nodes[1..]);
    }
  }

  lemma {:induction false} NormalLanesAreKept<T>(lanes: seq<Lane<T>>)
    requires NormalLanes(lanes)
    ensures NormaliseLanes(lanes) == lanes
    decreases lanes
  {
    if lanes != [] {
      NormalIsKept(lanes[0].nodes);
      NormalLanesAreKept(lanes[1..]);
    }
  }

  /** Normalising twice is normalising once. */
  lemma {:induction false} NormaliseIsIdempotent<T>(nodes: seq<Node<T>>)
    ensures Normalise(Normalise(nodes)) == Normalise(nodes)
  {
    NormaliseIsNormal(nodes);
    NormalIsKept(Normalise(nodes));
  }

  /** Normalising keeps the instructions and their order. */
  lemma {:induction false} NormaliseKeepsSteps<T>(nodes: seq<Node<T>>)
    ensures Walk(Normalise(nodes)) == Walk(nodes)
    decreases nodes
  {
    if nodes != [] {
      NormaliseKeepsSteps(nodes[1..]);
      WalkAppend(NormaliseNode(nodes[0]), Normalise(nodes[1..]));
      if nodes[0].Branch? {
        NormaliseLanesKeepSteps(nodes[0].lanes);
        JoinedKeepsSteps(NormaliseLanes(nodes[0].lanes));
      } else {
        assert [nodes[0]][1..] == [];
        assert WalkNode(nodes[0]) + [] == WalkNode(nodes[0]);
      }
    }
  }

  lemma {:induction false} JoinedKeepsSteps<T>(lanes: seq<Lane<T>>)
    ensures Walk(Joined(lanes)) == WalkLanes(lanes)
  {
    if |lanes| == 1 {
      assert lanes[1..] == [];
      assert Walk(lanes[0].nodes) + [] == Walk(lanes[0].nodes);
    } else if |lanes| >= 2 {
      assert [Branch(lanes)][1..] == [];
      assert WalkLanes(lanes) + [] == WalkLanes(lanes);
    }
  }

  lemma {:induction false} NormaliseLanesKeepSteps<T>(lanes: seq<Lane<T>>)
    ensures WalkLanes(NormaliseLanes(lanes)) == WalkLanes(lanes)
    decreases lanes
  {
    if lanes != [] {
      NormaliseKeepsSteps(lanes[0].nodes);
      NormaliseLanesKeepSteps(lanes[1..]);
      var first, rest := Normalise(lanes[0].nodes), NormaliseLanes(lanes[1..]);
      if first != [] {
        assert ([Lane(first)] + rest)[1..] == rest;
      } else {
        assert [] + rest == rest && Walk(lanes[0].nodes) == [];
      }
    }
  }

  // ----- what normalising means -----

  /** No instruction in it: power passes straight through. */
  predicate Wire<T>(nodes: seq<Node<T>>) {
    Walk(nodes) == []
  }

  /** No branch has both a lane without instructions and a lane with some. */
  predicate Unmixed<T>(nodes: seq<Node<T>>)
    decreases nodes
  {
    nodes == [] || (UnmixedNode(nodes[0]) && Unmixed(nodes[1..]))
  }

  predicate UnmixedNode<T>(node: Node<T>)
    decreases node
  {
    match node
    case Step(_) => true
    case Branch(lanes) => (AllWires(lanes) || NoWires(lanes)) && UnmixedLanes(lanes)
  }

  predicate UnmixedLanes<T>(lanes: seq<Lane<T>>)
    decreases lanes
  {
    lanes == [] || (Unmixed(lanes[0].nodes) && UnmixedLanes(lanes[1..]))
  }

  predicate AllWires<T>(lanes: seq<Lane<T>>) {
    forall k | 0 <= k < |lanes| :: Wire(lanes[k].nodes)
  }

  predicate NoWires<T>(lanes: seq<Lane<T>>) {
    forall k | 0 <= k < |lanes| :: !Wire(lanes[k].nodes)
  }

  lemma {:induction false} WireParts<T>(nodes: seq<Node<T>>)
    requires nodes != []
    ensures Wire(nodes) <==> WalkNode(nodes[0]) == [] && Wire(nodes[1..])
  {
  }

  lemma {:induction false} WireLanes<T>(lanes: seq<Lane<T>>)
    ensures WalkLanes(lanes) == [] <==> AllWires(lanes)
    decreases |lanes|
  {
    if lanes != [] {
      WireLanes(lanes[1..]);
      assert AllWires(lanes) <==> Wire(lanes[0].nodes) && AllWires(lanes[1..]) by {
        assert forall k | 1 <= k < |lanes| :: lanes[k] == lanes[1..][k - 1];
        assert forall k | 0 <= k < |lanes[1..]| :: lanes[1..][k] == lanes[k + 1];
      }
    }
  }

  /** A wire changes nothing and passes its input. */
  lemma {:induction false} WireRuns<S, T>(exec: (T, S, bool) -> Result<S>, nodes: seq<Node<T>>, st: S, power: bool)
    requires Wire(nodes)
    ensures RunNodes(exec, nodes, st, power) == Result(st, power)
    decreases nodes
  {
    if nodes != [] {
      WireParts(nodes);
      var lanes := nodes[0].lanes;
      WireLanes(lanes);
      if lanes != [] {
        WireLanesRun(exec, lanes, st, power);
      }
      WireRuns(exec, nodes[1..], st, power);
    }
  }

  lemma {:induction false} WireLanesRun<S, T>(exec: (T, S, bool) -> Result<S>, lanes: seq<Lane<T>>, st: S, power: bool)
    requires AllWires(lanes)
    ensures RunLanes(exec, lanes, st, power) == Result(st, lanes != [] && power)
    decreases lanes
  {
    if lanes != [] {
      assert Wire(lanes[0].nodes);
      WireRuns(exec, lanes[0].nodes, st, power);
      assert forall k | 0 <= k < |lanes[1..]| :: lanes[1..][k] == lanes[k + 1];
      WireLanesRun(exec, lanes[1..], st, power);
    }
  }

  lemma {:induction false} WiresVanish<T>(lanes: seq<Lane<T>>)
    requires AllWires(lanes)
    ensures NormaliseLanes(lanes) == []
    decreases |lanes|
  {
    if lanes != [] {
      assert Wire(lanes[0].nodes);
      WireVanishes(lanes[0].nodes);
      assert forall k | 0 <= k < |lanes[1..]| :: lanes[1..][k] == lanes[k + 1];
      WiresVanish(lanes[1..]);
    }
  }

  /** Normalising leaves nothing of a wire, and something of anything else. */
  lemma {:induction false} WireVanishes<T>(nodes: seq<Node<T>>)
    ensures Wire(nodes) <==> Normalise(nodes) == []
  {
    NormaliseKeepsSteps(nodes);
    NormaliseIsNormal(nodes);
    if Normalise(nodes) != [] {
      NormalHasSteps(Normalise(nodes));
    }
  }

  lemma {:induction false} NormalHasSteps<T>(nodes: seq<Node<T>>)
    requires Normal(nodes) && nodes != []
    ensures Walk(nodes) != []
    decreases nodes
  {
    if nodes[0].Branch? {
      assert NormalNode(nodes[0]) && NormalLanes(nodes[0].lanes);
      NormalHasSteps(nodes[0].lanes[0].nodes);
      assert WalkLanes(nodes[0].lanes) != [];
    }
  }

  /** Normalising keeps the meaning of a tree without mixed branches, whatever the instructions
   *  do. */
  lemma {:induction false} NormaliseKeepsMeaning<S, T>(
      exec: (T, S, bool) -> Result<S>, nodes: seq<Node<T>>, st: S, power: bool)
    requires Unmixed(nodes)
    ensures RunNodes(exec, Normalise(nodes), st, power) == RunNodes(exec, nodes, st, power)
    decreases nodes
  {
    if nodes != [] {
      var r := RunNode(exec, nodes[0], st, power);
      NormaliseNodeKeepsMeaning(exec, nodes[0], st, power);
      RunAppend(exec, NormaliseNode(nodes[0]), Normalise(nodes[1..]), st, power);
      NormaliseKeepsMeaning(exec, nodes[1..], r.st, r.power);
    }
  }

  lemma {:induction false} RunSingle<S, T>(exec: (T, S, bool) -> Result<S>, node: Node<T>, st: S, power: bool)
    ensures RunNodes(exec, [node], st, power) == RunNode(exec, node, st, power)
  {
    assert [node][1..] == [];
  }

  lemma {:induction false} NormaliseNodeKeepsMeaning<S, T>(
      exec: (T, S, bool) -> Result<S>, node: Node<T>, st: S, power: bool)
    requires UnmixedNode(node)
    ensures RunNodes(exec, NormaliseNode(node), st, power) == RunNode(exec, node, st, power)
    decreases node
  {
    RunSingle(exec, node, st, power);
    if node.Branch? {
      var lanes := node.lanes;
      if AllWires(lanes) {
        WiresVanish(lanes);
        WireLanesRun(exec, lanes, st, power);
      } else {
        NormaliseLanesKeepMeaning(exec, lanes, st, power);
        JoinedRuns(exec, NormaliseLanes(lanes), st, power);
      }
    }
  }

  lemma {:induction false} JoinedRuns<S, T>(exec: (T, S, bool) -> Result<S>, lanes: seq<Lane<T>>, st: S, power: bool)
    requires lanes != []
    ensures RunNodes(exec, Joined(lanes), st, power) == RunLanes(exec, lanes, st, power)
  {
    if |lanes| == 1 {
      assert lanes[1..] == [];
    } else {
      RunSingle(exec, Branch(lanes), st, power);
    }
  }

  lemma {:induction false} NormaliseLanesKeepMeaning<S, T>(
      exec: (T, S, bool) -> Result<S>, lanes: seq<Lane<T>>, st: S, power: bool)
    requires NoWires(lanes) && UnmixedLanes(lanes)
    ensures |NormaliseLanes(lanes)| == |lanes|
    ensures RunLanes(exec, NormaliseLanes(lanes), st, power) == RunLanes(exec, lanes, st, power)
    decreases lanes
  {
    if lanes != [] {
      var first, rest := Normalise(lanes[0].nodes), NormaliseLanes(lanes[1..]);
      assert !Wire(lanes[0].nodes);
      WireVanishes(lanes[0].nodes);
      assert NormaliseLanes(lanes) == [Lane(first)] + rest && ([Lane(first)] + rest)[1..] == rest;
      assert forall k | 0 <= k < |lanes[1..]| :: lanes[1..][k] == lanes[k + 1];
      NormaliseKeepsMeaning(exec, lanes[0].nodes, st, power);
      NormaliseLanesKeepMeaning(exec, lanes[1..], RunNodes(exec, lanes[0].nodes, st, power).st, power);
    }
  }

  // ----- mixed branches -----

  /** Contacts whose readings are settled beforehand, and the power each of them received. */
  datatype Trial = Trial(readings: seq<bool>, received: seq<bool>)

  /** One contact: passes its input when its reading is true. */
  function Contact<T>(i: T, t: Trial, power: bool): Result<Trial> {
    if t.readings == [] then Result(Trial([], t.received + [power]), false)
    else Result(Trial(t.readings[1..], t.received + [power]), power && t.readings[0])
  }

  /** n contacts later. */
  predicate Later(t: Trial, n: nat, after: Trial) {
    && after.readings == t.readings[if n <= |t.readings| then n else |t.readings|..]
    && |after.received| == |t.received| + n
    && t.received <= after.received
  }

  lemma {:induction false} LaterAdds(t: Trial, m: nat, u: Trial, n: nat, v: Trial)
    requires Later(t, m, u) && Later(u, n, v)
    ensures Later(t, m + n, v)
  {
  }

  lemma {:induction false} TrialAdvances<T>(nodes: seq<Node<T>>, t: Trial, power: bool)
    ensures Later(t, |Walk(nodes)|, RunNodes(Contact, nodes, t, power).st)
    decreases nodes
  {
    if nodes != [] {
      var r := RunNode(Contact, nodes[0], t, power);
      if nodes[0].Branch? {
        LanesAdvance(nodes[0].lanes, t, power);
      }
      TrialAdvances(nodes[1..], r.st, r.power);
      LaterAdds(t, |WalkNode(nodes[0])|, r.st, |Walk(nodes[1..])|, RunNodes(Contact, nodes, t, power).st);
    }
  }

  lemma {:induction false} LanesAdvance<T>(lanes: seq<Lane<T>>, t: Trial, power: bool)
    ensures Later(t, |WalkLanes(lanes)|, RunLanes(Contact, lanes, t, power).st)
    decreases lanes
  {
    if lanes != [] {
      var r := RunNodes(Contact, lanes[0].nodes, t, power);
      TrialAdvances(lanes[0].nodes, t, power);
      LanesAdvance(lanes[1..], r.st, power);
      LaterAdds(t, |Walk(lanes[0].nodes)|, r.st, |WalkLanes(lanes[1..])|, RunLanes(Contact, lanes, t, power).st);
    }
  }

  /** The first contact receives the power the tree receives. */
  lemma {:induction false} FirstReceives<T>(nodes: seq<Node<T>>, t: Trial, power: bool)
    requires !Wire(nodes)
    ensures |RunNodes(Contact, nodes, t, power).st.received| > |t.received|
    ensures RunNodes(Contact, nodes, t, power).st.received[|t.received|] == power
    decreases nodes
  {
    WireParts(nodes);
    var r := RunNode(Contact, nodes[0], t, power);
    TrialAdvances(nodes[1..], r.st, r.power);
    if nodes[0].Branch? {
      if Wire([nodes[0]]) {
        WireRuns(Contact, [nodes[0]], t, power);
        RunSingle(Contact, nodes[0], t, power);
        assert WalkNode(nodes[0]) == [] by { WireParts([nodes[0]]); }
        FirstReceives(nodes[1..], t, power);
      } else {
        assert WalkNode(nodes[0]) != [] by { WireParts([nodes[0]]); }
        FirstLaneReceives(nodes[0].lanes, t, power);
      }
    }
  }

  lemma {:induction false} FirstLaneReceives<T>(lanes: seq<Lane<T>>, t: Trial, power: bool)
    requires WalkLanes(lanes) != []
    ensures |RunLanes(Contact, lanes, t, power).st.received| > |t.received|
    ensures RunLanes(Contact, lanes, t, power).st.received[|t.received|] == power
    decreases lanes
  {
    var r := RunNodes(Contact, lanes[0].nodes, t, power);
    if Wire(lanes[0].nodes) {
      WireRuns(Contact, lanes[0].nodes, t, power);
      FirstLaneReceives(lanes[1..], t, power);
    } else {
      FirstReceives(lanes[0].nodes, t, power);
      LanesAdvance(lanes[1..], r.st, power);
    }
  }

  /** The next n readings are all v. */
  predicate Reads(t: Trial, n: nat, v: bool) {
    n <= |t.readings| && forall k | 0 <= k < n :: t.readings[k] == v
  }

  lemma {:induction false} ReadsOn(t: Trial, m: nat, u: Trial, n: nat, v: bool)
    requires Reads(t, m + n, v) && Later(t, m, u)
    ensures Reads(t, m, v) && Reads(u, n, v)
  {
  }

  /** Where every contact passes, a tree passes. */
  lemma {:induction false} ClosedContactsPass<T>(nodes: seq<Node<T>>, t: Trial)
    requires Reads(t, |Walk(nodes)|, true)
    ensures RunNodes(Contact, nodes, t, true).power
    decreases nodes
  {
    if nodes != [] {
      var r := RunNode(Contact, nodes[0], t, true);
      if nodes[0].Branch? {
        LanesAdvance(nodes[0].lanes, t, true);
      }
      ReadsOn(t, |WalkNode(nodes[0])|, r.st, |Walk(nodes[1..])|, true);
      if nodes[0].Branch? && nodes[0].lanes != [] {
        TrialAdvances(nodes[0].lanes[0].nodes, t, true);
        ClosedContactsPass(nodes[0].lanes[0].nodes, t);
      }
      ClosedContactsPass(nodes[1..], r.st);
    }
  }

  /** Where every contact blocks, a normal tree blocks unless it is empty. */
  lemma {:induction false} OpenContactsBlock<T>(nodes: seq<Node<T>>, t: Trial, power: bool)
    requires Normal(nodes) && Reads(t, |Walk(nodes)|, false)
    ensures RunNodes(Contact, nodes, t, power).power == (nodes == [] && power)
    decreases nodes
  {
    if nodes != [] {
      var r := RunNode(Contact, nodes[0], t, power);
      if nodes[0].Branch? {
        LanesAdvance(nodes[0].lanes, t, power);
      }
      ReadsOn(t, |WalkNode(nodes[0])|, r.st, |Walk(nodes[1..])|, false);
      if nodes[0].Branch? {
        assert NormalNode(nodes[0]) && NormalLanes(nodes[0].lanes);
        OpenLanesBlock(nodes[0].lanes, t, power);
      }
      OpenContactsBlock(nodes[1..], r.st, r.power);
    }
  }

  lemma {:induction false} OpenLanesBlock<T>(lanes: seq<Lane<T>>, t: Trial, power: bool)
    requires NormalLanes(lanes) && Reads(t, |WalkLanes(lanes)|, false)
    ensures !RunLanes(Contact, lanes, t, power).power
    decreases lanes
  {
    if lanes != [] {
      var r := RunNodes(Contact, lanes[0].nodes, t, power);
      TrialAdvances(lanes[0].nodes, t, power);
      ReadsOn(t, |Walk(lanes[0].nodes)|, r.st, |WalkLanes(lanes[1..])|, false);
      OpenContactsBlock(lanes[0].nodes, t, power);
      OpenLanesBlock(lanes[1..], r.st, power);
    }
  }

  /** A lane without contacts passes what the branch receives. */
  lemma {:induction false} WirePasses<S, T>(exec: (T, S, bool) -> Result<S>, lanes: seq<Lane<T>>, k: nat, st: S)
    requires k < |lanes| && Wire(lanes[k].nodes)
    ensures RunLanes(exec, lanes, st, true).power
    decreases k
  {
    if k == 0 {
      WireRuns(exec, lanes[0].nodes, st, true);
    } else {
      WirePasses(exec, lanes[1..], k - 1, RunNodes(exec, lanes[0].nodes, st, true).st);
    }
  }

  /** Power lost, or a contact that received something else. */
  predicate Differ(a: Result<Trial>, b: Result<Trial>) {
    a.st.received != b.st.received || (a.power && !b.power)
  }

  function Same(n: nat, v: bool): (s: seq<bool>)
    ensures |s| == n && forall k | 0 <= k < n :: s[k] == v
  {
    seq(n, _ => v)
  }

  ghost predicate TellsNodes<T>(nodes: seq<Node<T>>, readings: seq<bool>) {
    |readings| == |Walk(nodes)| && forall t: Trial | readings <= t.readings ::
      Differ(RunNodes(Contact, nodes, t, true), RunNodes(Contact, Normalise(nodes), t, true))
  }

  ghost predicate TellsLanes<T>(lanes: seq<Lane<T>>, readings: seq<bool>) {
    |readings| == |WalkLanes(lanes)| && forall t: Trial | readings <= t.readings ::
      Differ(RunLanes(Contact, lanes, t, true), RunLanes(Contact, NormaliseLanes(lanes), t, true))
  }

  lemma {:induction false} PrefixesDiffer(a: seq<bool>, x: seq<bool>, b: seq<bool>, y: seq<bool>)
    requires a <= x && b <= y && |a| == |b| && a != b
    ensures x != y
  {
    var k :| 0 <= k < |a| && a[k] != b[k];
    assert x[k] == a[k] && y[k] == b[k];
  }

  /** What one node of a series loses is not made up for by the nodes after it. */
  lemma {:induction false} DifferenceStays<T>(rest: seq<Node<T>>, a: Result<Trial>, b: Result<Trial>)
    requires Differ(a, b) && a.st.readings == b.st.readings && |a.st.received| == |b.st.received|
    ensures Differ(RunNodes(Contact, rest, a.st, a.power), RunNodes(Contact, Normalise(rest), b.st, b.power))
  {
    if a.st.received != b.st.received {
      var x, y := RunNodes(Contact, rest, a.st, a.power), RunNodes(Contact, Normalise(rest), b.st, b.power);
      TrialAdvances(rest, a.st, a.power);
      TrialAdvances(Normalise(rest), b.st, b.power);
      PrefixesDiffer(a.st.received, x.st.received, b.st.received, y.st.received);
    } else {
      NormaliseKeepsSteps(rest);
      LostPowerStays(rest, Normalise(rest), a.st, b.st);
    }
  }

  /** Two trees, both wires or both with contacts, under different power. */
  lemma {:induction false} LostPowerStays<T>(a: seq<Node<T>>, b: seq<Node<T>>, s: Trial, t: Trial)
    requires Walk(a) == Walk(b) && s.received == t.received
    ensures Differ(RunNodes(Contact, a, s, true), RunNodes(Contact, b, t, false))
  {
    hide RunNodes;
    if Wire(a) {
      WireRuns(Contact, a, s, true);
      WireRuns(Contact, b, t, false);
    } else {
      FirstReceives(a, s, true);
      FirstReceives(b, t, false);
    }
  }

  /** Readings that tell a tree with a mixed branch in it from what normalising makes of it. */
  lemma {:induction false} MixedTells<T>(nodes: seq<Node<T>>) returns (readings: seq<bool>)
    requires !Unmixed(nodes)
    ensures TellsNodes(nodes, readings)
    decreases nodes
  {
    var rest := nodes[1..];
    if UnmixedNode(nodes[0]) {
      var later := MixedTells(rest);
      readings := Same(|WalkNode(nodes[0])|, true) + later;
      forall t: Trial | readings <= t.readings
        ensures Differ(RunNodes(Contact, nodes, t, true), RunNodes(Contact, Normalise(nodes), t, true))
      {
        PassesToRest(nodes, t);
        assert later <= RunNode(Contact, nodes[0], t, true).st.readings;
      }
    } else {
      var first := MixedNodeTells(nodes[0]);
      NormaliseSingle(nodes[0]);
      readings := first + Same(|Walk(rest)|, false);
      forall t: Trial | readings <= t.readings
        ensures Differ(RunNodes(Contact, nodes, t, true), RunNodes(Contact, Normalise(nodes), t, true))
      {
        assert first <= t.readings;
        FirstDiffers(nodes, t);
      }
    }
  }

  lemma {:induction false} FirstDiffers<T>(nodes: seq<Node<T>>, t: Trial)
    requires nodes != []
    requires Differ(RunNodes(Contact, [nodes[0]], t, true), RunNodes(Contact, Normalise([nodes[0]]), t, true))
    ensures Differ(RunNodes(Contact, nodes, t, true), RunNodes(Contact, Normalise(nodes), t, true))
  {
    var first, rest := [nodes[0]], nodes[1..];
    NormaliseKeepsSteps(first);
    TrialAdvances(first, t, true);
    TrialAdvances(Normalise(first), t, true);
    DifferenceStays(rest, RunNodes(Contact, first, t, true), RunNodes(Contact, Normalise(first), t, true));
    NormaliseSingle(nodes[0]);
    assert nodes == first + rest;
    RunAppend(Contact, first, rest, t, true);
    RunAppend(Contact, NormaliseNode(nodes[0]), Normalise(rest), t, true);
  }

  lemma {:induction false} NormaliseSingle<T>(node: Node<T>)
    ensures Normalise([node]) == NormaliseNode(node) && Walk([node]) == WalkNode(node)
  {
    assert [node][1..] == [];
    assert NormaliseNode(node) + [] == NormaliseNode(node) && WalkNode(node) + [] == WalkNode(node);
  }

  /** With closed contacts in it, an unmixed first node hands true on, before and after. */
  lemma {:induction false} PassesToRest<T>(nodes: seq<Node<T>>, t: Trial)
    requires nodes != [] && UnmixedNode(nodes[0]) && Reads(t, |WalkNode(nodes[0])|, true)
    ensures var r := RunNode(Contact, nodes[0], t, true);
      && Later(t, |WalkNode(nodes[0])|, r.st)
      && RunNodes(Contact, nodes, t, true) == RunNodes(Contact, nodes[1..], r.st, true)
      && RunNodes(Contact, Normalise(nodes), t, true) == RunNodes(Contact, Normalise(nodes[1..]), r.st, true)
  {
    var node := nodes[0];
    RunSingle(Contact, node, t, true);
    NormaliseSingle(node);
    ClosedContactsPass([node], t);
    TrialAdvances([node], t, true);
    NormaliseNodeKeepsMeaning(Contact, node, t, true);
    RunAppend(Contact, NormaliseNode(node), Normalise(nodes[1..]), t, true);
  }

  lemma {:induction false} MixedNodeTells<T>(node: Node<T>) returns (readings: seq<bool>)
    requires !UnmixedNode(node)
    ensures TellsNodes([node], readings)
    decreases node
  {
    var lanes := node.lanes;
    NormaliseSingle(node);
    WireLanes(lanes);
    if AllWires(lanes) {
      WiresUnmixed(lanes);
      assert false;
    } else if NoWires(lanes) {
      readings := MixedLanesTell(lanes);
      forall t: Trial | readings <= t.readings
        ensures Differ(RunNodes(Contact, [node], t, true), RunNodes(Contact, Normalise([node]), t, true))
      {
        RunSingle(Contact, node, t, true);
        LanesKept(lanes);
        JoinedRuns(Contact, NormaliseLanes(lanes), t, true);
      }
    } else {
      var wire :| 0 <= wire < |lanes| && Wire(lanes[wire].nodes);
      readings := Same(|WalkLanes(lanes)|, false);
      forall t: Trial | readings <= t.readings
        ensures Differ(RunNodes(Contact, [node], t, true), RunNodes(Contact, Normalise([node]), t, true))
      {
        RunSingle(Contact, node, t, true);
        WirePasses(Contact, lanes, wire, t);
        NormaliseIsNormal([node]);
        NormaliseKeepsSteps([node]);
        WireVanishes([node]);
        OpenContactsBlock(Normalise([node]), t, true);
      }
    }
  }

  lemma {:induction false} WiresUnmixed<T>(lanes: seq<Lane<T>>)
    requires AllWires(lanes)
    ensures UnmixedLanes(lanes)
    decreases lanes
  {
    if lanes != [] {
      assert Wire(lanes[0].nodes);
      WireUnmixed(lanes[0].nodes);
      assert forall k | 0 <= k < |lanes[1..]| :: lanes[1..][k] == lanes[k + 1];
      WiresUnmixed(lanes[1..]);
    }
  }

  lemma {:induction false} WireUnmixed<T>(nodes: seq<Node<T>>)
    requires Wire(nodes)
    ensures Unmixed(nodes)
    decreases nodes
  {
    if nodes != [] {
      WireParts(nodes);
      WireLanes(nodes[0].lanes);
      WiresUnmixed(nodes[0].lanes);
      WireUnmixed(nodes[1..]);
    }
  }

  /** Lanes with contacts in them all stay. */
  lemma {:induction false} LanesKept<T>(lanes: seq<Lane<T>>)
    requires NoWires(lanes)
    ensures |NormaliseLanes(lanes)| == |lanes|
    ensures lanes != [] ==> NormaliseLanes(lanes)[0].nodes == Normalise(lanes[0].nodes) != []
    ensures lanes != [] ==> NormaliseLanes(lanes)[1..] == NormaliseLanes(lanes[1..]) && NoWires(lanes[1..])
    decreases |lanes|
  {
    if lanes != [] {
      assert !Wire(lanes[0].nodes);
      WireVanishes(lanes[0].nodes);
      assert forall k | 0 <= k < |lanes[1..]| :: lanes[1..][k] == lanes[k + 1];
      LanesKept(lanes[1..]);
    }
  }

  lemma {:induction false} MixedLanesTell<T>(lanes: seq<Lane<T>>) returns (readings: seq<bool>)
    requires NoWires(lanes) && !UnmixedLanes(lanes)
    ensures TellsLanes(lanes, readings)
    decreases lanes
  {
    var nodes, rest := lanes[0].nodes, lanes[1..];
    LanesKept(lanes);
    if Unmixed(nodes) {
      var later := MixedLanesTell(rest);
      readings := Same(|Walk(nodes)|, false) + later;
      forall t: Trial | readings <= t.readings
        ensures Differ(RunLanes(Contact, lanes, t, true), RunLanes(Contact, NormaliseLanes(lanes), t, true))
      {
        var r := RunNodes(Contact, nodes, t, true);
        NormaliseKeepsMeaning(Contact, nodes, t, true);
        NormaliseKeepsSteps(nodes);
        NormaliseIsNormal(nodes);
        OpenContactsBlock(Normalise(nodes), t, true);
        TrialAdvances(nodes, t, true);
        assert later <= r.st.readings;
      }
    } else {
      var first := MixedTells(nodes);
      readings := first + Same(|WalkLanes(rest)|, false);
      forall t: Trial | readings <= t.readings
        ensures Differ(RunLanes(Contact, lanes, t, true), RunLanes(Contact, NormaliseLanes(lanes), t, true))
      {
        assert first <= t.readings;
        LaneStays(lanes, t);
      }
    }
  }

  /** What one lane loses is not made up for by later lanes whose contacts block. */
  lemma {:induction false} LaneStays<T>(lanes: seq<Lane<T>>, t: Trial)
    requires lanes != [] && NoWires(lanes)
    requires Differ(RunNodes(Contact, lanes[0].nodes, t, true), RunNodes(Contact, Normalise(lanes[0].nodes), t, true))
    requires |t.readings| >= |WalkLanes(lanes)|
    requires forall k | |Walk(lanes[0].nodes)| <= k < |WalkLanes(lanes)| :: !t.readings[k]
    ensures Differ(RunLanes(Contact, lanes, t, true), RunLanes(Contact, NormaliseLanes(lanes), t, true))
  {
    var nodes, rest := lanes[0].nodes, lanes[1..];
    var a, b := RunNodes(Contact, nodes, t, true), RunNodes(Contact, Normalise(nodes), t, true);
    LanesKept(lanes);
    TrialAdvances(nodes, t, true);
    TrialAdvances(Normalise(nodes), t, true);
    NormaliseKeepsSteps(nodes);
    assert Reads(b.st, |WalkLanes(rest)|, false);
    LaterLanes(rest, a, b);
  }

  lemma {:induction false} LaterLanes<T>(rest: seq<Lane<T>>, a: Result<Trial>, b: Result<Trial>)
    requires Differ(a, b) && |a.st.received| == |b.st.received| && Reads(b.st, |WalkLanes(rest)|, false)
    ensures var x, y := RunLanes(Contact, rest, a.st, true), RunLanes(Contact, NormaliseLanes(rest), b.st, true);
      Differ(Result(x.st, a.power || x.power), Result(y.st, b.power || y.power))
  {
    var x, y := RunLanes(Contact, rest, a.st, true), RunLanes(Contact, NormaliseLanes(rest), b.st, true);
    NormaliseLanesAreNormal(rest);
    NormaliseLanesKeepSteps(rest);
    LanesAdvance(rest, a.st, true);
    LanesAdvance(NormaliseLanes(rest), b.st, true);
    OpenLanesBlock(NormaliseLanes(rest), b.st, true);
    if a.st.received != b.st.received {
      PrefixesDiffer(a.st.received, x.st.received, b.st.received, y.st.received);
    }
  }

  /** The contacts receive the same power, and so does what follows the tree. */
  predicate SameRun<T>(nodes: seq<Node<T>>, t: Trial, power: bool) {
    RunNodes(Contact, Normalise(nodes), t, power) == RunNodes(Contact, nodes, t, power)
  }

  /** Normalising keeps the meaning of a tree exactly when no branch in it is mixed: contacts tell
   *  any other tree from its normal form. */
  lemma {:induction false} KeepsMeaningIffUnmixed<T>(nodes: seq<Node<T>>)
    ensures Unmixed(nodes) <==> forall t: Trial, power: bool :: SameRun(nodes, t, power)
  {
    if Unmixed(nodes) {
      forall t: Trial, power: bool
        ensures SameRun(nodes, t, power)
      {
        NormaliseKeepsMeaning(Contact, nodes, t, power);
      }
    } else {
      var readings := MixedTells(nodes);
      var t := Trial(readings, []);
      assert Differ(RunNodes(Contact, nodes, t, true), RunNodes(Contact, Normalise(nodes), t, true));
      assert !SameRun(nodes, t, true);
    }
  }

  // ----- paths -----

  /** `first_step_path`: node index, lane index, node index and so on. */
  function FirstStepPath<T>(nodes: seq<Node<T>>, index: nat): Option<seq<nat>>
    decreases nodes
  {
    if nodes == [] then None
    else
      match nodes[0]
      case Step(_) => Some([index])
      case Branch(lanes) =>
        match FirstInLanes(lanes, 0)
        case Some(path) => Some([index] + path)
        case None => FirstStepPath(nodes[1..], index + 1)
  }

  function FirstInLanes<T>(lanes: seq<Lane<T>>, index: nat): Option<seq<nat>>
    decreases lanes
  {
    if lanes == [] then None
    else
      match FirstStepPath(lanes[0].nodes, 0)
      case Some(path) => Some([index] + path)
      case None => FirstInLanes(lanes[1..], index + 1)
  }

  /** The node at a path, or None where the lookup raises. */
  function NodeAt<T>(nodes: seq<Node<T>>, path: seq<nat>): Option<Node<T>>
    decreases |path|
  {
    if path == [] || path[0] >= |nodes| then None
    else if |path| == 1 then Some(nodes[path[0]])
    else
      match nodes[path[0]]
      case Step(_) => None
      case Branch(lanes) => if path[1] >= |lanes| then None else NodeAt(lanes[path[1]].nodes, path[2..])
  }

  /** `get_node_at_path`: the loop moves down two path elements at a time. */
  method GetNodeAtPath<T>(nodes: seq<Node<T>>, path: seq<nat>) returns (r: Option<Node<T>>)
    ensures r == NodeAt(nodes, path)
  {
    var current, cursor := nodes, 0;
    assert path[0..] == path;
    while cursor < |path| - 1
      invariant 0 <= cursor <= |path| && NodeAt(current, path[cursor..]) == NodeAt(nodes, path)
    {
      var here := path[cursor..];
      assert here[2..] == path[cursor + 2..];
      if here[0] >= |current| || current[here[0]].Step? || here[1] >= |current[here[0]].lanes| {
        return None;
      }
      current := current[path[cursor]].lanes[path[cursor + 1]].nodes;
      cursor := cursor + 2;
    }
    if cursor >= |path| || path[cursor] >= |current| {
      return None;
    }
    r := Some(current[path[cursor]]);
  }

  /** `first_step_path` finds the first instruction of the tree, and fails only where there is none. */
  lemma {:induction false} FirstPathIsFirstStep<T>(nodes: seq<Node<T>>, index: nat, before: seq<Node<T>>)
    requires |before| == index
    ensures FirstStepPath(nodes, index).None? <==> Walk(nodes) == []
    ensures FirstStepPath(nodes, index).Some?
            ==> NodeAt(before + nodes, FirstStepPath(nodes, index).value) == Some(Step(Walk(nodes)[0]))
    decreases nodes
  {
    hide FirstInLanes, WalkLanes;
    if nodes != [] {
      var all := before + nodes;
      assert all[index] == nodes[0];
      if nodes[0].Branch? {
        FirstLaneIsFirstStep(nodes[0].lanes, 0, []);
        assert [] + nodes[0].lanes == nodes[0].lanes;
        var inner := FirstInLanes(nodes[0].lanes, 0);
        if inner.Some? {
          assert ([index] + inner.value)[2..] == inner.value[1..];
        } else {
          FirstPathIsFirstStep(nodes[1..], index + 1, before + [nodes[0]]);
          assert before + [nodes[0]] + nodes[1..] == all;
        }
      }
    }
  }

  lemma {:induction false} FirstLaneIsFirstStep<T>(lanes: seq<Lane<T>>, index: nat, before: seq<Lane<T>>)
    requires |before| == index
    ensures FirstInLanes(lanes, index).None? <==> WalkLanes(lanes) == []
    ensures var path := FirstInLanes(lanes, index);
            path.Some? ==> |path.value| >= 2 && path.value[0] < |before + lanes|
                           && NodeAt((before + lanes)[path.value[0]].nodes, path.value[1..])
                             == Some(Step(WalkLanes(lanes)[0]))
    decreases lanes
  {
    if lanes != [] {
      var all := before + lanes;
      assert all[index] == lanes[0];
      FirstPathIsFirstStep(lanes[0].nodes, 0, []);
      assert [] + lanes[0].nodes == lanes[0].nodes;
      var path := FirstStepPath(lanes[0].nodes, 0);
      if path.Some? {
        assert ([index] + path.value)[1..] == path.value;
      } else {
        FirstLaneIsFirstStep(lanes[1..], index + 1, before + [lanes[0]]);
        assert before + [lanes[0]] + lanes[1..] == all;
      }
    }
  }
}
