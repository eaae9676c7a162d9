/** Whole rung trees on the stack backend: branches keep their input and output power in cells of
 *  their own, and nested branches never touch the cells of the ones around them. */
module PropellerTrees {
  import opened Bytes
  import opened LadderTree
  import opened Normaliser
  import opened StackMachine
  import opened Propeller
  import opened PropellerSteps

  type Tree = seq<Node<LadderStep>>

  // ----- emitted code -----

  /** How many cells the branches of a tree take. */
  function CellsOf(nodes: Tree): nat
    decreases nodes
  {
    if nodes == [] then 0 else CellsOfNode(nodes[0]) + CellsOf(nodes[1..])
  }

  function CellsOfNode(node: Node<LadderStep>): nat
    decreases node
  {
    match node
    case Step(_) => 0
    case Branch(lanes) => 2 + CellsOfLanes(lanes)
  }

  function CellsOfLanes(lanes: seq<Lane<LadderStep>>): nat
    decreases lanes
  {
    if lanes == [] then 0 else CellsOf(lanes[0].nodes) + CellsOfLanes(lanes[1..])
  }

  /** Emission does not raise: the tags exist and no branch is without lanes. */
  predicate TreeKnown(l: Layout, nodes: Tree)
    decreases nodes
  {
    nodes == [] || (NodeKnown(l, nodes[0]) && TreeKnown(l, nodes[1..]))
  }

  predicate NodeKnown(l: Layout, node: Node<LadderStep>)
    decreases node
  {
    match node
    case Step(i) => StepKnown(l, i)
    case Branch(lanes) => lanes != [] && LanesKnown(l, lanes)
  }

  predicate LanesKnown(l: Layout, lanes: seq<Lane<LadderStep>>)
    decreases lanes
  {
    lanes == [] || (TreeKnown(l, lanes[0].nodes) && LanesKnown(l, lanes[1..]))
  }

  predicate TreeTyped(l: Layout, nodes: Tree)
    requires TreeKnown(l, nodes)
    decreases nodes
  {
    nodes == [] || (NodeTyped(l, nodes[0]) && TreeTyped(l, nodes[1..]))
  }

  predicate NodeTyped(l: Layout, node: Node<LadderStep>)
    requires NodeKnown(l, node)
    decreases node
  {
    match node
    case Step(i) => StepTyped(l, i)
    case Branch(lanes) => LanesTyped(l, lanes)
  }

  predicate LanesTyped(l: Layout, lanes: seq<Lane<LadderStep>>)
    requires LanesKnown(l, lanes)
    decreases lanes
  {
    lanes == [] || (TreeTyped(l, lanes[0].nodes) && LanesTyped(l, lanes[1..]))
  }

  /** The words of a tree whose branches take cells from next on. */
  function TreeCode(l: Layout, nodes: Tree, next: nat): seq<Word>
    requires TreeKnown(l, nodes)
    decreases nodes
  {
    if nodes == [] then [] else NodeCode(l, nodes[0], next) + TreeCode(l, nodes[1..], next + CellsOfNode(nodes[0]))
  }

  function NodeCode(l: Layout, node: Node<LadderStep>, next: nat): seq<Word>
    requires NodeKnown(l, node)
    decreases node
  {
    match node
    case Step(i) => StepCode(l, i)
    case Branch(lanes) =>
      assert LanesKnown(l, lanes);
      BranchHead(next) + (TreeCode(l, lanes[0].nodes, next + 2) + ([Cell(next + 1), Store]
      + (LanesCode(l, lanes[1..], next, next + 2 + CellsOf(lanes[0].nodes)) + [Cell(next + 1), Fetch])))
  }

  /** The input power goes to the branch's first cell. */
  function BranchHead(cell: nat): seq<Word> {
    [Dup] + ([Cell(cell), Store] + ([Drop] + [Cell(cell), Fetch]))
  }

  /** The lanes after the first: each starts from the stored input power, and its output is ORed to
   *  the branch's second cell. */
  function LanesCode(l: Layout, lanes: seq<Lane<LadderStep>>, cell: nat, next: nat): seq<Word>
    requires LanesKnown(l, lanes)
    decreases lanes
  {
    if lanes == [] then []
    else LaneCode(l, lanes[0], cell, next) + LanesCode(l, lanes[1..], cell, next + CellsOf(lanes[0].nodes))
  }

  function LaneCode(l: Layout, lane: Lane<LadderStep>, cell: nat, next: nat): seq<Word>
    requires TreeKnown(l, lane.nodes)
    decreases lane
  {
    [Cell(cell + 1), Fetch] + ([Cell(cell), Fetch]
      + (TreeCode(l, lane.nodes, next) + ([Or] + (ToBool() + [Cell(cell + 1), Store]))))
  }

  // ----- numbers that left the range stay left -----

  lemma {:induction false} FitsBefore(scan: int, nodes: Tree, e: Engine, power: bool)
    ensures RunNodes(Propeller.Steps(scan), nodes, e, power).st.fits ==> e.fits
    decreases nodes
  {
    if nodes != [] {
      var r := RunNode(Propeller.Steps(scan), nodes[0], e, power);
      FitsBefore(scan, nodes[1..], r.st, r.power);
      if nodes[0].Branch? {
        FitsBeforeLanes(scan, nodes[0].lanes, e, power);
      }
    }
  }

  lemma {:induction false} FitsBeforeLanes(scan: int, lanes: seq<Lane<LadderStep>>, e: Engine, power: bool)
    ensures RunLanes(Propeller.Steps(scan), lanes, e, power).st.fits ==> e.fits
    decreases lanes
  {
    if lanes != [] {
      FitsBefore(scan, lanes[0].nodes, e, power);
      FitsBeforeLanes(scan, lanes[1..], RunNodes(Propeller.Steps(scan), lanes[0].nodes, e, power).st, power);
    }
  }

  // ----- the theorem -----

  lemma {:induction false} HeadRuns(cell: nat, m: State, power: bool)
    requires cell < |m.cells|
    ensures Closed(BranchHead(cell))
            && Exec(BranchHead(cell), Push(m, [Bit(power)])) == Some(Push(SetCell(m, cell, Bit(power)), [Bit(power)]))
  {
    hide Exec, Closed;
    var m1 := Push(m, [Bit(power)]);
    var m2 := SetCell(m1, cell, Bit(power));
    var m3 := SetCell(m, cell, Bit(power));
    ExecDup(m, Bit(power));
    ExecStore(m1, cell, Bit(power));
    ExecWord(Drop, m2);
    assert m2.stack[..|m2.stack| - 1] == m.stack;
    ExecFetch(m3, cell);
    ExecAppend([Drop], [Cell(cell), Fetch], m2);
    ExecAppend([Cell(cell), Store], [Drop] + [Cell(cell), Fetch], Push(m1, [Bit(power)]));
    ExecAppend([Dup], [Cell(cell), Store] + ([Drop] + [Cell(cell), Fetch]), m1);
  }

  /** `OR PLC.BOOL out !`. */
  lemma {:induction false} MergeRuns(cell: nat, m: State, merged: bool, out: bool)
    requires cell < |m.cells|
    ensures var code := [Or] + (ToBool() + [Cell(cell), Store]);
            Closed(code) && Exec(code, Push(m, [Bit(merged), Bit(out)])) == Some(SetCell(m, cell, Bit(merged || out)))
  {
    hide Exec, Closed, ToBool;
    ExecBinary(m, Or, Bit(merged), Bit(out));
    OrBits(merged, out);
    FlagToCell(m, cell, Bit(merged || out));
    ExecAppend([Or], ToBool() + [Cell(cell), Store], Push(m, [Bit(merged), Bit(out)]));
  }

  lemma {:induction false} MirrorsAfter(l: Layout, scan: int, t: Tags, cells: seq<int>, at: nat, v: int)
    requires Mirrors(l, scan, t, cells) && FirstFree(l) <= at < |cells|
    ensures Mirrors(l, scan, t, cells[at := v])
  {
    var after := cells[at := v];
    forall k | 0 <= k < l.timers
      ensures TimerHeld(l, k, t.timers[k], after)
    {
      assert TimerHeld(l, k, t.timers[k], cells);
    }
  }

  /** The tree on the stack: the engine's power, the engine's tags, and the cells of the branches
   *  around it unchanged. */
  lemma {:induction false} TreeAgrees(l: Layout, scan: int, nodes: Tree, next: nat, e: Engine, m: State, power: bool)
    requires TreeKnown(l, nodes) && TreeTyped(l, nodes) && Mirrors(l, scan, e.tags, m.cells)
    requires FirstFree(l) <= next && next + CellsOf(nodes) <= |m.cells|
    requires RunNodes(Propeller.Steps(scan), nodes, e, power).st.fits
    ensures Closed(TreeCode(l, nodes, next))
    ensures Agrees(l, scan, m, RunNodes(Propeller.Steps(scan), nodes, e, power),
            Exec(TreeCode(l, nodes, next), Push(m, [Bit(power)])), next)
    decreases nodes
  {
    hide Exec, Closed, Mirrors, NodeCode;
    FitsBefore(scan, nodes, e, power);
    if nodes == [] {
      ExecNothing(Push(m, [Bit(power)]));
    } else {
      var r := RunNode(Propeller.Steps(scan), nodes[0], e, power);
      var first, rest := NodeCode(l, nodes[0], next), TreeCode(l, nodes[1..], next + CellsOfNode(nodes[0]));
      FitsBefore(scan, nodes[1..], r.st, r.power);
      NodeAgrees(l, scan, nodes[0], next, e, m, power);
      var m1 := Exec(first, Push(m, [Bit(power)])).value;
      var below := State(m.stack, m1.cells);
      assert m1 == Push(below, [Bit(r.power)]);
      TreeAgrees(l, scan, nodes[1..], next + CellsOfNode(nodes[0]), r.st, below, r.power);
      ExecAppend(first, rest, Push(m, [Bit(power)]));
    }
  }

  lemma {:induction false} NodeAgrees(
      l: Layout, scan: int, node: Node<LadderStep>, next: nat, e: Engine, m: State, power: bool)
    requires NodeKnown(l, node) && NodeTyped(l, node) && Mirrors(l, scan, e.tags, m.cells)
    requires FirstFree(l) <= next && next + CellsOfNode(node) <= |m.cells|
    requires e.fits && RunNode(Propeller.Steps(scan), node, e, power).st.fits
    ensures Closed(NodeCode(l, node, next))
    ensures Agrees(l, scan, m, RunNode(Propeller.Steps(scan), node, e, power),
            Exec(NodeCode(l, node, next), Push(m, [Bit(power)])), next)
    decreases node
  {
    match node
    case Step(i) => StepAgrees(l, scan, i, e, m, power, next);
    case Branch(lanes) => BranchAgrees(l, scan, lanes, next, e, m, power);
  }

  lemma {:induction false} BranchAgrees(
      l: Layout, scan: int, lanes: seq<Lane<LadderStep>>, next: nat, e: Engine, m: State, power: bool)
    requires lanes != [] && LanesKnown(l, lanes) && LanesTyped(l, lanes) && Mirrors(l, scan, e.tags, m.cells)
    requires FirstFree(l) <= next && next + 2 + CellsOfLanes(lanes) <= |m.cells|
    requires RunLanes(Propeller.Steps(scan), lanes, e, power).st.fits
    ensures Closed(NodeCode(l, Branch(lanes), next))
    ensures Agrees(l, scan, m, RunLanes(Propeller.Steps(scan), lanes, e, power),
            Exec(NodeCode(l, Branch(lanes), next), Push(m, [Bit(power)])), next)
    decreases lanes, 1
  {
    hide Exec, Closed, Mirrors, BranchHead, TreeCode, LanesCode, RunNodes;
    var first := RunNodes(Propeller.Steps(scan), lanes[0].nodes, e, power);
    var rest := RunLanes(Propeller.Steps(scan), lanes[1..], first.st, power);
    var d := next + 2 + CellsOf(lanes[0].nodes);
    // the input power is stored
    var m1 := SetCell(m, next, Bit(power));
    HeadRuns(next, m, power);
    MirrorsAfter(l, scan, e.tags, m.cells, next, Bit(power));
    // the first lane
    FitsBeforeLanes(scan, lanes[1..], first.st, power);
    TreeAgrees(l, scan, lanes[0].nodes, next + 2, e, m1, power);
    var code0 := TreeCode(l, lanes[0].nodes, next + 2);
    var m2 := State(m.stack, Exec(code0, Push(m1, [Bit(power)])).value.cells);
    assert Exec(code0, Push(m1, [Bit(power)])) == Some(Push(m2, [Bit(first.power)]));
    // its output is stored
    var m3 := SetCell(m2, next + 1, Bit(first.power));
    ExecStore(m2, next + 1, Bit(first.power));
    MirrorsAfter(l, scan, first.st.tags, m2.cells, next + 1, Bit(first.power));
    // the other lanes
    LanesAgree(l, scan, lanes[1..], next, d, first.st, m3, power, first.power);
    var codes := LanesCode(l, lanes[1..], next, d);
    var m4 := Exec(codes, m3).value;
    ExecFetch(m4, next + 1);
    ExecAppend(codes, [Cell(next + 1), Fetch], m3);
    ExecAppend([Cell(next + 1), Store], codes + [Cell(next + 1), Fetch], Push(m2, [Bit(first.power)]));
    ExecAppend(code0, [Cell(next + 1), Store] + (codes + [Cell(next + 1), Fetch]), Push(m1, [Bit(power)]));
    ExecAppend(BranchHead(next), code0 + ([Cell(next + 1), Store] + (codes + [Cell(next + 1), Fetch])),
      Push(m, [Bit(power)]));
  }

  /** What the code of the further lanes leaves: nothing on the stack, the merged power in the
   *  branch's second cell, and every other branch cell before next as it was. */
  predicate Merged(
      l: Layout, scan: int, cell: nat, next: nat, m: State, r: Result<Engine>, merged: bool, o: Option<State>) {
    && o.Some? && o.value.stack == m.stack && |o.value.cells| == |m.cells|
    && Mirrors(l, scan, r.st.tags, o.value.cells)
    && cell + 1 < |m.cells| && o.value.cells[cell + 1] == Bit(merged || r.power)
    && forall a | FirstFree(l) <= a < next && a < |m.cells| && a != cell + 1 :: o.value.cells[a] == m.cells[a]
  }

  lemma {:induction false} LanesAgree(
      l: Layout, scan: int, lanes: seq<Lane<LadderStep>>, cell: nat, next: nat, e: Engine, m: State, power: bool,
      merged: bool)
    requires LanesKnown(l, lanes) && LanesTyped(l, lanes) && Mirrors(l, scan, e.tags, m.cells)
    requires FirstFree(l) <= cell && cell + 2 <= next && next + CellsOfLanes(lanes) <= |m.cells|
    requires m.cells[cell] == Bit(power) && m.cells[cell + 1] == Bit(merged)
    requires RunLanes(Propeller.Steps(scan), lanes, e, power).st.fits
    ensures Closed(LanesCode(l, lanes, cell, next))
    ensures Merged(l, scan, cell, next, m, RunLanes(Propeller.Steps(scan), lanes, e, power), merged,
            Exec(LanesCode(l, lanes, cell, next), m))
    decreases lanes, 0
  {
    hide Exec, Closed, Mirrors, LaneCode, RunNodes;
    if lanes == [] {
      ExecNothing(m);
    } else {
      var first := RunNodes(Propeller.Steps(scan), lanes[0].nodes, e, power);
      FitsBeforeLanes(scan, lanes[1..], first.st, power);
      LaneAgrees(l, scan, lanes[0], cell, next, e, m, power, merged);
      var code, rest := LaneCode(l, lanes[0], cell, next),
          LanesCode(l, lanes[1..], cell, next + CellsOf(lanes[0].nodes));
      var m1 := Exec(code, m).value;
      LanesAgree(l, scan, lanes[1..], cell, next + CellsOf(lanes[0].nodes), first.st, m1, power, merged || first.power);
      ExecAppend(code, rest, m);
    }
  }

  lemma {:induction false} LaneAgrees(
      l: Layout, scan: int, lane: Lane<LadderStep>, cell: nat, next: nat, e: Engine, m: State, power: bool,
      merged: bool)
    requires TreeKnown(l, lane.nodes) && TreeTyped(l, lane.nodes) && Mirrors(l, scan, e.tags, m.cells)
    requires FirstFree(l) <= cell && cell + 2 <= next && next + CellsOf(lane.nodes) <= |m.cells|
    requires m.cells[cell] == Bit(power) && m.cells[cell + 1] == Bit(merged)
    requires RunNodes(Propeller.Steps(scan), lane.nodes, e, power).st.fits
    ensures Closed(LaneCode(l, lane, cell, next))
    ensures Merged(l, scan, cell, next, m, RunNodes(Propeller.Steps(scan), lane.nodes, e, power), merged,
            Exec(LaneCode(l, lane, cell, next), m))
    decreases lane
  {
    hide Exec, Closed, Mirrors, TreeCode, RunNodes, ToBool;
    var r := RunNodes(Propeller.Steps(scan), lane.nodes, e, power);
    ExecFetch(m, cell + 1);
    var m1 := Push(m, [Bit(merged)]);
    ExecFetch(m1, cell);
    TreeAgrees(l, scan, lane.nodes, next, e, m1, power);
    var code := TreeCode(l, lane.nodes, next);
    var cells := Exec(code, Push(m1, [Bit(power)])).value.cells;
    var m2 := State(m.stack, cells);
    assert m1.stack + [Bit(r.power)] == m.stack + [Bit(merged), Bit(r.power)];
    assert Exec(code, Push(m1, [Bit(power)])) == Some(Push(m2, [Bit(merged), Bit(r.power)]));
    MergeRuns(cell + 1, m2, merged, r.power);
    MirrorsAfter(l, scan, r.st.tags, cells, cell + 1, Bit(merged || r.power));
    var merge := [Or] + (ToBool() + [Cell(cell + 1), Store]);
    ExecAppend(code, merge, Push(m1, [Bit(power)]));
    ExecAppend([Cell(cell), Fetch], code + merge, m1);
    ExecAppend([Cell(cell + 1), Fetch], [Cell(cell), Fetch] + (code + merge), m);
  }

  // ----- rungs -----

  /** The rungs with the cell where the branches of each begin: rungs share the allocator. */
  function RungCode(l: Layout, rung: Tree, next: nat): seq<Word>
    requires TreeKnown(l, rung)
  {
    [Lit(1)] + (TreeCode(l, rung, next) + [Drop])
  }

  /** A rung word leaves the stack as it found it, and the cells with what the engine's rung
   *  does from power on. */
  lemma {:induction false} RungAgrees(l: Layout, scan: int, rung: Tree, next: nat, e: Engine, m: State)
    requires TreeKnown(l, rung) && TreeTyped(l, rung) && Mirrors(l, scan, e.tags, m.cells)
    requires FirstFree(l) <= next && next + CellsOf(rung) <= |m.cells|
    requires RunNodes(Propeller.Steps(scan), rung, e, true).st.fits
    ensures Closed(RungCode(l, rung, next))
    ensures var r, o := RunNodes(Propeller.Steps(scan), rung, e, true), Exec(RungCode(l, rung, next), m);
            o.Some? && o.value.stack == m.stack && |o.value.cells| == |m.cells|
              && Mirrors(l, scan, r.st.tags, o.value.cells)
  {
    hide Exec, Closed, Mirrors, TreeCode, RunNodes;
    var r := RunNodes(Propeller.Steps(scan), rung, e, true);
    ExecWord(Lit(1), m);
    TreeAgrees(l, scan, rung, next, e, m, true);
    var m1 := Exec(TreeCode(l, rung, next), Push(m, [Bit(true)])).value;
    ExecWord(Drop, m1);
    assert m1.stack[..|m1.stack| - 1] == m.stack;
    ExecAppend(TreeCode(l, rung, next), [Drop], Push(m, [Bit(true)]));
    ExecAppend([Lit(1)], TreeCode(l, rung, next) + [Drop], m);
  }

  /** The engine's scan of the rungs, without its trace. */
  function ScanRungs(scan: int, rungs: seq<Tree>, e: Engine): Engine {
    if rungs == [] then e else ScanRungs(scan, rungs[1..], RunNodes(Propeller.Steps(scan), rungs[0], e, true).st)
  }

  predicate RungsKnown(l: Layout, rungs: seq<Tree>) {
    forall k | 0 <= k < |rungs| :: TreeKnown(l, rungs[k])
  }

  predicate RungsTyped(l: Layout, rungs: seq<Tree>)
    requires RungsKnown(l, rungs)
  {
    forall k | 0 <= k < |rungs| :: TreeTyped(l, rungs[k])
  }

  function CellsOfRungs(rungs: seq<Tree>): nat {
    if rungs == [] then 0 else CellsOf(rungs[0]) + CellsOfRungs(rungs[1..])
  }

  function RungsCode(l: Layout, rungs: seq<Tree>, next: nat): seq<Word>
    requires RungsKnown(l, rungs)
  {
    if rungs == [] then []
    else
      assert TreeKnown(l, rungs[0]) && forall k | 0 <= k < |rungs[1..]| :: rungs[1..][k] == rungs[k + 1];
      RungCode(l, rungs[0], next) + RungsCode(l, rungs[1..], next + CellsOf(rungs[0]))
  }

  lemma {:induction false} ScanFits(scan: int, rungs: seq<Tree>, e: Engine)
    ensures ScanRungs(scan, rungs, e).fits ==> e.fits
    decreases |rungs|
  {
    if rungs != [] {
      ScanFits(scan, rungs[1..], RunNodes(Propeller.Steps(scan), rungs[0], e, true).st);
      FitsBefore(scan, rungs[0], e, true);
    }
  }

  /** The second backend is correct: for well-typed programs, as long as the engine's numbers fit a
   *  cell, one pass over the rung words leaves the stack alone and the tags and timers as one scan
   *  of the reference engine does. */
  lemma {:induction false} RungsAgree(l: Layout, scan: int, rungs: seq<Tree>, next: nat, e: Engine, m: State)
    requires RungsKnown(l, rungs) && RungsTyped(l, rungs) && Mirrors(l, scan, e.tags, m.cells)
    requires FirstFree(l) <= next && next + CellsOfRungs(rungs) <= |m.cells|
    requires ScanRungs(scan, rungs, e).fits
    ensures Closed(RungsCode(l, rungs, next))
    ensures var o := Exec(RungsCode(l, rungs, next), m);
            o.Some? && o.value.stack == m.stack && Mirrors(l, scan, ScanRungs(scan, rungs, e).tags, o.value.cells)
    decreases |rungs|
  {
    hide Exec, Closed, Mirrors, RungCode, RunNodes;
    if rungs == [] {
      ExecNothing(m);
    } else {
      var e1 := RunNodes(Propeller.Steps(scan), rungs[0], e, true).st;
      assert TreeKnown(l, rungs[0]) && TreeTyped(l, rungs[0])
             && forall k | 0 <= k < |rungs[1..]| :: rungs[1..][k] == rungs[k + 1];
      ScanFits(scan, rungs[1..], e1);
      RungAgrees(l, scan, rungs[0], next, e, m);
      var code, rest := RungCode(l, rungs[0], next), RungsCode(l, rungs[1..], next + CellsOf(rungs[0]));
      RungsAgree(l, scan, rungs[1..], next + CellsOf(rungs[0]), e1, Exec(code, m).value);
      ExecAppend(code, rest, m);
    }
  }
}
