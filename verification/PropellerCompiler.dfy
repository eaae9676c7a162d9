/** The reference engine and the stack backend as the objects they are: an engine whose tags are
 *  updated step by step, and a compile context that allocates cells and appends words. */
module PropellerCompiler {
  import opened Bytes
  import opened LadderTree
  import opened Normaliser
  import opened StackMachine
  import opened Propeller
  import opened PropellerSteps
  import opened PropellerTrees

  /** `LadderEngine`, without forces, counters and traces. */
  class LadderEngine {
    var scalars: seq<int>
    var timers: seq<Timer>
    ghost var fits: bool

    constructor (scalars: seq<int>, timers: seq<Timer>)
      ensures this.scalars == scalars && this.timers == timers && fits
    {
      this.scalars, this.timers, fits := scalars, timers, true;
    }

    ghost function Abstract(): Engine
      reads this
    {
      Engine(Tags(scalars, timers), fits)
    }

    /** `resolve_operand`. */
    method Resolve(s: Source) returns (v: int)
      ensures v == Value(Tags(scalars, timers), s)
    {
      match s
      case Scalar(tag) => v := if tag < |scalars| then scalars[tag] else 0;
      case Member(timer, m) => v := if timer < |timers| then MemberValue(timers[timer], m) else 0;
      case Number(n) => v := n;
    }

    /** `write_tag`. */
    method WriteTag(tag: nat, v: int)
      modifies this
      ensures Abstract() == Put(old(Abstract()), tag, v)
    {
      if tag < |scalars| {
        scalars := scalars[tag := v];
        fits := fits && Holds32(v);
      }
    }

    method ExecuteTimer(timer: nat, power: bool, scan: int)
      modifies this
      ensures Result(Abstract(), power) == Perform(scan, TON(timer), old(Abstract()), power)
    {
      if timer < |timers| {
        var t := timers[timer];
        if power {
          fits := fits && Holds32(t.acc + scan);
          var acc := if t.acc + scan < t.pre then t.acc + scan else t.pre;
          timers := timers[timer := Timer(t.pre, acc, acc >= t.pre, true, !(acc >= t.pre))];
        } else {
          timers := timers[timer := Timer(t.pre, 0, false, false, false)];
        }
      }
    }

    /** `_execute_step`. */
    method ExecuteStep(i: LadderStep, power: bool, scan: int) returns (out: bool)
      modifies this
      ensures Result(Abstract(), out) == Perform(scan, i, old(Abstract()), power)
    {
      out := power;
      match i {
        case XIC(s) =>
          var v := Resolve(s);
          out := power && v != 0;
        case XIO(s) =>
          var v := Resolve(s);
          out := power && v == 0;
        case CMP(c, a, b) =>
          var x := Resolve(a);
          var y := Resolve(b);
          out := power && Compare(c, x, y);
        case OTE(tag) => WriteTag(tag, Bit(power));
        case OTL(tag) =>
          if power {
            WriteTag(tag, 1);
          }
        case OTU(tag) =>
          if power {
            WriteTag(tag, 0);
          }
        case TON(timer) => ExecuteTimer(timer, power, scan);
        case MOV(tag, s) =>
          if power {
            var v := Resolve(s);
            WriteTag(tag, v);
          }
        case CLR(tag) =>
          if power {
            WriteTag(tag, 0);
          }
        case CLRTimer(timer) =>
          if power && timer < |timers| {
            timers := timers[timer := Timer(timers[timer].pre, 0, false, false, false)];
          }
        case ABS(tag, s) =>
          if power {
            var v := Resolve(s);
            WriteTag(tag, if v < 0 then -v else v);
          }
        case NEG(tag, s) =>
          if power {
            var v := Resolve(s);
            WriteTag(tag, -v);
          }
        case MATH(op, tag, a, b) =>
          if power {
            var x := Resolve(a);
            var y := Resolve(b);
            WriteTag(tag, Compute(op, x, y));
          }
      }
    }

    /** `_execute_nodes`. */
    method ExecuteNodes(nodes: Tree, power: bool, scan: int) returns (current: bool)
      modifies this
      ensures Result(Abstract(), current) == RunNodes(Propeller.Steps(scan), nodes, old(Abstract()), power)
      decreases nodes
    {
      hide Perform;
      current := power;
      var n := 0;
      assert nodes[0..] == nodes;
      while n < |nodes|
        invariant 0 <= n <= |nodes|
        invariant RunNodes(Propeller.Steps(scan), nodes[n..], Abstract(), current)
                  == RunNodes(Propeller.Steps(scan), nodes, old(Abstract()), power)
      {
        assert nodes[n..][0] == nodes[n] && nodes[n..][1..] == nodes[n + 1..];
        match nodes[n] {
          case Step(i) => current := ExecuteStep(i, current, scan);
          case Branch(lanes) =>
            if lanes != [] {
              current := ExecuteLanes(lanes, current, scan);
            }
        }
        n := n + 1;
      }
    }

    /** The lanes of a branch, and `any` of their outputs. */
    method ExecuteLanes(lanes: seq<Lane<LadderStep>>, power: bool, scan: int) returns (passes: bool)
      modifies this
      ensures Result(Abstract(), passes) == RunLanes(Propeller.Steps(scan), lanes, old(Abstract()), power)
      decreases lanes
    {
      hide Perform, RunNodes;
      passes := false;
      var k := 0;
      assert lanes[0..] == lanes;
      while k < |lanes|
        invariant 0 <= k <= |lanes|
        invariant var rest := RunLanes(Propeller.Steps(scan), lanes[k..], Abstract(), power);
                  Result(rest.st, passes || rest.power)
                    == RunLanes(Propeller.Steps(scan), lanes, old(Abstract()), power)
      {
        assert lanes[k..][0] == lanes[k] && lanes[k..][1..] == lanes[k + 1..];
        var out := ExecuteNodes(lanes[k].nodes, power, scan);
        passes := passes || out;
        k := k + 1;
      }
    }
  }

  /** `CompileContext` with the lines of the rung being emitted. */
  class CompileContext {
    const layout: Layout
    var dataIndex: nat
    var words: seq<Word>

    /** `_build_context`: the cells of mode, scan time and variables. */
    constructor (layout: Layout)
      ensures this.layout == layout && dataIndex == FirstFree(layout) && words == []
    {
      this.layout := layout;
      dataIndex, words := 2, [];
      new;
      var k := 0;
      while k < |layout.scalars|
        invariant k <= |layout.scalars| && dataIndex == 2 + 3 * k && words == []
      {
        AllocSome(3);
        k := k + 1;
      }
      k := 0;
      while k < layout.timers
        invariant k <= layout.timers && dataIndex == 2 + 3 * |layout.scalars| + 5 * k && words == []
      {
        AllocSome(5);
        k := k + 1;
      }
      k := 0;
      while k < layout.counters
        invariant k <= layout.counters && dataIndex == 2 + 3 * |layout.scalars| + 5 * layout.timers + 7 * k
                  && words == []
      {
        AllocSome(7);
        k := k + 1;
      }
    }

    /** `alloc_long_symbol`. */
    method AllocLong() returns (cell: nat)
      modifies this`dataIndex
      ensures cell == old(dataIndex) && dataIndex == old(dataIndex) + 1
    {
      cell := dataIndex;
      dataIndex := dataIndex + 1;
    }

    method AllocSome(n: nat)
      modifies this`dataIndex
      ensures dataIndex == old(dataIndex) + n
    {
      var k := 0;
      while k < n
        invariant k <= n && dataIndex == old(dataIndex) + k
      {
        var _ := AllocLong();
        k := k + 1;
      }
    }

    method Append(code: seq<Word>)
      modifies this`words
      ensures words == old(words) + code
    {
      words := words + code;
    }

    /** `_emit_nodes`: false where it raises. */
    method EmitNodes(nodes: Tree) returns (ok: bool)
      modifies this`words, this`dataIndex
      ensures ok <==> TreeKnown(layout, nodes)
      ensures ok ==>
                && words == old(words) + TreeCode(layout, nodes, old(dataIndex))
                && dataIndex == old(dataIndex) + CellsOf(nodes)
      decreases nodes
    {
      hide StepCode, StepKnown, NodeCode;
      var n := 0;
      assert nodes[0..] == nodes;
      while n < |nodes|
        invariant 0 <= n <= |nodes|
        invariant TreeKnown(layout, nodes) <==> TreeKnown(layout, nodes[n..])
        invariant TreeKnown(layout, nodes) ==>
                    && words + TreeCode(layout, nodes[n..], dataIndex)
                      == old(words) + TreeCode(layout, nodes, old(dataIndex))
                    && dataIndex + CellsOf(nodes[n..]) == old(dataIndex) + CellsOf(nodes)
      {
        assert nodes[n..][0] == nodes[n] && nodes[n..][1..] == nodes[n + 1..];
        ok := EmitNode(nodes[n]);
        if !ok {
          return false;
        }
        n := n + 1;
      }
      assert words + [] == words;
      ok := true;
    }

    method EmitNode(node: Node<LadderStep>) returns (ok: bool)
      modifies this`words, this`dataIndex
      ensures ok <==> NodeKnown(layout, node)
      ensures ok ==>
                && words == old(words) + NodeCode(layout, node, old(dataIndex))
                && dataIndex == old(dataIndex) + CellsOfNode(node)
      decreases node, 1
    {
      hide StepCode, StepKnown, BranchHead, TreeCode, LanesCode, TreeKnown;
      match node
      case Step(i) =>
        ok := StepKnown(layout, i);
        if ok {
          Append(StepCode(layout, i));
        }
      case Branch(lanes) =>
        if lanes == [] {
          return false;
        }
        ok := EmitBranch(node, lanes);
    }

    /** `_emit_branch`. */
    method EmitBranch(ghost node: Node<LadderStep>, lanes: seq<Lane<LadderStep>>) returns (ok: bool)
      requires node == Branch(lanes) && lanes != []
      modifies this`words, this`dataIndex
      ensures ok <==> NodeKnown(layout, node)
      ensures ok ==>
                && words == old(words) + NodeCode(layout, node, old(dataIndex))
                && dataIndex == old(dataIndex) + CellsOfNode(node)
      decreases node, 0
    {
      hide StepCode, StepKnown, BranchHead, TreeCode, LanesCode, TreeKnown;
      assert LanesKnown(layout, lanes) <==> TreeKnown(layout, lanes[0].nodes) && LanesKnown(layout, lanes[1..]);
      var inCell := AllocLong();
      var outCell := AllocLong();
      Append(BranchHead(inCell));
      ok := EmitNodes(lanes[0].nodes);
      if !ok {
        return false;
      }
      Append([Cell(outCell), Store]);
      ok := EmitLanes(lanes[1..], inCell, outCell);
      if !ok {
        return false;
      }
      Append([Cell(outCell), Fetch]);
    }

    method EmitLanes(lanes: seq<Lane<LadderStep>>, inCell: nat, outCell: nat) returns (ok: bool)
      requires outCell == inCell + 1
      modifies this`words, this`dataIndex
      ensures ok <==> LanesKnown(layout, lanes)
      ensures ok ==>
                && words == old(words) + LanesCode(layout, lanes, inCell, old(dataIndex))
                && dataIndex == old(dataIndex) + CellsOfLanes(lanes)
      decreases lanes
    {
      hide TreeCode, TreeKnown, LaneCode;
      var k := 0;
      assert lanes[0..] == lanes;
      while k < |lanes|
        invariant 0 <= k <= |lanes|
        invariant LanesKnown(layout, lanes) <==> LanesKnown(layout, lanes[k..])
        invariant LanesKnown(layout, lanes) ==>
                    && words + LanesCode(layout, lanes[k..], inCell, dataIndex)
                      == old(words) + LanesCode(layout, lanes, inCell, old(dataIndex))
                    && dataIndex + CellsOfLanes(lanes[k..]) == old(dataIndex) + CellsOfLanes(lanes)
      {
        assert lanes[k..][0] == lanes[k] && lanes[k..][1..] == lanes[k + 1..];
        ok := EmitLane(lanes[k], inCell, outCell);
        if !ok {
          return false;
        }
        k := k + 1;
      }
      assert words + [] == words;
      ok := true;
    }

    method EmitLane(lane: Lane<LadderStep>, inCell: nat, outCell: nat) returns (ok: bool)
      requires outCell == inCell + 1
      modifies this`words, this`dataIndex
      ensures ok <==> TreeKnown(layout, lane.nodes)
      ensures ok ==>
                && words == old(words) + LaneCode(layout, lane, inCell, old(dataIndex))
                && dataIndex == old(dataIndex) + CellsOf(lane.nodes)
      decreases lane
    {
      hide TreeCode, TreeKnown, ToBool;
      Append([Cell(outCell), Fetch] + [Cell(inCell), Fetch]);
      ok := EmitNodes(lane.nodes);
      if !ok {
        return false;
      }
      Append([Or] + (ToBool() + [Cell(outCell), Store]));
    }
  }
}
