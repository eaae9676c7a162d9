/** Projects that pass the compiler's gate and build, and whose images the runtime rejects: one for
 *  each of the conditions the gate leaves out. */
module Rejected {
  import opened Bytes
  import opened Instructions
  import opened LadderTree
  import opened Brackets
  import opened Source
  import opened Lowering
  import opened Validation
  import opened Compiled
  import opened ImageFormat
  import opened ImageBuilder
  import opened Building
  import opened ImageRoundTrip

  /** A bare one-shot: it names no tag, and both sides take it. */
  const ONE_SHOT := SourceInstr(ONS, [])

  /** What the project lowers to builds where the project fits, and the runtime rejects the image. */
  predicate ImageRejected(
      c: Controller, directions: Directions, ir: IRProgram, f: Floats, texts: seq<seq<byte>>, uid: seq<byte>,
      digest: seq<byte>)
  {
    LowersTo(c, directions, ir) && |texts| == SECTION_COUNT - 3 && |uid| == 16 && |digest| == 32
    && ProjectFits(f, c, texts)
    ==> Buildable(f, ir, texts) && !ImageOk(ImageFor(f, ir, texts, uid, digest))
  }

  /** The project passes the gate, and no image of it is ever accepted. */
  ghost predicate BuildsButRejected(c: Controller, directions: Directions) {
    && Admissible(c)
    && forall ir, f, texts, uid, digest :: ImageRejected(c, directions, ir, f, texts, uid, digest)
  }

  lemma {:induction false} RejectedIfNotDeployable(c: Controller, directions: Directions)
    requires Admissible(c) && !(Deployable(c, directions) && NoGaps(c.routines))
    ensures BuildsButRejected(c, directions)
  {
    hide Admissible, Deployable, NoGaps, ImageRejected;
    forall ir, f, texts, uid, digest
      ensures ImageRejected(c, directions, ir, f, texts, uid, digest)
    {
      OneImageRejected(c, directions, ir, f, texts, uid, digest);
    }
  }

  lemma {:induction false} OneImageRejected(
      c: Controller, directions: Directions, ir: IRProgram, f: Floats, texts: seq<seq<byte>>, uid: seq<byte>,
      digest: seq<byte>)
    requires Admissible(c) && !(Deployable(c, directions) && NoGaps(c.routines))
    ensures ImageRejected(c, directions, ir, f, texts, uid, digest)
  {
    hide Admissible, Deployable, NoGaps, LowersTo, ProjectFits, Buildable, ImageOk, ImageFor;
    if LowersTo(c, directions, ir) && |texts| == SECTION_COUNT - 3 && |uid| == 16 && |digest| == 32 {
      BuiltImageAcceptedIff(c, directions, ir, f, texts, uid, digest);
    }
  }

  /** A controller without tags and with one rung. */
  function OneRung(rung: Rung): Controller {
    Controller([], [[rung]])
  }

  lemma {:induction false} OneRungPlaced(rung: Rung)
    ensures AllRungs(OneRung(rung).routines, 0) == [Placed(0, rung)]
  {
    assert [[rung]][1..] == [];
    assert AllRungs([], 1) == [];
  }

  // ----- a contact on a literal -----

  /** XIC on the literal true. */
  const LITERAL_CONTACT := SourceInstr(XIC, [LiteralOf(BoolLit(true))])

  lemma {:induction false} LiteralContactRejected(directions: Directions)
    ensures BuildsButRejected(OneRung([Step(LITERAL_CONTACT)]), directions)
  {
    var rung := [Step(LITERAL_CONTACT)];
    OneRungPlaced(rung);
    LiteralContactPasses(directions);
    assert rung[1..] == [] && Walk(rung) == [LITERAL_CONTACT] + [];
    assert LITERAL_CONTACT in Walk(rung) && Placed(0, rung) in AllRungs(OneRung(rung).routines, 0);
    assert NodePasses([], rung[0]) && NodesPass([], rung);
    RejectedIfNotDeployable(OneRung(rung), directions);
  }

  lemma {:induction false} LiteralContactPasses(directions: Directions)
    ensures StepPasses([], LITERAL_CONTACT) && !StepDeploys(directions, LITERAL_CONTACT)
  {
    assert OperandPasses([], LITERAL_CONTACT.operands[0], Rules(XIC)[0]);
    assert !OperandDeploys(directions, XIC, LITERAL_CONTACT.operands[0], Rules(XIC)[0]);
  }

  /** Its image takes 432 bytes besides the texts. */
  lemma {:induction false} LiteralContactFits(f: Floats, texts: seq<seq<byte>>)
    ensures ProjectFits(f, OneRung([Step(LITERAL_CONTACT)]), texts) <==> 432 + |Concat(texts)| <= UINT32_MAX
  {
    var rung := [Step(LITERAL_CONTACT)];
    var rungs := [Placed(0, rung)];
    OneRungPlaced(rung);
    assert rung[1..] == [] && rungs[1..] == [];
    assert Walk(rung) == [LITERAL_CONTACT] + [] == [LITERAL_CONTACT];
    assert AllSteps(rungs) == [LITERAL_CONTACT] + AllSteps([]) == [LITERAL_CONTACT];
    assert [LITERAL_CONTACT][1..] == [] && CountOperands([]) == 0 && CountHidden([]) == 0;
    assert CountOperands([LITERAL_CONTACT]) == 1 && CountHidden([LITERAL_CONTACT]) == 0;
    var start := Counters(0, 0, 0);
    assert After(rung, start) == After([], AfterStep(LITERAL_CONTACT, start));
    assert AfterRungs(rungs, start).id == AfterRungs([], After(rung, start)).id == 1;
  }

  /** A rung of bare one-shots deploys when it has the accepted shape. */
  lemma {:induction false} OneRungDeploys(rung: Rung, directions: Directions)
    requires forall s | s in Walk(rung) :: s == ONE_SHOT
    ensures Deployable(OneRung(rung), directions) <==> Shaped(rung, MAX_DEPTH)
  {
    OneRungPlaced(rung);
    hide Shaped, AllRungs, Walk;
    assert Placed(0, rung) in [Placed(0, rung)];
  }

  // ----- too many lanes -----

  /** A branch of n lanes. */
  function WideBranch(n: nat): Node<SourceInstr> {
    Branch(seq(n, _ => Lane([Step(ONE_SHOT)])))
  }

  lemma {:induction false} WideBranchSteps(lanes: seq<Lane<SourceInstr>>)
    requires forall l | l in lanes :: l == Lane([Step(ONE_SHOT)])
    ensures ShapedLanes(lanes, MAX_DEPTH - 1) && forall s | s in WalkLanes(lanes) :: s == ONE_SHOT
  {
    if lanes != [] {
      assert lanes[0] in lanes && forall l | l in lanes[1..] :: l in lanes;
      WideBranchSteps(lanes[1..]);
      assert lanes[0].nodes[1..] == [] && Walk(lanes[0].nodes) == [ONE_SHOT] + Walk([]);
    }
  }

  /** A branch of one-shots deploys exactly when the number of its lanes is not a multiple of 256. */
  lemma {:induction false} WideBranchDeploysIff(n: nat, directions: Directions)
    ensures Deployable(OneRung([WideBranch(n)]), directions) <==> n % 256 != 0
  {
    var rung := [WideBranch(n)];
    WideBranchSteps(WideBranch(n).lanes);
    assert rung[1..] == [] && Walk(rung) == WalkNode(WideBranch(n)) + Walk([])
           && WalkNode(WideBranch(n)) == WalkLanes(WideBranch(n).lanes);
    OneRungDeploys(rung, directions);
    hide Deployable;
  }

  /** 256 lanes, or any multiple: the validator's counter comes back to 0. */
  lemma {:induction false} WideBranchRejected(n: nat, directions: Directions)
    requires n >= 2 && n % 0x100 == 0
    ensures BuildsButRejected(OneRung([WideBranch(n)]), directions)
  {
    var rung := [WideBranch(n)];
    OneRungPlaced(rung);
    assert NodePasses([], WideBranch(n));
    assert !ShapedNode(WideBranch(n), MAX_DEPTH);
    assert Placed(0, rung) in [Placed(0, rung)];
    RejectedIfNotDeployable(OneRung(rung), directions);
  }

  // ----- too deep -----

  /** Branches nested n deep. */
  function Nest(n: nat): Node<SourceInstr> {
    if n == 0 then Step(ONE_SHOT) else Branch([Lane([Nest(n - 1)]), Lane([Step(ONE_SHOT)])])
  }

  lemma {:induction false} NestPasses(n: nat, room: nat)
    ensures NodePasses([], Nest(n)) && (ShapedNode(Nest(n), room) <==> n <= room)
  {
    if n > 0 {
      NestPasses(n - 1, if room > 0 then room - 1 else 0);
      var lanes := Nest(n).lanes;
      assert lanes[0].nodes == [Nest(n - 1)] && [Nest(n - 1)][1..] == [];
      assert lanes[1].nodes == [Step(ONE_SHOT)] && [Step(ONE_SHOT)][1..] == [];
      if room > 0 {
        assert Shaped(lanes[0].nodes, room - 1) <==> n - 1 <= room - 1;
        assert Shaped(lanes[1].nodes, room - 1);
        assert lanes[1..] == [lanes[1]] && lanes[1..][1..] == [];
        assert ShapedLanes(lanes[1..], room - 1);
      }
    }
  }

  /** A nest of branches deploys exactly when it is at most 32 deep. */
  lemma {:induction false} NestDeploysIff(n: nat, directions: Directions)
    ensures Deployable(OneRung([Nest(n)]), directions) <==> n <= 32
  {
    var rung := [Nest(n)];
    NestPasses(n, MAX_DEPTH);
    NestSteps(n);
    assert rung[1..] == [] && Walk(rung) == WalkNode(Nest(n)) + Walk([]);
    OneRungDeploys(rung, directions);
    hide Deployable, ShapedNode;
  }

  lemma {:induction false} NestSteps(n: nat)
    ensures forall s | s in WalkNode(Nest(n)) :: s == ONE_SHOT
  {
    if n > 0 {
      NestSteps(n - 1);
      var lanes := Nest(n).lanes;
      assert Walk(lanes[0].nodes) == WalkNode(Nest(n - 1)) + Walk([]);
      assert Walk(lanes[1].nodes) == [ONE_SHOT] + Walk([]);
      assert WalkLanes(lanes) == Walk(lanes[0].nodes) + WalkLanes(lanes[1..]);
      assert WalkLanes(lanes[1..]) == Walk(lanes[1].nodes) + WalkLanes([]);
    }
  }

  lemma {:induction false} DeepNestRejected(n: nat, directions: Directions)
    requires n > 32
    ensures BuildsButRejected(OneRung([Nest(n)]), directions)
  {
    var rung := [Nest(n)];
    OneRungPlaced(rung);
    NestPasses(n, MAX_DEPTH);
    assert Placed(0, rung) in [Placed(0, rung)];
    RejectedIfNotDeployable(OneRung(rung), directions);
  }

  // ----- a routine without rungs in front -----

  lemma {:induction false} EmptyRoutineRejected(directions: Directions)
    ensures BuildsButRejected(Controller([], [[], [[Step(ONE_SHOT)]]]), directions)
  {
    var routines: seq<seq<Rung>> := [[], [[Step(ONE_SHOT)]]];
    assert routines[0] == [] && routines[1] != [];
    assert NodePasses([], Step(ONE_SHOT)) && RungPasses([], [Step(ONE_SHOT)]);
    RejectedIfNotDeployable(Controller([], routines), directions);
  }
}
