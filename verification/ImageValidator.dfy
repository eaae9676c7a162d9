/** `rsm_runtime_validate_image`: the loops that check an image, against what an acceptable image is. */
module ImageValidator {
  import opened Bytes
  import opened Crc
  import opened Instructions
  import opened Brackets
  import opened Admission
  import opened Safety
  import opened ImageFormat

  // ----- the directory -----

  /** `sections`. */
  method FindSection(x: seq<byte>, wanted: nat) returns (r: Option<seq<byte>>)
    ensures r == SectionOf(x, wanted)
  {
    if |x| < HEADER_SIZE {
      return None;
    }
    var count := U16(x, 18);
    if HEADER_SIZE + DESCRIPTOR_SIZE * count > |x| {
      return None;
    }
    ghost var ds := Descriptors(x, count);
    var j := 0;
    while j < count
      invariant 0 <= j <= count && Lookup(ds, x, wanted) == Lookup(ds[j..], x, wanted)
    {
      var d := DescriptorAt(x, j);
      assert ds[j..][0] == d && ds[j..][1..] == ds[j + 1..];
      if !Inside(d, |x|) {
        return None;
      }
      if d.id == wanted {
        return Some(x[d.at..d.at + d.size]);
      }
      j := j + 1;
    }
    r := None;
  }

  /** Addition of 32-bit words. */
  function Add32(a: uint32, b: uint32): uint32 {
    (a + b) % 0x1_0000_0000
  }

  /** The descriptor is apart from the ones before it. */
  method CheckApart(x: seq<byte>, i: nat) returns (ok: bool)
    requires i < SECTION_COUNT && DIRECTORY_END <= |x| <= UINT32_MAX
    requires forall k | 0 <= k <= i :: SectionOk(DescriptorAt(x, k), |x|)
    ensures ok <==> forall j | 0 <= j < i :: Apart(DescriptorAt(x, i), DescriptorAt(x, j))
  {
    hide U16, U32, DescriptorAt;
    var d := DescriptorAt(x, i);
    var j := 0;
    while j < i
      invariant 0 <= j <= i && forall k | 0 <= k < j :: Apart(d, DescriptorAt(x, k))
    {
      var e := DescriptorAt(x, j);
      assert SectionOk(d, |x|) && SectionOk(e, |x|);
      if d.id == e.id || (d.at < Add32(e.at, e.size) && e.at < Add32(d.at, d.size)) {
        return false;
      }
      j := j + 1;
    }
    ok := true;
  }

  method CheckDirectory(x: seq<byte>) returns (ok: bool)
    requires DIRECTORY_END <= |x| <= UINT32_MAX
    ensures ok <==> DirectoryOfOk(x)
  {
    ghost var ds := Descriptors(x, SECTION_COUNT);
    var i := 0;
    while i < SECTION_COUNT
      invariant 0 <= i <= SECTION_COUNT
      invariant forall k | 0 <= k < i :: SectionOk(ds[k], |x|) && forall j | 0 <= j < k :: Apart(ds[k], ds[j])
    {
      var d := DescriptorAt(x, i);
      assert ds[i] == d;
      if !SectionOk(d, |x|) {
        return false;
      }
      forall k | 0 <= k <= i
        ensures SectionOk(DescriptorAt(x, k), |x|)
      {
        assert ds[k] == DescriptorAt(x, k);
      }
      var apart := CheckApart(x, i);
      if !apart {
        assert exists j :: 0 <= j < i && !Apart(d, DescriptorAt(x, j));
        ghost var j :| 0 <= j < i && !Apart(d, DescriptorAt(x, j));
        assert !Apart(ds[i], ds[j]);
        return false;
      }
      forall j | 0 <= j < i
        ensures Apart(ds[i], ds[j])
      {
        assert Apart(d, DescriptorAt(x, j));
      }
      i := i + 1;
    }
    ok := true;
  }

  // ----- the tag table -----

  method CheckTags(t: seq<byte>) returns (ok: bool)
    ensures ok <==> TagsOk(t)
  {
    if |t| < 4 || |t| != 4 + U32(t, 0) * 20 {
      return false;
    }
    var tags: int := U32(t, 0);
    var k: int := 0;
    while k < tags
      invariant 0 <= k <= tags
      invariant forall j | 0 <= j < k :: DeclOk(DeclAt(t, j)) && t[7 + j * 20] == 0
    {
      var at := 4 + k * 20;
      if t[at] < 1 || t[at] > 5 || t[at + 1] > 2 || t[at + 3] != 0 {
        assert !(DeclOk(DeclAt(t, k)) && t[7 + k * 20] == 0);
        return false;
      }
      k := k + 1;
    }
    ok := true;
  }

  // ----- the stream -----

  /** The operand checks common to all instructions. */
  method CheckOperands(decls: seq<Decl>, args: seq<Operand>) returns (ok: bool)
    ensures ok <==> forall o | o in args :: OperandOk(decls, o)
  {
    var k := 0;
    while k < |args|
      invariant 0 <= k <= |args| && forall j | 0 <= j < k :: OperandOk(decls, args[j])
    {
      var q := args[k];
      if q.kind < 1 || q.kind > 2 || q.typ < 1 || q.typ > 5 {
        return false;
      }
      if q.kind == 1 {
        if q.raw >= |decls| || OperandType(decls, q) != q.typ {
          return false;
        }
      } else if q.member != 0 {
        return false;
      }
      k := k + 1;
    }
    ok := true;
  }

  /** The checks of an ordinary record, in the order of the validator. */
  method CheckOrdinary(decls: seq<Decl>, i: Instr) returns (ok: bool)
    requires OpcodeKnown(i.op) && |i.args| <= 3 && !IsControl(i.op)
    ensures ok <==> InstrOk(decls, i)
  {
    if |i.args| != Need(i.op) {
      return false;
    }
    if (if IsStateful(i.op) then i.slot < 0 else i.slot != -1) {
      return false;
    }
    ok := CheckOperands(decls, i.args);
    if ok {
      ok := FirstOperandOk(decls, i.op, i.args[0]) && OperandsOk(decls, i);
    }
  }

  /** The stack held in the arrays of the validator; entry 0 is not used. */
  ghost function StackOf(open: seq<bool>, lanes: seq<byte>, depth: nat): seq<Frame>
    requires depth < |open| && depth < |lanes|
  {
    seq(depth, k requires 0 <= k < depth => Frame(open[k + 1], lanes[k + 1]))
  }

  method CheckBracket(
      op: byte, depth: nat, laneOpen: array<bool>, laneCount: array<byte>) returns (ok: bool, deeper: nat)
    requires IsControl(op) && depth <= MAX_DEPTH && laneOpen.Length == laneCount.Length == MAX_DEPTH + 1
    modifies laneOpen, laneCount
    ensures deeper <= MAX_DEPTH
    ensures ok <==> Next(StackOf(old(laneOpen[..]), old(laneCount[..]), depth), op).Some?
    ensures ok ==>
              StackOf(laneOpen[..], laneCount[..], deeper)
              == Next(StackOf(old(laneOpen[..]), old(laneCount[..]), depth), op).value
  {
    ghost var stack := StackOf(laneOpen[..], laneCount[..], depth);
    deeper := depth;
    if op == OP_BRANCH_BEGIN {
      if depth + 1 > MAX_DEPTH {
        return false, depth;
      }
      deeper := depth + 1;
      laneOpen[deeper], laneCount[deeper] := false, 0;
    } else if op == OP_LANE_BEGIN {
      if depth == 0 || laneOpen[depth] {
        return false, depth;
      }
      laneOpen[depth], laneCount[depth] := true, (laneCount[depth] as int + 1) % 0x100;
    } else if op == OP_LANE_END {
      if depth == 0 || !laneOpen[depth] {
        return false, depth;
      }
      laneOpen[depth] := false;
    } else {
      if depth == 0 || laneOpen[depth] || laneCount[depth] == 0 {
        return false, depth;
      }
      deeper := depth - 1;
    }
    ok := true;
  }

  /** The verdict on the stream from here on, given the open branches and the last slot. */
  predicate RestOk(decls: seq<Decl>, s: seq<byte>, stack: seq<Frame>, last: int) {
    && Parse(s).Some?
    && (forall i | i in Parse(s).value :: InstrOk(decls, i))
    && Increasing(Slots(Parse(s).value), last)
    && Balanced(Parse(s).value, stack)
  }

  function LastSlot(i: Instr, last: int): int {
    if IsStateful(i.op) then i.slot else last
  }

  lemma {:induction false} RestTurn(decls: seq<Decl>, s: seq<byte>, stack: seq<Frame>, last: int)
    requires s != []
    ensures RestOk(decls, s, stack, last) <==>
            && Fits(s) && InstrOk(decls, ReadInstr(s))
            && (IsStateful(ReadInstr(s).op) ==> last < ReadInstr(s).slot)
            && Next(stack, ReadInstr(s).op).Some?
            && RestOk(decls, s[Size(ReadInstr(s))..], Next(stack, ReadInstr(s).op).value, LastSlot(ReadInstr(s), last))
  {
    if Fits(s) && Parse(s).Some? {
      hide Fits, ReadInstr, InstrOk, Next;
      var code := Parse(s).value;
      assert code[0] == ReadInstr(s) && code[1..] == Parse(s[Size(ReadInstr(s))..]).value;
      assert code == [code[0]] + code[1..];
      assert IsStateful(code[0].op) ==> Slots(code)[1..] == Slots(code[1..]);
      assert !IsStateful(code[0].op) ==> Slots(code) == Slots(code[1..]);
    }
  }

  lemma {:induction false} RestEnd(decls: seq<Decl>, stack: seq<Frame>, last: int)
    ensures RestOk(decls, [], stack, last) <==> stack == []
  {
  }

  lemma {:induction false} RestStart(decls: seq<Decl>, code: seq<byte>)
    ensures StreamBytesOk(decls, code) <==> RestOk(decls, code, [], -1)
    ensures StreamBytesOk(decls, code) ==> Parse(code).Some?
  {
  }

  lemma {:induction false} NoStack(open: seq<bool>, lanes: seq<byte>)
    requires open != [] && lanes != []
    ensures StackOf(open, lanes, 0) == []
  {
  }

  lemma {:induction false} StackHeight(open: seq<bool>, lanes: seq<byte>, depth: nat)
    requires depth < |open| && depth < |lanes|
    ensures |StackOf(open, lanes, depth)| == depth
  {
  }

  lemma {:induction false} HeadOk(decls: seq<Decl>, s: seq<byte>)
    ensures Fits(s) ==> |s| >= 12
    ensures Fits(s) && InstrOk(decls, ReadInstr(s)) ==> OpcodeKnown(s[0]) && s[1] <= 3
  {
  }

  lemma {:induction false} ControlOk(decls: seq<Decl>, i: Instr)
    requires IsControl(i.op)
    ensures InstrOk(decls, i) <==> i.args == [] && i.slot == -1
  {
  }

  lemma {:induction false} OrdinaryOk(decls: seq<Decl>, i: Instr, stack: seq<Frame>)
    requires !IsControl(i.op)
    ensures Next(stack, i.op) == Some(stack)
    ensures InstrOk(decls, i) ==> (i.slot >= 0 <==> IsStateful(i.op))
  {
  }

  lemma {:induction false} CountTurn(s: seq<byte>)
    requires s != [] && Fits(s)
    ensures Size(ReadInstr(s)) <= |s|
    ensures var rest := Parse(s[Size(ReadInstr(s))..]);
            && (Parse(s).Some? <==> rest.Some?) && (rest.Some? ==> |Parse(s).value| == |rest.value| + 1)
  {
  }

  lemma {:induction false} NoRecords()
    ensures Parse([]) == Some([])
  {
  }

  /** The record fits and is one the validator can go on from. */
  method CheckHead(decls: seq<Decl>, code: seq<byte>, o: nat) returns (status: ImageStatus, i: Instr)
    requires o < |code|
    ensures status == IMAGE_OK <==> Fits(code[o..]) && OpcodeKnown(code[o]) && code[o + 1] <= 3
    ensures status == IMAGE_OK ==> i == ReadInstr(code[o..]) && OpcodeKnown(i.op) && |i.args| <= 3
    ensures status == UNSUPPORTED_OPCODE ==> |code| - o >= 12 && !OpcodeKnown(code[o])
  {
    i := Instr(0, 0, -1, []);
    if |code| - o < 12 {
      return BAD_IMAGE, i;
    }
    if !OpcodeKnown(code[o]) {
      return UNSUPPORTED_OPCODE, i;
    }
    if code[o + 1] > 3 || |code| - o < 12 + code[o + 1] * 8 {
      return BAD_IMAGE, i;
    }
    assert code[o..|code|] == code[o..];
    i := Fetch(code, o, |code|);
    status := IMAGE_OK;
  }

  /** The loop over the records; instructions counts them. */
  method CheckStream(decls: seq<Decl>, code: seq<byte>) returns (status: ImageStatus, instructions: nat)
    ensures status == IMAGE_OK <==> StreamBytesOk(decls, code)
    ensures status == IMAGE_OK ==> instructions == |Parse(code).value|
  {
    hide RestOk, StreamBytesOk, InstrOk, Next, Fits, ReadInstr, Parse, StackOf;
    var laneOpen, laneCount := new bool[MAX_DEPTH + 1](_ => false), new byte[MAX_DEPTH + 1](_ => 0);
    var o, depth := 0, 0;
    var last: int := -1;
    instructions := 0;
    RestStart(decls, code);
    NoStack(laneOpen[..], laneCount[..]);
    assert code[0..] == code;
    while o < |code|
      invariant 0 <= o <= |code| && 0 <= depth <= MAX_DEPTH
      invariant StreamBytesOk(decls, code)
                <==> RestOk(decls, code[o..], StackOf(laneOpen[..], laneCount[..], depth), last)
      invariant Parse(code).Some? && Parse(code[o..]).Some?
                ==> |Parse(code).value| == instructions + |Parse(code[o..]).value|
      decreases |code| - o
    {
      ghost var stack, s := StackOf(laneOpen[..], laneCount[..], depth), code[o..];
      RestTurn(decls, s, stack, last);
      HeadOk(decls, s);
      assert s[0] == code[o] && (|s| > 1 ==> s[1] == code[o + 1]);
      var i;
      status, i := CheckHead(decls, code, o);
      if status != IMAGE_OK {
        return status, instructions;
      }
      var ok: bool;
      if IsControl(i.op) {
        ControlOk(decls, i);
        if i.args != [] || i.slot != -1 {
          return BAD_IMAGE, instructions;
        }
        ok, depth := CheckBracket(i.op, depth, laneOpen, laneCount);
      } else {
        ok := CheckOrdinary(decls, i);
        OrdinaryOk(decls, i, stack);
        if ok && i.slot >= 0 {
          if last >= 0 && i.slot <= last {
            return BAD_IMAGE, instructions;
          }
          last := i.slot;
        }
      }
      if !ok {
        return BAD_IMAGE, instructions;
      }
      CountTurn(s);
      assert s[Size(i)..] == code[o + Size(i)..];
      o := o + Size(i);
      instructions := instructions + 1;
    }
    assert code[o..] == [];
    RestEnd(decls, StackOf(laneOpen[..], laneCount[..], depth), last);
    StackHeight(laneOpen[..], laneCount[..], depth);
    NoRecords();
    status := if depth == 0 then IMAGE_OK else BAD_IMAGE;
  }

  // ----- the rung table -----

  lemma {:induction false} RungTurn(
      rungs: seq<RungRecord>, k: nat, previous: Option<uint32>, expected: nat, instructions: nat)
    requires k <= |rungs|
    ensures RungRecordsOk(rungs[k..], previous, expected, instructions) <==>
            if k == |rungs| then expected == instructions
            else
              && RoutineFollows(previous, rungs[k].routine)
              && rungs[k].start == expected && 0 < rungs[k].count && expected + rungs[k].count <= instructions
              && RungRecordsOk(rungs[k + 1..], Some(rungs[k].routine), expected + rungs[k].count, instructions)
  {
    if k < |rungs| {
      assert rungs[k..][0] == rungs[k] && rungs[k..][1..] == rungs[k + 1..];
    }
  }

  method CheckRungs(t: seq<byte>, instructions: uint32) returns (ok: bool)
    ensures ok <==> TableOk(t, 12) && RungRecordsOk(RungsOf(t), None, 0, instructions)
  {
    hide RungRecordsOk, U32;
    if |t| < 4 || |t| != 4 + U32(t, 0) * 12 {
      return false;
    }
    ghost var rungs := RungsOf(t);
    var count: int := U32(t, 0);
    var k: int := 0;
    var expected: nat := 0;
    var previous: Option<uint32> := None;
    assert rungs[0..] == rungs;
    while k < count
      invariant 0 <= k <= count && expected <= instructions
      invariant RungRecordsOk(rungs, None, 0, instructions)
                <==> RungRecordsOk(rungs[k..], previous, expected, instructions)
      invariant (k == 0 <==> previous.None?) && previous != Some(NO_ROUTINE) && (k == 0 ==> expected == 0)
    {
      RungTurn(rungs, k, previous, expected, instructions);
      var r := RungAt(t, k);
      assert rungs[k] == r;
      var jumps :=
        if k == 0 then r.routine != 0 else r.routine != previous.value && r.routine != Add32(previous.value, 1);
      if r.routine == NO_ROUTINE || jumps {
        NotFollowing(previous, r.routine);
        return false;
      }
      if r.start != expected || r.count == 0 || r.count > instructions - r.start {
        return false;
      }
      NotFollowing(previous, r.routine);
      previous, expected := Some(r.routine), Add32(expected, r.count);
      k := k + 1;
    }
    RungTurn(rungs, k, previous, expected, instructions);
    ok := expected == instructions && !(instructions != 0 && count == 0);
  }

  lemma {:induction false} NotFollowing(previous: Option<uint32>, routine: uint32)
    requires previous != Some(NO_ROUTINE)
    ensures RoutineFollows(previous, routine) <==>
            && routine != NO_ROUTINE
            && match previous
               case None => routine == 0
               case Some(q) => routine == q || routine == Add32(q, 1)
  {
  }

  lemma {:induction false} DepthOfOne(i: Instr, depth: nat)
    ensures Depth([i], depth) == if i.op == OP_BRANCH_BEGIN then Some(depth + 1)
                                 else if i.op == OP_BRANCH_END then (if depth == 0 then None else Some(depth - 1))
                                 else Some(depth)
  {
    assert [i][1..] == [];
  }

  /** Depth and position of a stretch extended by one record. */
  lemma {:induction false} DepthTurn(all: seq<Instr>, from: nat, n: nat)
    requires from <= n < |all|
    ensures Depth(all[from..n + 1], 0) == match Depth(all[from..n], 0)
                                          case None => None
                                          case Some(d) =>
                                            if all[n].op == OP_BRANCH_BEGIN then Some(d + 1)
                                            else if all[n].op == OP_BRANCH_END then
                                              (if d == 0 then None else Some(d - 1))
                                            else Some(d)
  {
    assert all[from..n + 1] == all[from..n] + [all[n]];
    DepthAppend(all[from..n], [all[n]], 0);
    if Depth(all[from..n], 0).Some? {
      DepthOfOne(all[n], Depth(all[from..n], 0).value);
    }
  }

  lemma {:induction false} DepthStuck(all: seq<Instr>, from: nat, n: nat, end: nat)
    requires from <= n <= end <= |all| && Depth(all[from..n], 0) == None
    ensures Depth(all[from..end], 0) == None
  {
    assert all[from..end] == all[from..n] + all[n..end];
    DepthAppend(all[from..n], all[n..end], 0);
  }

  lemma {:induction false} CloseTurn(all: seq<Instr>, counts: seq<nat>, n: nat, k: nat)
    requires n <= |all| && k <= |counts|
    ensures RungsClose(all[n..], counts[k..]) <==>
            if k == |counts| then n == |all|
            else
              && n + counts[k] <= |all| && Depth(all[n..n + counts[k]], 0) == Some(0)
              && RungsClose(all[n + counts[k]..], counts[k + 1..])
  {
    if k < |counts| {
      assert counts[k..][0] == counts[k] && counts[k..][1..] == counts[k + 1..];
      if n + counts[k] <= |all| {
        assert all[n..][..counts[k]] == all[n..n + counts[k]] && all[n..][counts[k]..] == all[n + counts[k]..];
      }
    }
  }

  /** One rung of `rung_boundaries_ok`. */
  method CheckRung(code: seq<byte>, offset: nat, count: uint32, ghost n: nat) returns (ok: bool, next: nat)
    requires Parse(code).Some? && n <= |Parse(code).value| && offset == Sizes(Parse(code).value[..n])
    ensures ok <==> n + count <= |Parse(code).value| && Depth(Parse(code).value[n..n + count], 0) == Some(0)
    ensures ok ==> next == Sizes(Parse(code).value[..n + count])
  {
    hide Parse, ReadInstr, Fits, Depth, Sizes;
    ghost var all := Parse(code).value;
    var seen: nat, depth: nat := 0, 0;
    next := offset;
    NoDepth(all, n);
    while seen < count
      invariant seen <= count && n + seen <= |all|
      invariant next == Sizes(all[..n + seen]) && Depth(all[n..n + seen], 0) == Some(depth)
    {
      if next + 12 > |code| {
        PastEnd(code, n + seen);
        return false, next;
      }
      NotAtEnd(code, n + seen);
      RecordHead(code, next);
      DepthTurn(all, n, n + seen);
      var op := code[next];
      if op == OP_BRANCH_BEGIN {
        depth := depth + 1;
      } else if op == OP_BRANCH_END {
        if depth == 0 {
          if n + count <= |all| {
            DepthStuck(all, n, n + seen + 1, n + count);
          }
          return false, next;
        }
        depth := depth - 1;
      }
      next := next + 12 + (code[next + 1] as int) * 8;
      seen := seen + 1;
    }
    ok := depth == 0;
  }

  lemma {:induction false} NoDepth(all: seq<Instr>, n: nat)
    requires n <= |all|
    ensures Depth(all[n..n], 0) == Some(0)
  {
  }

  lemma {:induction false} PastEnd(code: seq<byte>, n: nat)
    requires Parse(code).Some? && n <= |Parse(code).value| && Sizes(Parse(code).value[..n]) + 12 > |code|
    ensures n == |Parse(code).value|
  {
    hide Parse, ReadInstr, Fits;
    if n < |Parse(code).value| {
      RecordAt(code, n);
    }
  }

  lemma {:induction false} RecordHead(code: seq<byte>, at: nat)
    requires at <= |code| && Fits(code[at..])
    ensures at + 12 <= |code|
    ensures var i := ReadInstr(code[at..]); i.op == code[at] && Size(i) == 12 + (code[at + 1] as int) * 8
  {
  }

  /** `rung_boundaries_ok`. */
  method CheckBoundaries(code: seq<byte>, t: seq<byte>) returns (ok: bool)
    requires Parse(code).Some? && TableOk(t, 12)
    ensures ok <==> RungsClose(Parse(code).value, CountsOf(RungsOf(t)))
  {
    hide Parse, Sizes, Depth, RungsClose, U32;
    ghost var all, counts, n := Parse(code).value, CountsOf(RungsOf(t)), 0;
    var offset, k: nat := 0, 0;
    SizesOfNone(all);
    assert all[0..] == all && counts[0..] == counts;
    while k < U32(t, 0)
      invariant 0 <= n <= |all| && k <= U32(t, 0) && offset == Sizes(all[..n])
      invariant RungsClose(all, counts) <==> RungsClose(all[n..], counts[k..])
    {
      CloseTurn(all, counts, n, k);
      var count := U32(t, 12 + k * 12);
      assert counts[k] == RungsOf(t)[k].count == RungAt(t, k).count == count;
      ok, offset := CheckRung(code, offset, count, n);
      if !ok {
        return false;
      }
      n := n + count;
      k := k + 1;
    }
    CloseTurn(all, counts, n, k);
    StreamSize(code);
    WholeStream(code, n);
    ok := offset == |code|;
  }

  lemma {:induction false} WholeStream(code: seq<byte>, n: nat)
    requires Parse(code).Some? && n <= |Parse(code).value|
    ensures Sizes(Parse(code).value[..n]) == |code| <==> n == |Parse(code).value|
  {
    hide Parse;
    StreamSize(code);
    if n == |Parse(code).value| {
      SizesOfAll(Parse(code).value, n);
    } else {
      RecordAt(code, n);
    }
  }

  // ----- the image -----

  datatype Info = Info(size: nat, tags: nat, instructions: nat, rungs: nat)

  /** The three sections the runtime reads, once header, directory and checksum are in order. */
  method CheckContent(c: Content) returns (status: ImageStatus, info: Info)
    requires |c.code| <= UINT32_MAX
    ensures status == IMAGE_OK <==> ContentOk(c)
    ensures status == IMAGE_OK ==>
              info.tags == |DeclsOf(c.tags)| && info.instructions == |Parse(c.code).value|
                && info.rungs == |RungsOf(c.rungs)|
  {
    hide TagsOk, TableOk, StreamOk, RungRecordsOk, RungsClose, Parse, DeclsOf, RungsOf, U32;
    info := Info(0, 0, 0, 0);
    var ok := CheckTags(c.tags);
    if !ok {
      return BAD_IMAGE, info;
    }
    TagsAreTable(c.tags);
    var instructions;
    status, instructions := CheckStream(DeclsOf(c.tags), c.code);
    if status != IMAGE_OK {
      return status, info;
    }
    CountBound(c.code);
    ok := CheckRungs(c.rungs, instructions);
    if !ok {
      return BAD_IMAGE, info;
    }
    ok := CheckBoundaries(c.code, c.rungs);
    if !ok {
      return BAD_IMAGE, info;
    }
    info := Info(0, |DeclsOf(c.tags)|, instructions, |RungsOf(c.rungs)|);
  }

  lemma {:induction false} TagsAreTable(t: seq<byte>)
    requires TagsOk(t)
    ensures TableOk(t, 20)
  {
  }

  lemma {:induction false} CountBound(code: seq<byte>)
    requires Parse(code).Some?
    ensures |Parse(code).value| <= |code|
  {
  }

  /** `rsm_runtime_validate_image`. */
  method ValidateImage(x: seq<byte>) returns (status: ImageStatus, info: Info)
    ensures status == IMAGE_OK <==> ImageOk(x)
    ensures HeaderStatus(x) != IMAGE_OK ==> status == HeaderStatus(x)
    ensures HeaderStatus(x) == IMAGE_OK && !DirectoryOfOk(x) ==> status == BAD_IMAGE
    ensures HeaderStatus(x) == IMAGE_OK && DirectoryOfOk(x) && !CrcOk(x) ==> status == BAD_CRC
    ensures status == IMAGE_OK ==>
              var c := ContentOf(x).value;
              info == Info(|x|, |DeclsOf(c.tags)|, |Parse(c.code).value|, |RungsOf(c.rungs)|)
  {
    info := Info(0, 0, 0, 0);
    status := HeaderStatus(x);
    if status != IMAGE_OK {
      return;
    }
    HeaderSize(x);
    hide HeaderStatus, SectionOf, DirectoryOfOk, ContentOk, Checksum, Covered, U32, U16;
    var ok := CheckDirectory(x);
    if !ok {
      return BAD_IMAGE, info;
    }
    ContentIsThere(x);
    var crc := ComputeCrc(CRC32_POLYNOMIAL, Covered(x));
    if crc != U32(x, CRC_AT) {
      return BAD_CRC, info;
    }
    var tags := FindSection(x, RUNTIME_TAGS);
    var code := FindSection(x, INSTRUCTION_STREAM);
    var rungs := FindSection(x, RUNTIME_RUNGS);
    SectionFits(x, INSTRUCTION_STREAM);
    status, info := CheckContent(Content(tags.value, code.value, rungs.value));
    info := info.(size := |x|);
  }

  lemma {:induction false} HeaderSize(x: seq<byte>)
    requires HeaderStatus(x) == IMAGE_OK
    ensures DIRECTORY_END <= |x| <= UINT32_MAX
  {
  }

  lemma {:induction false} SectionFits(x: seq<byte>, wanted: nat)
    requires SectionOf(x, wanted).Some?
    ensures |SectionOf(x, wanted).value| <= |x|
  {
    LookupFits(Descriptors(x, U16(x, 18)), x, wanted);
  }

  lemma {:induction false} LookupFits(ds: seq<Section>, x: seq<byte>, wanted: nat)
    requires Lookup(ds, x, wanted).Some?
    ensures |Lookup(ds, x, wanted).value| <= |x|
    decreases |ds|
  {
    if ds[0].id != wanted {
      LookupFits(ds[1..], x, wanted);
    }
  }
}
