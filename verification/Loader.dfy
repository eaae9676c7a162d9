/** Loading an image: the validator, the section reads and the construction of the runtime. */
module Loader {
  import opened Bytes
  import opened Instructions
  import opened Brackets
  import opened Admission
  import opened Semantics
  import opened Machine
  import opened Safety
  import opened Runtime
  import opened ImageFormat
  import opened ImageValidator

  /** The initial tags of an accepted image, read record by record. */
  method ReadTags(t: seq<byte>) returns (tags: seq<Tag>)
    requires TableOk(t, 20)
    ensures tags == TagsOf(t)
  {
    tags := [];
    var k: int := 0;
    while k < U32(t, 0)
      invariant 0 <= k <= U32(t, 0) && tags == TagsOf(t)[..k]
    {
      tags := tags + [Tag(t[5 + k * 20], DataAt(t, k))];
      k := k + 1;
    }
  }

  /** How many records each rung has. */
  method ReadCounts(t: seq<byte>) returns (counts: seq<nat>)
    requires TableOk(t, 12)
    ensures counts == CountsOf(RungsOf(t))
  {
    counts := [];
    var k: int := 0;
    while k < U32(t, 0)
      invariant 0 <= k <= U32(t, 0) && counts == CountsOf(RungsOf(t))[..k]
    {
      counts := counts + [U32(t, 12 + k * 12)];
      k := k + 1;
    }
  }

  lemma {:induction false} AcceptedRecords(decls: seq<Decl>, code: seq<Instr>)
    requires forall i | i in code :: InstrOk(decls, i)
    ensures NoEndMarker(code) && CoilsHaveOperands(code) && forall i | i in code && IsControl(i.op) :: i.args == []
  {
  }

  /** `rsm_runtime_load_image`, given memory for it: an image is loaded exactly when it is
   *  acceptable, and the runtime then stands in the initial state of the program it holds. */
  method LoadImage(reals: RealOps, x: seq<byte>) returns (status: ImageStatus, r: Option<Runtime>)
    ensures status == IMAGE_OK <==> ImageOk(x)
    ensures status == IMAGE_OK <==> r.Some?
    ensures r.Some? ==>
              var c := ContentOf(x).value;
              && fresh(r.value) && r.value.Valid() && r.value.reals == reals && r.value.program == ProgramOf(c)
              && (forall k | 0 <= k < |Slots(ProgramOf(c).code)| :: 0 <= Slots(ProgramOf(c).code)[k] <= UINT32_MAX)
              && r.value.Abstract() == Initial(ProgramOf(c), TagsOf(c.tags))
  {
    hide SectionOf, HeaderStatus, DirectoryOfOk, CrcOk, StreamOk, RungRecordsOk, RungsClose, Parse, TagsOf, DeclsOf,
         RungsOf, Slots, Increasing;
    var info;
    status, info := ValidateImage(x);
    if status != IMAGE_OK {
      return status, None;
    }
    var tags := FindSection(x, RUNTIME_TAGS);
    var code := FindSection(x, INSTRUCTION_STREAM);
    var rungs := FindSection(x, RUNTIME_RUNGS);
    ghost var c := ContentOf(x).value;
    LoadedIsSound(c);
    AcceptedStream(c);
    var initial := ReadTags(tags.value);
    var counts := ReadCounts(rungs.value);
    var runtime := new Runtime(reals, code.value, initial, counts, ProgramOf(c));
    r := Some(runtime);
  }

  lemma {:induction false} AcceptedStream(c: Content)
    requires ContentOk(c)
    ensures TableOk(c.tags, 20) && TableOk(c.rungs, 12) && Parse(c.code).Some?
    ensures var code := Parse(c.code).value;
            && NoEndMarker(code) && CoilsHaveOperands(code) && (forall i | i in code && IsControl(i.op) :: i.args == [])
            && Increasing(Slots(code), -1)
  {
    hide InstrOk, Parse, Slots, Increasing;
    AcceptedRecords(DeclsOf(c.tags), Parse(c.code).value);
  }
}
