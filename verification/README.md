# RSmicro: a model of the ladder compiler, its runtime and its link

RSmicro compiles ladder logic into a program image and interprets that image in a small C runtime. This project models
both ends in Dafny and proves that they fit: what the compiler emits, the runtime accepts, and a scan does to the tags
what the rungs mean (`LadderRuns.ScanMeans`, `Deployment.DeployedScansMean`). It also covers the second backend, the
link protocol, the memory layout of a loaded program, route checking and the editor's normaliser.

Code that changes things in place keeps that form: the runtime, the compiler's emitters, the gate, the decoders and
the engines are classes or loops, each proved against a specification written as functions; the laws are proved about
the specification.

## The chain

1. `LadderTree` holds rung trees, `Source` a project's tags and instructions, `Validation` the gate a project passes
   before it is compiled.
2. `Lowering` numbers tags, slots and one-shot storage and flattens each tree into a bracketed stream; `Compiled`,
   `RecordNumbers` and `OneShotStorage` say what that stream is worth.
3. `Instructions` is the byte form of the stream. `ImageFormat`, `ImageBuilder`, `ImageValidator` and `ImageRoundTrip`
   build, check and read back the image; `Building` says which projects build, `Rejected` holds projects that build
   and are refused; `Crc` is the checksum.
4. `Loader` and `Arena` load it. `Runtime` is the class that runs it: byte offsets, linear arrays, the record search.
   `Machine` is the state machine the class refines.
5. `ControlFlow` shows that running a bracketed stream is evaluating the tree. It does not depend on what an
   instruction does; `Semantics` supplies that. `Brackets`, `Admission`, `Soundness` and `Safety` carry the
   validator's promise through every run, and `BranchFaults` says which accepted programs can raise the one structural
   fault that is left. `WholeScan` and `Deployment` put the chain together.
6. `LadderMeaning` says what a ladder means to its author, by mnemonic and tag identity, with no records, codes or
   slots. `LadderState` relates a store to the tags of a project, `LadderSteps` proves one instruction, `LadderScans`
   trees and rungs, `LadderRuns` whole scans with their inputs and outputs.
7. `InstructionLaws` states the effect of each opcode on the tags, `HostLaws` what the host reads, writes and forces,
   `LifecycleLaws` what a change of mode leaves, `GateLaws` what the gate admits and `AdmissionLaws` what the
   validator accepts; they are stated on tags, forces and records, not through the functions that compute them.
8. `LinkFormat`, `MessageFormat` and `ImageLayout` give the formats byte by byte, and `CheckValues` the check values
   of the two checksums.
9. `Runs`, `CounterLaw`, `TimerLaw`, `OneShotLaw` are laws over runs of any length, `ScanLaws` counts them in scans.

Beside the chain: `StackMachine`, `Propeller`, `PropellerSteps`, `PropellerTrees`, `PropellerCompiler`, `EngineLaws`
(stack code against the reference engine), `Frames`, `Streams`, `LinkFragments`, `Messages` (the link), `Routing`,
`Normaliser`. `Bytes` holds fixed-width numbers.

The image uses the CRC-32 of section 8 of RFC 1952, the frames the CRC-32C of section 12.1 of RFC 3720; the laws of
`Crc` hold for both.

## How the outside world enters

- The host's answers during a scan (inputs, output calls, clock, watchdog) are fields of `Machine.Hal`; every theorem
  holds for all of them, with inputs of scalar type.
- REAL values are bit patterns; conversion, arithmetic and comparison are the fields of `Semantics.RealOps`, and
  packing a REAL value into the image is `ImageBuilder.Floats`. No law of them is used.
- JSON section texts, the UUID and the digest of an image are given byte strings. The text check of a message is a
  predicate on bytes.
- Sizes of C structures, the largest `size_t` and the top of the address space are parameters of `Arena`.

## Where the code does less than it looks

Each of these is a theorem or a condition in one.

- The validator accepts an instruction inside a branch but outside its lanes; the interpreter then raises fault 20.
  `BranchFaults.StretchTellsTidy` and `BranchFaults.QuietRunTellsTidy` say for which code,
  `BranchFaults.StrayContactFaults` runs such a program, `Deployment.CompiledNeverBranchFault` excludes it for
  compiled code.
- The validator counts lanes in a byte, so it rejects a branch of 256 lanes; and it allows 32 nested branches
  (`Brackets.TreeIsBalanced`). The compiler limits neither: `Rejected.WideBranchRejected`,
  `Rejected.DeepNestRejected`.
- The gate admits projects that the runtime rejects: contacts on members or literals, destinations that are inputs or
  members, BOOL literals in comparison or arithmetic, a routine without rungs before one with rungs
  (`Compiled.StepAcceptedIffDeployable`, `ImageRoundTrip.BuiltImageAcceptedIff`). `Rejected.LiteralContactRejected`
  and `Rejected.EmptyRoutineRejected` are projects that pass the gate, build and are rejected.
- The registry entry of ONS lacks the keys the gate looks up, so an ONS with a resolvable explicit operand makes the
  gate raise instead of answering, in the form the registry documents (`Validation.DocumentedOneShotRaises`). A REAL
  whose initial value is an integer beyond the doubles makes it raise too. Exactly when it raises:
  `Validation.Validate`.
- A tag without initial value starts with its preset whatever its type, so a BOOL with preset 5 starts true
  (`Deployment.LoadedWorldIsFresh`).
- The gate checks the preset of a timer or counter, but the image takes the initial value when there is one: preset 5
  with initial value -1 is admitted and starts with PRE = -1 (`ImageRoundTrip.ShadowedPreset`, exactly when in
  `ImageRoundTrip.PresetIsKeptIff`). With initial value 2^40 it is admitted and makes `build` raise, and so does a
  DINT without initial value whose preset, which the gate never looks at, is 2^40 (`Building.UnbuildableTimer`,
  `Building.UnbuildablePreset`). A finite REAL beyond binary32 passes the gate and makes `build` raise as well.
  Exactly which projects build: `Building.BuildsIffFits`.
- A fault inside a rung leaves the code cut at the end of that rung for later scans (`Runtime.Runtime.RunRung`); the
  theorems on whole programs are about scans of all the code. For the same reason RES reaches only slots up to the end
  of its own rung (`Runtime.Runtime.ResetSlots`).
- Where some branch has both a lane with and a lane without instructions, the empty lane, a wire, is dropped, and
  normalising changes what the tree does for some engine step; without such a branch it changes nothing for any
  (`Normaliser.NormaliseKeepsMeaning`, `Normaliser.KeepsMeaningIffUnmixed`).
- A branch without lanes faults in the interpreter and passes its input in the reference engine
  (`ControlFlow.RunIsEval`, `PropellerCompiler.LadderEngine.ExecuteNodes`); the gate admits no such branch.
- A contact of the second backend reads the low bit of its cell, so on an even number other than zero it disagrees
  with the engine (`PropellerSteps.ContactsReadTheLowBit`).
- The C stream adds 28 to the length field in 32 bits; where that wraps it can answer INCOMPLETE and have failed
  (`Streams.WrappedLength`).
- An exception in route configuration leaves the routes read so far entered (`Routing.RoutingEngine.Configure`).
- An arena that reached the very top of the address space could be refused although it is large enough; C objects
  cannot (`Arena.RefusedOnlyAtTheTop`).

## Model

| member | source | states |
|---|---|---|
| LadderRuns.ScanMeans | runtime/core/src/rsm_runtime.c:166-171 | the main result on meaning: in RUN or TEST, with the inputs answered, a scan of the program of an admitted, deployable project does to its tags, forces, one-shots and remembered inputs what its rungs mean, read by mnemonic and tag identity; power of rung i in place i; in RUN the host is handed the outputs as shown; where the ladder stops, the fault says why |
| LadderRuns.UnansweredScan | runtime/core/src/rsm_runtime.c:168 | where the host leaves an INPUT unanswered, or answers with another type, the scan stops there with a device fault, before any rung |
| LadderRuns.CaptureWorksIff | runtime/core/src/rsm_runtime.c:168 | inputs are taken in if and only if the host answers for every INPUT tag of the project with a value of its type |
| LadderRuns.StateHoldsWorld | runtime/core/src/rsm_runtime.c:100-112 | every state the program of a project can be in is one of the tags, one-shots and marks of the project |
| LadderScans.RungsMean | runtime/core/src/rsm_runtime.c:169 | the rungs of a project, evaluated as numbered trees on the store, do what they mean on its tags, stops included |
| LadderScans.TreeMeans | runtime/core/src/rsm_runtime.c:147 | the same for a tree of any nesting, from any place in the program |
| LadderScans.SightOfCode | runtime/core/src/rsm_runtime.c:136 | RES reaches in the records exactly the instructions of the source up to the end of its rung that work on its tag |
| LadderSteps.StepMeans | src/rsmicro/compiler/lowering.py:34-51 | one instruction: the record lowering emits does to the store what the mnemonic means on the tags of its operands: OTL under power leaves its tag true, GT passes power iff left is greater than right, and so on for all 24 |
| LadderState.OperandDenotes | src/rsmicro/compiler/lowering.py:36-41 | what an operand reads as in the project is what its record denotes in the store |
| Deployment.DeployedScansMean | runtime/core/src/rsm_runtime.c:100-171 | end to end: a project that fits and deploys is built, its image accepted and read back, and after whatever the host has called the next scan of all the code does what the rungs mean |
| Deployment.SoundScanMeans | runtime/core/src/rsm_runtime.c:166-171 | the same from any state in the invariant of the program |
| Deployment.LoadedWorldIsFresh | runtime/core/src/rsm_runtime.c:112 | loaded, the runtime holds every tag of the project with its initial value or else its preset, no forces, and nothing remembered |
| InstructionLaws.ReadDenotes | runtime/core/src/rsm_runtime.c:124 | an operand reads as the force of its tag, as the stored value where there is none, as the member, or as the literal |
| InstructionLaws.DenotesOne | runtime/core/src/rsm_runtime.c:124 | and as nothing else |
| InstructionLaws.Contacts | runtime/core/src/rsm_runtime.c:131 | XIC passes power where its bit is true, XIO where it is false; nothing is stored |
| InstructionLaws.ContactsSplit | runtime/core/src/rsm_runtime.c:131 | of a contact and its negation on the same bit exactly one passes power that is there |
| InstructionLaws.Coils | runtime/core/src/rsm_runtime.c:132 | after OTE its tag stores the power; under power OTL leaves true and OTU false, without power they change nothing; nothing else changes |
| InstructionLaws.OneShots | runtime/core/src/rsm_runtime.c:133 | ONS passes power where its storage shows false, and stores its input |
| InstructionLaws.Comparisons | runtime/core/src/rsm_runtime.c:137 | on DINTs the six comparisons pass power as =, <>, >, >=, < and <= hold; with a REAL as the host compares |
| InstructionLaws.Moves | runtime/core/src/rsm_runtime.c:139 | MOV under power leaves its destination storing the source, converted between DINT and REAL, or faults where the REAL does not fit |
| InstructionLaws.Clears | runtime/core/src/rsm_runtime.c:138 | CLR under power leaves false or zero |
| InstructionLaws.DintArithmetic | runtime/core/src/rsm_runtime.c:140 | ADD, SUB, MUL and DIV store the exact result, the quotient times the divisor plus a remainder of the sign of the dividend giving the dividend, or fault on a zero divisor or beyond 32 bits and change nothing |
| InstructionLaws.RealArithmetic | runtime/core/src/rsm_runtime.c:140 | into a REAL they store what the host computes, or fault on a zero divisor or an infinite result |
| InstructionLaws.MixedArithmetic | runtime/core/src/rsm_runtime.c:140 | a REAL operand and a DINT destination fault |
| InstructionLaws.DintSigns | runtime/core/src/rsm_runtime.c:141 | NEG and ABS store the exact result or overflow on -2^31 |
| InstructionLaws.RealSigns | runtime/core/src/rsm_runtime.c:141 | of a REAL as the host negates and takes the absolute value |
| InstructionLaws.OnDelays | runtime/core/src/rsm_runtime.c:134 | TON: zero without power; with it the time since its last run is added up to 2^31-1, and EN, TT and DN follow; a negative preset faults |
| InstructionLaws.Counts | runtime/core/src/rsm_runtime.c:135 | CTU and CTD count the rises of their input by one, around the ends of the range with OV and UN, and set DN where ACC >= PRE |
| InstructionLaws.Resets | runtime/core/src/rsm_runtime.c:136 | RES under power leaves PRE and clears the rest, with the records of the visible instructions that drive its tag |
| HostLaws.CaptureStoresAnswers | runtime/core/src/rsm_runtime.c:168 | after a clean capture every INPUT tag stores what the host answered for its number and nothing else has changed |
| HostLaws.CaptureStops | runtime/core/src/rsm_runtime.c:168 | a capture stops at the first INPUT without an answer or with one of another type, and the fault names it |
| HostLaws.ScanStoresAnswers | runtime/core/src/rsm_runtime.c:166-171 | after an OK scan of an accepted program every scalar INPUT tag still stores what the host answered in that scan |
| HostLaws.OutputsAreShown | runtime/core/src/rsm_runtime.c:170 | the host is handed OUTPUT tags in ascending order, each once, with its force where it has one and the stored value where it has none; all of them unless it refuses one |
| HostLaws.ScanHandsOutputs | runtime/core/src/rsm_runtime.c:170 | an OK scan in RUN has handed over all OUTPUT tags as they stand after the rungs; in TEST none |
| HostLaws.ScanModes | runtime/core/src/rsm_runtime.c:166 | a scan does nothing in PROGRAM and FAULTED; an OK one keeps mode and fault; one that records a fault ends in FAULTED |
| HostLaws.Modes | runtime/core/src/rsm_runtime.c:164 | of an accepted program every mode change succeeds except out of FAULTED to a mode other than PROGRAM |
| HostLaws.Initially | runtime/core/src/rsm_runtime.c:100-112 | a loaded program is in PROGRAM, unforced, with all its code visible and nothing recorded |
| HostLaws.Writes | runtime/core/src/rsm_runtime.c:117 | a host write stores the value iff the tag exists, is not an INPUT and has its type; otherwise the answer says why and nothing changes |
| HostLaws.Forces | runtime/core/src/rsm_runtime.c:119 | a force makes its tag show the value, stores nothing and leaves the other forces |
| HostLaws.ForcesEnd | runtime/core/src/rsm_runtime.c:120-121 | with its force cleared a tag shows what it stores |
| HostLaws.ForceStays | runtime/core/src/rsm_runtime.c:116-171 | a force stays through any calls that neither force its tag nor clear it |
| LifecycleLaws.PassSweeps | runtime/core/src/rsm_runtime.c:148-161 | after a prescan or postscan of an accepted program every tag some visible OTE names is false, unless a later visible ONS set it in a prescan; tags no visible OTE or ONS names keep their data but for the rest position of timers and counters |
| LifecycleLaws.ModeChangeSweeps | runtime/core/src/rsm_runtime.c:164 | the same after a mode change into or out of RUN or TEST that answers OK |
| ControlFlow.RunIsEval | runtime/core/src/rsm_runtime.c:147 | compiler correctness: running the bracketed stream of any rung tree from any store and power, in front of any further code, equals evaluating the tree (lanes left to right on the shared store from the input power, outputs ORed; a branch without lanes raises the branch fault) and then running that code: same store, power, fault and executed instructions, and the stream of the tree is consumed exactly |
| ControlFlow.RunConsumes | runtime/core/src/rsm_runtime.c:147 | a run that finishes has executed every ordinary instruction it consumed exactly once, in stream order, and its store is what those executions leave |
| ControlFlow.RunKeeps | runtime/core/src/rsm_runtime.c:147 | whatever every instruction of a stream keeps, and whatever faults they are limited to, the whole run keeps and is limited to |
| Instructions.Fetch | runtime/core/src/rsm_runtime.c:129-147 | the record read through an offset is the record of the suffix of the code |
| Instructions.ParseStream | src/rsmicro/compiler/bytecode.py:3-15 | round trip of the stream: every opcode, id, slot and operand written is read back, for every encodable program |
| Instructions.ParseSplit | runtime/core/src/rsm_runtime.c:147 | the prefix sums of record sizes are exactly the offsets at which a parsed stream splits into parsed streams |
| Source.EncodeStream | src/rsmicro/compiler/bytecode.py:3-15 | the encoder yields exactly the encoding of the assembled records, and raises exactly where a field does not pack |
| Brackets.RunStaysInside | runtime/core/src/rsm_runtime.c:86 | on code the validator accepts a run never leaves a lane at the end of the code, and stops with the validator's stack restored |
| Brackets.BranchFaultIffUntidy | runtime/core/src/rsm_runtime.c:86 | on balanced code, whatever its instructions do: if nothing but brackets stands inside a branch and outside its lanes (tidy code), a run stops at the end or in a fault of an instruction; otherwise it never gets to the end, and stops in the branch fault unless an instruction fails before |
| Brackets.StrayInstruction | runtime/core/src/rsm_runtime.c:147 | for every ordinary instruction, a stream that passes the bracket check and every run of which stops in the branch fault |
| BranchFaults.StretchTellsTidy | runtime/core/src/rsm_runtime.c:147 | the runtime on accepted code: tidy code never raises fault 20; other code never ends, and raises it unless an instruction fails before |
| BranchFaults.QuietRunTellsTidy | runtime/core/src/rsm_runtime.c:147 | exactly: from any consistent store without negative presets, a run without power raises fault 20 if and only if the accepted code is not tidy |
| BranchFaults.ScanTellsTidy | runtime/core/src/rsm_runtime.c:166-171 | a scan of an accepted tidy program never records fault 20; a scan of all the code of an accepted program that is not tidy never answers OK |
| BranchFaults.TidyProgramsNeverBranchFault | runtime/core/src/rsm_runtime.c:116-171 | no sequence of host calls makes an accepted tidy program record fault 20 |
| BranchFaults.StrayScansFault | runtime/core/src/rsm_runtime.c:86 | for every instruction the validator accepts, an accepted program every scan of which records fault 20 once its inputs are read |
| BranchFaults.StrayContactFaults | runtime/core/src/rsm_runtime.c:147 | the concrete case: an accepted five-record program with a contact before the first lane, loaded, started and scanned, records fault 20 |
| Brackets.TreeIsBalanced | runtime/core/src/rsm_runtime.c:86 | the bracket check passes the stream of a tree exactly when branches nest at most 32 deep and no number of lanes is a multiple of 256 (the lane counter is one byte) |
| Brackets.TreeIsTidy | src/rsmicro/compiler/lowering.py:22-32 | streams of trees have no instruction outside the lanes of a branch |
| Soundness.ExecuteIsSound | runtime/core/src/rsm_runtime.c:129-146 | one accepted instruction on a well-typed store keeps every tag type, the slots and the number of records, and raises at most numeric faults, a negative preset or a mixed-type destination |
| Soundness.RunIsSound | runtime/core/src/rsm_runtime.c:129-147 | the same for a run of accepted code, with the branch fault added |
| Safety.ScanIsSound | runtime/core/src/rsm_runtime.c:166-171 | a scan of an accepted program keeps the invariant, cuts the code only at a rung boundary, and answers FAULTED only with an allowed fault recorded |
| Safety.SetModeIsSound | runtime/core/src/rsm_runtime.c:148-164 | a mode change of an accepted program keeps the invariant and never finds a coil it cannot write |
| Safety.PassIsSound | runtime/core/src/rsm_runtime.c:162-163 | a prescan or postscan the host asks for keeps the invariant and succeeds |
| Safety.AcceptedProgramsStaySound | runtime/core/src/rsm_runtime.c:116-171 | verifier soundness: no sequence of mode changes, prescans, postscans, scans, tag writes and forces, with any answers of the host, takes an accepted program out of the invariant; the fault register only ever holds the allowed faults |
| ImageFormat.LoadedImagesStaySound | runtime/core/src/rsm_runtime.c:86-112 | the same for the program that is read out of any accepted image |
| Runtime.Runtime.StateForSlot | runtime/core/src/rsm_runtime.c:97 | the binary search finds the record of a slot exactly when there is one, at the index of the linear search |
| Runtime.Runtime.ReadOperandValue | runtime/core/src/rsm_runtime.c:124 | reading an operand in place: tags under their forces, members, literals |
| Runtime.Runtime.PutValue | runtime/core/src/rsm_runtime.c:115 | a write succeeds exactly where the specified one does and changes only that tag |
| Runtime.Runtime.DoTimer | runtime/core/src/rsm_runtime.c:134 | TON in place equals the specified step: accumulation, saturation, bits, time base, faults |
| Runtime.Runtime.DoCounter | runtime/core/src/rsm_runtime.c:135 | CTU and CTD in place equal the specified step: edge, wrap-around, OV and UN |
| Runtime.Runtime.ResetSlots | runtime/core/src/rsm_runtime.c:136 | the walk of RES clears exactly the slots driven by the tag inside the visible code |
| Runtime.Runtime.DoExecute | runtime/core/src/rsm_runtime.c:129-146 | one instruction on the arrays equals the specified effect on the store, fault for fault |
| Runtime.Runtime.RunUntil | runtime/core/src/rsm_runtime.c:147 | the loop over byte offsets equals the specified run over the parsed records, and ends at the offset of what is left |
| Runtime.Runtime.RunBranch | runtime/core/src/rsm_runtime.c:147 | the lanes of a branch, in place |
| Runtime.Runtime.LifecyclePass | runtime/core/src/rsm_runtime.c:148-161 | the pass over states, tags and code equals the specified one, also where a coil cannot be written |
| Runtime.Runtime.ChangeMode | runtime/core/src/rsm_runtime.c:164 | the whole new state and the answer are those of the state machine |
| Runtime.Runtime.HostPass | runtime/core/src/rsm_runtime.c:162-163 | a prescan or postscan in place is that of the state machine |
| Runtime.Runtime.RunRung | runtime/core/src/rsm_runtime.c:169 | the code is cut at the end of the rung while it runs, restored if it succeeds, and left cut if it faults |
| Runtime.Runtime.RunRungs | runtime/core/src/rsm_runtime.c:169 | the loop over the rungs equals the specified one: store, rung power, visible code, fault, log |
| Runtime.Runtime.ScanOnce | runtime/core/src/rsm_runtime.c:166-171 | a scan in place equals the scan of the state machine: state, answer, executed instructions, written outputs |
| Runtime.Runtime.HostWrite | runtime/core/src/rsm_runtime.c:117 | a host write and its answer are those of the state machine |
| Runtime.Runtime.HostForce | runtime/core/src/rsm_runtime.c:119 | a force and its answer are those of the state machine |
| Runtime.Runtime.HostClearForce | runtime/core/src/rsm_runtime.c:120 | clearing a force and its answer are those of the state machine |
| Runtime.Runtime.HostClearAllForces | runtime/core/src/rsm_runtime.c:121 | clearing all forces is that of the state machine |
| Runtime.Runtime.CountSlots | runtime/core/src/rsm_runtime.c:88-93 | the number of records counted in the bytes is the number of stateful instructions |
| Runtime.Runtime.constructor | runtime/core/src/rsm_runtime.c:100-112 | loading yields the initial state of the program: declared tags, no forces, one zeroed record per slot in stream order |
| Runs.ScanExecutesEachOnce | runtime/core/src/rsm_runtime.c:166-171 | a scan that answers OK has executed every visible instruction exactly once in program order and leaves the visible code as it was |
| Runs.RunCarries | runtime/core/src/rsm_runtime.c:116-171 | induction over runs: what every accepted instruction and every host change carries on holds after any run of OK scans, over its whole log |
| Runs.OthersKeepSlot | runtime/core/src/rsm_runtime.c:134-136 | a state record changes only through its own instruction or a RES of its tag |
| CounterLaw.CounterConservation | runtime/core/src/rsm_runtime.c:135 | counter conservation: over any run of OK scans, writes and forces without RES, ACC is the start value plus up edges minus down edges modulo 2^32 as a signed number, PRE is unchanged, and OV and UN are set exactly by counts that wrapped |
| CounterLaw.EdgesStartTrue | runtime/core/src/rsm_runtime.c:148-164 | on entering RUN or TEST from PROGRAM every edge memory is set, so power before the first scan counts as true |
| CounterLaw.WrapsIffOutOfRange | runtime/core/src/rsm_runtime.c:135 | some count wraps if and only if the exact running count leaves the 32-bit range; otherwise ACC is the exact count |
| TimerLaw.HeldTimerAccumulates | runtime/core/src/rsm_runtime.c:134 | timer law: a timer at rest that is powered whenever it runs, in any run of OK scans, holds the sum of the whole milliseconds between its executions, capped at 2^31-1, with EN set, DN iff ACC >= PRE and TT iff not DN |
| TimerLaw.TimerStartsAtRest | runtime/core/src/rsm_runtime.c:148-164 | on entering RUN or TEST from PROGRAM every timer is at rest with its preset kept |
| TimerLaw.MillisecondsBound | runtime/core/src/rsm_runtime.c:134 | with ticks that never go back that sum is at most the elapsed time and falls short of it by less than a millisecond per step |
| TimerLaw.TimersStayShaped | runtime/core/src/rsm_runtime.c:134-164 | in every state reachable in RUN or TEST: ACC >= 0; EN implies DN iff ACC >= PRE and TT iff not DN; not EN implies ACC = 0 and TT, DN clear |
| OneShotLaw.OneShotPulsesOnRise | runtime/core/src/rsm_runtime.c:133 | one-shot law: a one-shot that owns its storage passes power exactly when its input is true and was false at its last run |
| ScanLaws.RunsOncePerScan | runtime/core/src/rsm_runtime.c:166-171 | in any run of OK scans a visible instruction runs exactly once in every scan: its k-th execution carries the tick of the k-th scan |
| ScanLaws.HeldTimerOverScans | runtime/core/src/rsm_runtime.c:134 | the timer law over scans: a visible timer at rest, powered in each of N + 1 OK scans with ticks that never go back, has ACC at most the elapsed milliseconds and short of them by less than N, or at its limit; EN set, DN iff ACC >= PRE, TT iff not DN |
| ScanLaws.OneShotPulsesEachScan | runtime/core/src/rsm_runtime.c:133 | the one-shot law over scans: it runs once per scan and passes power in scan k iff its input is true at scan k and was false at scan k - 1, with the stored value before the first |
| OneShotLaw.StorageStartsTrue | runtime/core/src/rsm_runtime.c:148-164 | on entering RUN or TEST the storage is set: a rung that is already true gives no pulse |
| OneShotStorage.OneShotsOwnStorage | src/rsmicro/compiler/lowering.py:42-51 | every one-shot of a compiled program has a storage tag beyond the declared tags that no other instruction names |
| OneShotStorage.CompiledOneShotsPulse | src/rsmicro/compiler/lowering.py:42-51 | the one-shot law for every one-shot of every deployable project, from the mode change on |
| OneShotStorage.CompiledOneShotsPulseEachScan | src/rsmicro/compiler/lowering.py:42-51 | and scan by scan: power in scan k iff the input is true at k and was false at k - 1, with true before the first scan |
| Validation.Validate | src/rsmicro/compiler/validation.py:150-238 | its checks of tags, operands and rungs stay silent exactly for the admissible controllers: distinct tag ids, initial values and presets in range, every operand under its rule, no empty rung or lane, no branch of one lane; and the gate raises if and only if a REAL starts with an integer beyond the doubles or some ONS has one operand, which resolves |
| Validation.Gate.CheckOperand | src/rsmicro/compiler/validation.py:203-230 | an operand is reported exactly where it breaks its rule; where the rule lacks its keys, the gate raises exactly for literals and for tags that exist with a member they have, if any |
| Validation.Gate.CheckTags | src/rsmicro/compiler/validation.py:150-171 | silent exactly for distinct ids and good starting values; raises exactly where a REAL starts with an integer beyond the doubles |
| Validation.Gate.CheckRungs | src/rsmicro/compiler/validation.py:232-238 | raises if and only if some rung holds, at any depth, an ONS with one operand, which resolves; otherwise silent exactly for passing rungs |
| Validation.DocumentedOneShotRaises | profiles/rsm-logix-core-1/instructions/ons.yaml:7-17 | the form the registry documents, an ONS with a BOOL storage tag, makes the gate raise, and so does an ONS with a literal |
| Validation.Gate.CheckNodes | src/rsmicro/compiler/validation.py:172-227 | the walk over a tree reports nothing new exactly when every instruction and branch in it passes, and raises exactly when some ONS in it has one operand, which resolves |
| Lowering.SortSorts | src/rsmicro/compiler/lowering.py:13-17 | tags are put in ascending order of their ids, none lost and none added |
| Lowering.OrderIndependent | src/rsmicro/compiler/lowering.py:13-17 | permuting a tag list with distinct ids leaves every tag number as it is |
| Lowering.Lowerer.EmitNodes | src/rsmicro/compiler/lowering.py:22-51 | emission appends exactly the stream of the numbered tree, counts its branches, and adds only hidden tags |
| Lowering.Lowerer.EmitStep | src/rsmicro/compiler/lowering.py:34-51 | one instruction becomes the record with its operands resolved in sorted order, its own slot if it is stateful and its own storage tag if it is a bare one-shot |
| Lowering.Lower | src/rsmicro/compiler/lowering.py:7-59 | the lowered program: sorted and hidden tags, the streams of all rungs one after the other with the literals of the source in order, a rung table that tiles them, the number of branches |
| Lowering.LowersUniquely | src/rsmicro/compiler/lowering.py:7-59 | these determine the program: a controller lowers to one program only |
| RecordNumbers.RungsAreNumbered | src/rsmicro/compiler/lowering.py:19-21 | every record carries its place in the code as its number |
| Compiled.FlattenIsTree | src/rsmicro/compiler/lowering.py:22-51 | without its brackets the stream of a tree is the tree in source order, and it closes every branch it opens |
| Compiled.NumberIsResolved | src/rsmicro/compiler/lowering.py:34-51 | read in order, the numbered tree is the list of its instructions, each with the next slot and the next storage tag |
| Compiled.ResolvedSlots | src/rsmicro/compiler/lowering.py:49-51 | state slots are numbered 0, 1, 2, ... in stream order |
| Compiled.StepAcceptedIffDeployable | src/rsmicro/compiler/validation.py:188-227 | for an instruction that passes the gate, the runtime accepts its record if and only if it is deployable: contacts on plain tags, destinations plain tags that are not inputs, no BOOL literal in comparison or arithmetic |
| Compiled.CompiledAcceptedIffDeployable | src/rsmicro/compiler/lowering.py:7-59 | the code of an admitted project is accepted by the validator if and only if all its instructions are deployable and its trees have the accepted shape |
| WholeScan.RungsAreTrees | runtime/core/src/rsm_runtime.c:169 | the scan's loop over a compiled program equals evaluating the rung trees in order from power true, also where it faults |
| WholeScan.OkScanEvaluatesTrees | runtime/core/src/rsm_runtime.c:166-171 | whole-scan refinement: a scan of a compiled program that answers OK read the inputs once, folded tree evaluation over the rungs, put the output power of rung i in place i, wrote the outputs in RUN, and left the visible code as it was |
| CheckValues.Crc32cCheckValue | src/rsmicro/protocol/frame.py:5-10 | the check value of the CRC-32C: of the bytes of 123456789 the checksum is 0xe3069283 |
| CheckValues.Crc32CheckValue | src/rsmicro/compiler/image.py:39 | the check value of the CRC-32: 0xcbf43926 |
| LinkFormat.FrameIsWritten | protocol/c/src/rsm_link_frame.c:3-8 | an encoded frame byte by byte: RSML, versions 1, 1 and 0, header flags, type, message flags, request, sequence and length with the low byte first, the payload from byte 24 and the CRC-32C with 0x82f63b78 |
| LinkFormat.FrameIsRead | protocol/c/src/rsm_link_frame.c:9 | a string is decoded to a frame if and only if it is that frame byte by byte, without reserved header flags |
| LinkFormat.KnownTypes | src/rsmicro/protocol/constants.py:4-9 | a type is known if and only if it is the code of a member of the enumeration |
| LinkFormat.PythonReads | src/rsmicro/protocol/frame.py:20-31 | the Python decoder gives a frame iff the bytes are that frame and its type is in the enumeration or the first header flag is set |
| LinkFormat.FrameSizes | src/rsmicro/protocol/constants.py:3 | frames have 28 to 1048576 bytes, and these fields pack |
| MessageFormat.MessageIsWritten | src/rsmicro/protocol/messages.py:9-22 | an encoded message byte by byte: the number of entries, then in the order of the keys the length of the key, the key, the kind 0 to 5 and the value |
| MessageFormat.MessageIsRead | src/rsmicro/protocol/messages.py:23-44 | decoding gives the entries of exactly the messages that are written so, with well-formed texts |
| MessageFormat.LessIsLexicographic | src/rsmicro/protocol/messages.py:12 | the order of keys is lexicographic |
| ImageLayout.RecordIsWritten | src/rsmicro/compiler/bytecode.py:5-14 | a record byte by byte: opcode, number of operands, number, slot, and kind, type, member and value of each operand |
| ImageLayout.TagsAreWritten | src/rsmicro/compiler/image.py:6-26 | the tag section byte by byte |
| ImageLayout.RungsAreWritten | src/rsmicro/compiler/image.py:34 | the rung section byte by byte |
| ImageLayout.ImageIsWritten | src/rsmicro/compiler/image.py:32-39 | a built image byte by byte: RSM1, version 2, header size 72, total, profile 1, ABI 2, sixteen sections, identifier, digest, CRC-32 with 0xedb88320 at byte 68, sixteen descriptors of 20 bytes, the sections from byte 392 |
| ImageLayout.HeaderIsRead | runtime/core/src/rsm_runtime.c:86 | the answer of the validator to a header, byte by byte: the first check that fails |
| AdmissionLaws.AcceptedRecords | runtime/core/src/rsm_runtime.c:36-86 | the records the validator accepts, opcode by opcode and in numbers: which whole tags, members and literals each operand may be, inputs never written, a slot exactly for timers and counters |
| GateLaws.WhatPasses | src/rsmicro/compiler/validation.py:203-230 | what the gate admits at each operand, by mnemonic, type and member: literals and tags where it is read, writable tags where it is written, of a timer or counter only PRE |
| GateLaws.UnknownFails | src/rsmicro/compiler/validation.py:203-230 | a reference to no tag passes nowhere |
| Rejected.NestDeploysIff | runtime/core/src/rsm_runtime.c:86 | nested branches deploy if and only if they are at most 32 deep |
| Rejected.WideBranchDeploysIff | runtime/core/src/rsm_runtime.c:86 | a branch deploys if and only if the number of its lanes is not a multiple of 256 |
| ImageFormat.AllPresent | runtime/core/src/rsm_runtime.c:86 | n distinct numbers between 1 and n are all the numbers between 1 and n |
| ImageFormat.EverySectionIsThere | runtime/core/src/rsm_runtime.c:86 | sixteen accepted descriptors are a permutation of the section numbers 1 to 16 |
| ImageFormat.SectionsAreFound | runtime/core/src/rsm_runtime.c:35 | in an accepted directory the search succeeds for every number and returns the bytes its descriptor points at, wherever it stands |
| ImageFormat.AcceptedContentIsProgramOk | runtime/core/src/rsm_runtime.c:86 | an accepted image holds a program for which soundness holds |
| ImageFormat.BurstAfterIsDetected | runtime/core/src/rsm_runtime.c:86 | damage to at most four consecutive bytes after the stored checksum is detected, in images of any length |
| ImageFormat.BurstBeforeIsDetected | runtime/core/src/rsm_runtime.c:86 | and so is damage before it |
| ImageFormat.StoredCrcDamageIsDetected | runtime/core/src/rsm_runtime.c:86 | and any damage to the stored checksum alone |
| ImageValidator.FindSection | runtime/core/src/rsm_runtime.c:35 | the search through the descriptors returns the first match, and fails at the first descriptor out of bounds |
| ImageValidator.CheckDirectory | runtime/core/src/rsm_runtime.c:86 | the double loop, with its 32-bit sums, accepts exactly sixteen sections in bounds with distinct ids and no overlap |
| ImageValidator.CheckOrdinary | runtime/core/src/rsm_runtime.c:44-72 | the checks of a record in their order accept exactly the records of the specification |
| ImageValidator.CheckBracket | runtime/core/src/rsm_runtime.c:86 | the lane arrays step as the bracket stack, and reject where it has no next state |
| ImageValidator.CheckStream | runtime/core/src/rsm_runtime.c:86 | the loop over the bytes accepts exactly the streams that parse, whose records are accepted, whose slots ascend and whose brackets balance; it counts the records |
| ImageValidator.CheckRungs | runtime/core/src/rsm_runtime.c:86 | accepts exactly the rung tables that tile the code in contiguous routines |
| ImageValidator.CheckBoundaries | runtime/core/src/rsm_runtime.c:73-84 | accepts exactly the rung tables whose stretches close their branches and end with the code |
| ImageValidator.ValidateImage | runtime/core/src/rsm_runtime.c:86 | answers OK if and only if the image is acceptable, the statuses of header, directory and checksum in their order, and the true counts |
| ImageBuilder.RuntimeTags | src/rsmicro/compiler/image.py:6-26 | yields the tag section, or raises exactly where a count or an initial value does not pack |
| ImageBuilder.TagsRoundTrip | src/rsmicro/compiler/image.py:6-26 | the runtime reads back the type, storage and starting value of every tag |
| ImageBuilder.RungsRoundTrip | src/rsmicro/compiler/image.py:34 | the runtime reads back routine, start and count of every rung |
| ImageBuilder.BuildBody | src/rsmicro/compiler/image.py:35-37 | descriptors and payloads are laid out one after the other; it fails exactly where an offset or a length does not fit 32 bits |
| ImageBuilder.Build | src/rsmicro/compiler/image.py:32-39 | yields the image of the sections with the checksum patched in, or raises exactly where a record does not pack or the image is not addressed by 32 bits |
| Building.BuildsIffFits | src/rsmicro/compiler/image.py:32-39 | which admitted projects build, as a condition on the project: exactly those whose starting values fit their records, whose REAL operands fit binary32, whose routines beyond the 32-bit range have no rungs, and whose image, counted from the source, fits 32 bits |
| Building.UnbuildableTimer | src/rsmicro/compiler/validation.py:166-170 | an admitted project that never builds: a timer with preset 5 and initial value 2^40 |
| Building.UnbuildablePreset | src/rsmicro/compiler/lowering.py:17 | another one: a DINT without initial value and with preset 2^40 |
| ImageRoundTrip.SectionsRoundTrip | src/rsmicro/compiler/image.py:34-39 | a built image passes the checks of header, directory and checksum, and looking up any section returns exactly the payload placed there |
| ImageRoundTrip.ImageRoundTrips | src/rsmicro/compiler/image.py:32-39 | reading a built image gives back the code, the tags with their starting values and the rungs; it is accepted iff the program is and its rung table is |
| ImageRoundTrip.ContiguousIffNoGaps | src/rsmicro/compiler/lowering.py:52-56 | the routine numbers of the rungs are contiguous if and only if no routine without rungs comes before one with rungs |
| ImageRoundTrip.BuiltImageAcceptedIff | runtime/core/src/rsm_runtime.c:86 | an admitted project builds if and only if it fits, and its image is then accepted if and only if the project is deployable and no routine without rungs comes before one with rungs |
| Rejected.RejectedIfNotDeployable | runtime/core/src/rsm_runtime.c:86 | an admitted project that is not deployable, or has a routine without rungs before one with rungs, builds wherever it fits, and every image of it is rejected |
| Rejected.LiteralContactRejected | runtime/core/src/rsm_runtime.c:61-62 | the concrete project: one rung with a contact on the literal true passes the gate, builds, and is rejected |
| Rejected.LiteralContactFits | src/rsmicro/compiler/image.py:32-39 | its image takes 432 bytes besides the texts |
| Rejected.WideBranchRejected | runtime/core/src/rsm_runtime.c:86 | so does one branch of 256 lanes, or of any multiple |
| Rejected.DeepNestRejected | runtime/core/src/rsm_runtime.c:86 | and branches nested deeper than 32 |
| Rejected.EmptyRoutineRejected | runtime/core/src/rsm_runtime.c:86 | and a routine without rungs in front of one with a rung |
| ImageRoundTrip.OrderDoesNotMatter | src/rsmicro/compiler/lowering.py:13-17 | two projects that differ only in the order of their tags lower to the same program and build to the same bytes, for any texts computed from the program and its tags and any digest of the sections |
| ImageRoundTrip.PresetIsKeptIff | src/rsmicro/compiler/lowering.py:17 | an admitted preset reaches the runtime if and only if the tag has no initial value besides it, or one that comes to the same number |
| ImageRoundTrip.ShadowedPreset | src/rsmicro/compiler/validation.py:166-170 | an admitted timer with preset 5 and initial value -1 starts with PRE = -1 |
| Loader.LoadImage | runtime/core/src/rsm_runtime.c:100-112 | given memory, an image is loaded if and only if it is acceptable, and the runtime then stands in the initial state of the program it holds |
| Deployment.CompiledCodeIsTidy | src/rsmicro/compiler/lowering.py:22-32 | in deployable compiled code nothing but brackets stands inside a branch and outside its lanes |
| Deployment.CompiledNeverBranchFault | runtime/core/src/rsm_runtime.c:147 | no sequence of host calls makes a deployable compiled program record fault 20 |
| Deployment.LoadedNeverBranchFault | runtime/core/src/rsm_runtime.c:100-171 | the same for the runtime that loaded the image built from the project |
| Deployment.ImageScansEvaluateTrees | runtime/core/src/rsm_runtime.c:100-171 | end to end: every admitted project that fits builds, and what the runtime reads out of its image it scans as the rung trees of the project |
| Arena.RequiredLayout | runtime/core/src/rsm_runtime.c:94-96 | computes the exact layout, and fails if and only if size_t cannot hold it |
| Arena.RequiredMemory | runtime/core/src/rsm_runtime.c:87 | the layout plus seven bytes of slack |
| Arena.Carve | runtime/core/src/rsm_runtime.c:105-109 | carves the five regions, with room for all elements, without pointer wrap-around, or refuses exactly where slack and layout do not fit the arena or the address space |
| Arena.RegionsAreApart | runtime/core/src/rsm_runtime.c:109 | the carved regions start at multiples of 8, are pairwise disjoint and lie inside the arena |
| Arena.RequiredMemorySuffices | runtime/core/src/rsm_runtime.c:87 | an arena of the required memory is never refused, wherever it lies |
| Arena.RefusedOnlyAtTheTop | runtime/core/src/rsm_runtime.c:107-108 | without the C rule that objects end below the top of the address space: refused exactly when slack and layout reach past it |
| Arena.RequiredMemoryIsNeeded | runtime/core/src/rsm_runtime.c:106-107 | less than the required memory is refused for some base |
| Crc.ComputeCrc | protocol/c/src/rsm_link_frame.c:7 | the bit-by-bit register loop computes the checksum the laws are about |
| Crc.FeedInjective | protocol/c/src/rsm_link_frame.c:7 | feeding a byte string is a bijection of the register |
| Crc.FeedIsNumber | protocol/c/src/rsm_link_frame.c:7 | feeding up to four bytes is one exclusive-or of their number into the register |
| Crc.BurstChangesChecksum | protocol/c/src/rsm_link_frame.c:7 | two messages of any length that differ only inside four consecutive bytes have different checksums |
| Crc.BurstChangesResidue | protocol/c/src/rsm_link_frame.c:9 | the same across the boundary of message and stored checksum |
| Frames.EncodeFrame | src/rsmicro/protocol/frame.py:17-20 | yields the frame, or raises exactly where a field does not pack or the payload is too long |
| Frames.EncodeC | protocol/c/src/rsm_link_frame.c:8 | fills exactly the frame into the buffer, or answers LIMIT and leaves the buffer alone |
| Frames.DecodeC | protocol/c/src/rsm_link_frame.c:9 | answers OK with the fields exactly for well-formed frames, and each failure exactly where the checks in their order give it |
| Frames.DecodePython | src/rsmicro/protocol/frame.py:20-31 | returns a frame exactly where the C decoder does and the type is known or the message optional |
| Frames.DecodeInvertsEncode | src/rsmicro/protocol/frame.py:15-31 | every field survives encoding; the frame is accepted iff it uses no reserved flag |
| Frames.EncodeInvertsDecode | protocol/c/src/rsm_link_frame.c:8-9 | a well-formed frame of minor version 0 is the encoding of its fields |
| Frames.PythonRoundTrip | src/rsmicro/protocol/frame.py:15-31 | a frame comes back from the Python side iff it uses no reserved flag and its type is known or optional |
| Frames.BurstIsDetected | protocol/c/src/rsm_link_frame.c:9 | damage to at most four consecutive bytes anywhere in a frame, the checksum included, is always detected |
| Streams.StreamDecoder.Feed | src/rsmicro/protocol/stream.py:7-19 | the loop over the buffer has the specified outcome: frames, rest and failure |
| Streams.StreamDecoder.Close | src/rsmicro/protocol/stream.py:20-21 | closing succeeds exactly where nothing is left in the buffer, and fails the decoder otherwise |
| Streams.DrainPrefix | src/rsmicro/protocol/stream.py:11-16 | of the first bytes of a stream of valid frames, exactly the whole frames come out and less than one stays |
| Streams.FragmentationDoesNotMatter | src/rsmicro/protocol/stream.py:7-19 | fragmentation independence: for any valid frames and any cut of their bytes into feeds, every feed succeeds iff the buffer takes each; then the frames come out in order and nothing stays |
| Streams.HoldsLessThanAFrame | src/rsmicro/protocol/stream.py:11-15 | between feeds the decoder holds less than one frame |
| Streams.LinkStream.Feed | protocol/c/src/rsm_link_stream.c:6 | buffer, answer and failure of a feed, with the 32-bit sum of the length field |
| Streams.LinkStream.Consume | protocol/c/src/rsm_link_stream.c:7 | the consumed frame leaves the front of the buffer |
| Streams.LinkStream.Receive | protocol/c/src/rsm_link_stream.c:6-7 | the feed, consume, feed-nothing loop delivers what the specification says and keeps the rest |
| Streams.StreamsAgree | protocol/c/src/rsm_link_stream.c:6 | on any bytes the Python decoder takes, the C loop delivers the same frames and keeps the same rest |
| Streams.SidesDeliverTheSame | protocol/c/src/rsm_link_stream.c:6-7 | over any feeds the Python decoder takes, both sides deliver the same frames and end in the same state |
| LinkFragments.PrefixDelivers | protocol/c/src/rsm_link_stream.c:6-7 | of the first bytes of a sequence of well-formed frames the C loop delivers exactly the whole frames and keeps less than one |
| LinkFragments.CutDoesNotMatter | protocol/c/src/rsm_link_stream.c:6-7 | fragmentation independence of the C side, for all frames the C decoder accepts: any cut into feeds the storage takes delivers the fields of all frames in order and keeps nothing; any other cut makes the stream fail |
| Streams.WrappedLength | protocol/c/src/rsm_link_stream.c:6 | the stream answers INCOMPLETE and has failed exactly when the length field is among the last 28 values of its range and the wrapped length is within buffer and capacity |
| Messages.EncodeMessage | src/rsmicro/protocol/messages.py:9-22 | yields the fields in key order, or raises exactly where one does not pack |
| Messages.DecodeMessage | src/rsmicro/protocol/messages.py:23-44 | yields the dictionary of the fields, or raises exactly where a field is truncated, unknown or not well formed, or bytes are left |
| Messages.SortSorts | src/rsmicro/protocol/messages.py:12 | sorting makes the keys ascend and keeps every value at its key |
| Messages.MessageRoundTrip | src/rsmicro/protocol/messages.py:9-44 | decoding an encoded dictionary consumes every byte and gives the dictionary back |
| Messages.EncodingIdentifies | src/rsmicro/protocol/messages.py:9-22 | two encodings are equal if and only if the dictionaries are, whatever the order of their entries |
| Routing.VisitsDecideCycles | src/rsmicro/scada/routing.py:17-20 | all visits succeed if and only if the route graph has no directed cycle |
| Routing.RoutingEngine.VisitFrom | src/rsmicro/scada/routing.py:17-19 | the recursive visit terminates on every graph and raises exactly where the specified one does |
| Routing.RoutingEngine.Configure | src/rsmicro/scada/routing.py:12-20 | returns normally if and only if the routes have no directed cycle, self-loops included; the routes read before an exception stay entered |
| Normaliser.NormalizeNodes | src/plc_ascii/ide.py:1034-1048 | the loops compute the normal form the lemmas are about |
| Normaliser.NormaliseIsNormal | src/plc_ascii/ide.py:1034-1048 | no empty lane and no branch with fewer than two lanes is left |
| Normaliser.NormaliseIsIdempotent | src/plc_ascii/ide.py:1034-1048 | normalising twice is normalising once |
| Normaliser.NormaliseKeepsSteps | src/plc_ascii/model.py:291-299 | the instructions and their order are kept |
| Normaliser.NormaliseKeepsMeaning | src/plc_ascii/engine.py:585-616 | for every engine step, a tree in which no branch mixes lanes with and without instructions has the same final tags and power after normalising |
| Normaliser.KeepsMeaningIffUnmixed | src/plc_ascii/ide.py:1034-1048 | for an engine of contacts with any readings, one per contact, which records the power each receives, normalising keeps the run of a tree if and only if no branch mixes lanes with and without instructions |
| Normaliser.FirstPathIsFirstStep | src/plc_ascii/ide.py:1055-1063 | the first-step path leads to the first instruction in source order, and is missing only where there is none |
| Normaliser.GetNodeAtPath | src/plc_ascii/ide.py:1006-1017 | the cursor loop finds the node the path names, and raises exactly where a step of it is out of range or not a branch |
| StackMachine.ExecAppend | src/plc_runtime/propeller2/runtime.py:447-551 | closed stack code runs before whatever follows it, also through nested IF, ELSE and THEN |
| StackMachine.ExecIfElse | src/plc_runtime/propeller2/runtime.py:402-416 | what an IF phrase does |
| PropellerSteps.TimerWordRuns | src/plc_runtime/propeller2/runtime.py:402-416 | the timer word leaves power on the stack and the timer cells as the engine leaves the timer |
| EngineLaws.EngineContacts | src/plc_ascii/engine.py:484-583 | in the engine XIC passes power where its source is not zero, XIO where it is zero |
| EngineLaws.EngineComparisons | src/plc_ascii/engine.py:484-583 | the six comparisons of the engine |
| EngineLaws.EngineCoils | src/plc_ascii/engine.py:484-583 | OTE gives its tag the power; OTL, OTU and CLR act under power only; nothing else changes |
| EngineLaws.EngineNumbers | src/plc_ascii/engine.py:484-583 | MOV, NEG, ABS and arithmetic give their tag the exact number under power and change nothing without |
| EngineLaws.EngineTimers | src/plc_ascii/engine.py:484-583 | a timer adds the scan time up to its preset under power and is back at the start without |
| EngineLaws.WordsOfTwo | src/plc_runtime/propeller2/runtime.py:460-543 | the words on two numbers: arithmetic modulo 2^32 in the signed range, flags of -1 and 0 |
| EngineLaws.WordsOfOne | src/plc_runtime/propeller2/runtime.py:460-543 | the words on one number |
| EngineLaws.WordsOfCells | src/plc_runtime/propeller2/runtime.py:460-543 | a cell is fetched and stored by its address, and no other cell changes |
| EngineLaws.WordsOfBits | src/plc_runtime/propeller2/runtime.py:460-543 | AND and OR bit by bit |
| PropellerSteps.StepAgrees | src/plc_runtime/propeller2/runtime.py:460-543 | the words of a well-typed instruction leave any stack with the engine's output power on top and the cells with the engine's tags, as long as the numbers fit a cell |
| PropellerSteps.ContactsReadTheLowBit | src/plc_runtime/propeller2/runtime.py:462-464 | a contact on a number agrees with the engine unless, under power, the number is even and not zero |
| PropellerTrees.TreeAgrees | src/plc_runtime/propeller2/runtime.py:447-551 | the same for whole trees of any nesting; the cells of the branches around a tree are untouched |
| PropellerTrees.RungsAgree | src/plc_runtime/propeller2/runtime.py:617-622 | one pass over all rung words equals one scan of the reference engine on tags and timers |
| PropellerCompiler.LadderEngine.ExecuteStep | src/plc_ascii/engine.py:484-583 | the engine step in place |
| PropellerCompiler.LadderEngine.ExecuteNodes | src/plc_ascii/engine.py:585-616 | the engine walk in place: a branch without lanes passes its input |
| PropellerCompiler.CompileContext.constructor | src/plc_runtime/propeller2/runtime.py:251-300 | branch cells start after the cells of mode, scan time, scalars with their forces, timers and counters |
| PropellerCompiler.CompileContext.EmitNodes | src/plc_runtime/propeller2/runtime.py:546-551 | emission raises exactly on unknown tags and branches without lanes, appends exactly the code of the tree, and takes two new cells for every branch |

## Left out

Runtime and image:

- REAL arithmetic and rounding: `RealOps` is any implementation; nothing is proved about the numbers themselves.
- Safety.AcceptedProgramsStaySound: the host answers an input call with a scalar or a failure; an answer of type TIMER or
  COUNTER is not modelled, as input endpoints are scalar.
- ImageFormat.LoadedImagesStaySound: likewise.
- Scan counts, durations, their average, the write trace, the names for statuses and faults, snapshots and member reads.
- `rsm_runtime_init`, `deinit` and `unload_program`: the runtime class starts with a loaded program.
- The table read of the CLR check before its operand is known to be a tag: acceptance is the conjunction of the checks.
- The integer type of the ids a host passes: ids are natural numbers with the same range checks.
- Aliasing between arena regions: `Arena` proves the regions apart, the runtime class uses one array each.

Compiler:

- Validation.Validate: without the gate's checks across the project (UUIDs, format, deployment, produced and consumed tags),
  its check for non-finite REAL values and its warning about several writes to one tag; mnemonics and members are
  enumerations, so unknown ones and aliases do not arise.
- ImageBuilder.RuntimeTags: TIMER and COUNTER initial values given as dictionaries are not modelled; the declared type of an
  initial value is a scalar.
- Programs are flattened to the list of their routines.
- JSON sections, SHA-256, debug map, memory estimate, and the extra checks of the image inspector.

Second backend:

- PropellerSteps.StepAgrees: without counters, DIV, forces and traces; the engine keys the edges of counters by position in
  a rung without the rung, so two rungs share them, while the stack code gives each counter its own cells.
- PropellerTrees.TreeAgrees: likewise.
- PropellerTrees.RungsAgree: likewise.
- PropellerCompiler.LadderEngine.ExecuteStep: likewise.
- Numbers beyond a 32-bit cell: the engine's are unbounded; a flag of the model engine records that all of them fit, and
  the theorems ask for it.
- PropellerCompiler.CompileContext.constructor: counts the cells that are handed out before the first branch; names of
  words, pins and bindings are not modelled.
- The word bodies of the TAQOZ image and the host commands: the words used by rung and timer code are the primitives of
  `StackMachine`.

Link, routing, editor:

- The C decoder returns a pointer into the buffer for the payload; the model returns its bytes.
- Frames.EncodeC: the output buffer is an array of its own; overlap of payload and output is not modelled.
- Message texts are their UTF-8 bytes with a predicate for well-formedness; keys with surrogates, which Python cannot
  encode, do not arise.
- Normaliser.KeepsMeaningIffUnmixed: the engine that tells the trees apart gives every contact a reading of its own and
  records the power it receives; contacts that read the same tag may not tell them apart.
- Routing.RoutingEngine.Configure: CPython's recursion limit is not modelled; it makes the visit of an acyclic chain of
  about a thousand routes raise.
- Routing updates, qualities and timeouts; the alarm engine, the historian and all user interfaces.
