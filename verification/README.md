# RISC-V GPGPU: a Dafny model and its proofs

The repository holds a RISC-V GPGPU three times over: a SystemC "golden" model,
an HLS hardware port that is meant to match it, and a compiler from PTX kernels
to RV32 code that the golden model also runs. This project models the logic of
all three and proves what they promise of each other and of themselves. Main
results, by component:

- **The port refines the golden unit** (`Warp`, `Refinement`, `Machine`). The
  hardware's fetch loop on encoded, expanded words does what the golden loop does
  on logical instructions, over any number of barrier stalls and resumes; and
  with the hardware's caches on one side and the golden memory hierarchy on the
  other, for every order in which warps are dispatched on any units, as long as no
  load reads a stale word, which a unit that is alone never does.
- **Launch protocol** (`Protocol`, `Loading`, `Launch`, `Safety`, `Liveness`,
  `Backpressure`, `Relay`, `GoldenLoop`). Loader, schedulers, pipelines and global
  barrier as one state machine, one step per pass of an endless loop, all
  interleavings: barrier safety, correct seeding, bounded streams. `Backpressure`
  gives the signal streams their declared depth and splits broadcasts into single
  writes that can block: safety holds in the middle of a broadcast, and launches
  that fit, are not empty and whose warps meet equally many barriers complete under
  every schedule that steps all units, and under schedules that leave out units
  without warps exactly when the depth suffices. The golden loop ends for the same
  kernels. Barrier safety holds with cluster relays in between, at any depth.
- **Divergence and lanes** (`Simt`, `Lanes`). Mask and stack partition the warp; the
  bounded and the unbounded controller agree until overflow, stale golden entries
  included; and what each opcode does to each lane, in both models, against a reference.
- **Caches and memories** (`Cache`, `Memory`, `HostMemory`). Coherence up to an
  exact set of stale words, flat memory for one unit, a stale load for two, byte
  transfers as little-endian flat memory, and parity of the two memory models.
- **Compiler** (`Ptx`, `Rv32`, `Division`, `Emitter`, `Compiled`, `Shifts`,
  `Exactness`, `Hosted`). Emitted code simulates the kernel, register for register,
  to its return; and among the lines that are accepted and assemble, the fragment
  for which a line is compiled correctly is exact.
- **Encodings** (`Codec`, `Decoders`, `MachineCode`). Round trip of the instruction
  codec, the exact set of words on which the second decoder agrees, and compiled
  kernels read back from their words.
- **Host-side loops and numbering** (`KernelBridge`, `Numbering`, `Balance`).
  Block barriers in terms of what the threads met, termination with an exact deadlock
  verdict, fairness, placement, load balancing.

Code that updates state in place is modelled by classes and methods (`SimtUnits`,
`WarpUnits`, `SlotUnits`, `LaunchUnits`, `MemoryUnits`, `EmitterUnits`,
`BridgeUnits`, and the classes in `HostMemory`, `GoldenLoop` and `Relay`). Each
method equates the new state with a function of the old, and the theorems are
about those functions. A class that holds one process's share of a larger state
has a predicate `Shows` that says so. `Numbers`, `Sums` and `Integers` are shared
arithmetic; `Isa` and `Slots` are shared data.

Check the project with `dafny verify dfyconfig.toml` (Dafny 4.11).

## How the model is set up

- Words are 32-bit vectors with wrap-around; golden addresses are 64 bits wide.
  Signed overflow in the original's C++ (`imm + 0x800`, for one) is taken as two's
  complement. Float operations are uninterpreted functions shared by both sides, so
  every result holds for any choice of them. Integer division is division of numbers.
- A launch has `n` units of `m` slots, both below 256, because the loader counts
  them in 8 bits. One launch is modelled, with `start` held until `done`.
- What a dispatched warp does next is a parameter of the protocol. The hardware
  results instantiate it with the straight-line fetch; `Warp.StopIsStatic` justifies it.
- `Protocol` has unbounded signal streams and atomic broadcasts; `Backpressure` and
  `Relay` bound and split them. A full seed stream makes the loader wait. The other
  streams of the flat wiring are shown never to fill up.
- A warp's memory is a parameter of the refinement: any answers that depend on the
  warp's own requests so far. `Machine` instantiates it with the real memories, and
  `Hosted` does so for compiled kernels.
- Histories that the program does not keep (`runs`, `launched`, `releases`, and what a
  bridge thread `did`) are there to state properties; no decision looks at them.
- The vector opcodes are modelled as enabled; `vectors == false` is the default
  build, which ignores them, and results that need vectors say so.
- A thread's registers in the compiler are two total maps, integer and float.
  The kernel starts from the parsed form; opcode strings are reduced to their
  families and a predicate says which lines are in the fragment.

## Where code and documentation disagree

The code is followed.

- A comment in `executeWarp` (models/systemc/src/compute_unit/compute_unit.cpp:138-140)
  says the divergence stacks are cleared on every run. `initializeWarp`
  (models/systemc/src/simt_controller/simt_controller.cpp:27-35) only resets the
  mask. `Simt.JoinParity` shows why the two models agree nevertheless.
- A release and a completion are said to be "not simultaneously" due
  (hls/src/scheduler/barrier_arbiter.h:114-116): proved, `Safety.ReleaseOrDone`.
- Depth 2 for the barrier signal streams (hls/src/scheduler/gpgpu_top.cpp:158-165)
  is enough for units with warps. A unit without any can be sent more
  (`Liveness.SignalsPileUp`, `Liveness.SignalDepthIff`); the arbiter then waits in
  the middle of a broadcast, and if that unit's scheduler never steps, `done` is
  never raised for launches of three barriers or more (`Backpressure.IdleUnitBlocks`).
- An empty kernel ends the golden loop at once but never completes on the hardware
  (hls/src/scheduler/barrier_arbiter.h:98).
- `mad.lo` whose destination is its addend doubles the product instead
  (driver/src/ptx_transpiler/rv_emitter.cpp:783-784): `Compiled.MadExact`.
- Unsigned `setp.gt` and `setp.le` with literal -1 are wrong for every value
  (lines 577-592): `Compiled.SetpMinusOneWrong`.
- Shift counts above 31 are masked by the machine and clamped by PTX:
  `Shifts.ShiftExact` says when that matters.
- `bar.sync` words are vector or float arithmetic to the hardware decoder
  (`Decoders.BarSyncReads`).
- Float register moves are nothing at all to the software decoder
  (`Decoders.FloatMovesAreUnknown`), so `mov.f32` has no effect: `Exactness.MovFloatExact`.
- Division and remainder by a literal are compiled as division by x0, and literal
  first sources as x0 (driver/src/ptx_transpiler/rv_emitter.cpp:725-730, 786-795):
  `Exactness.LiteralDivisionRight` and `Exactness.AluExactIff` say when that is right.
- The bridge's thread numbering is said to match the host's
  (runtime/src/host_runtime.cpp:17). For a zero x extent it may not:
  `Numbering.ZeroExtentDiffers`, with the exact condition in `Numbering.SameNumberingIff`.

## Model

| member | source | states |
|---|---|---|
| `Codec.RoundTrip` | hls/src/compute_unit/rv32i_codec.h:45-145 | decoding any encoded instruction gives back its opcode and exactly the operands its format carries, for all 28 opcodes and all bit patterns of the immediate, scrambled branch and jump immediates included |
| `Codec.EncodeReads` | hls/src/compute_unit/rv32i_codec.h:45-145 | every field of an encoded word reads back as the operand it was made from |
| `Codec.Extend12Exact` | hls/src/compute_unit/rv32i_codec.h:181-333 | a 12-bit immediate field returns the immediate it was given if and only if that immediate is in -2048..2047 |
| `Codec.LiSplit` | hls/src/compute_unit/rv32i_codec.h:161-178 | the upper and lower halves of the two-word form add up to the original immediate for every 32-bit value, and each half fits its word |
| `Codec.EncodeInstructionExpanded` | hls/src/compute_unit/rv32i_codec.h:161-178 | writes one word, or two exactly where expansion is needed, leaves the second slot alone otherwise, and returns how many |
| `Decoders.DecodersAgree` | models/systemc/integration/riscv_isa.h:66-207 | over all 2^32 words, the hardware and the software decoder read the same operation and operands if and only if the word is an encoding of one of the 14 shared operations |
| `Decoders.EncodedForBoth` | models/systemc/integration/riscv_isa.h:66-207 | whatever the hardware encoder writes for a shared operation the software decoder reads back as that operation with the same operands |
| `Decoders.BarSyncReads` | driver/src/ptx_transpiler/rv_emitter.cpp:648-657 | the barrier word the compiler emits is a barrier with its id to the software decoder, but vector or float arithmetic to the hardware decoder |
| `Decoders.FloatMovesAreUnknown` | models/systemc/integration/riscv_isa.h:207-296 | float sign injections, the compiled form of a float register move, decode to no operation at all |
| `MachineCode.ReadsBack` | models/systemc/integration/riscv_isa.h:66-296 | the RV32IMF word of every instruction the compiler emits reads back in the software decoder as that operation with all its operands, immediates and third sources, whatever the rounding mode |
| `MachineCode.LineFits` | driver/src/ptx_transpiler/rv_emitter.cpp:216-232 | every literal of a line that assembles fits the field of the instruction it ends up in |
| `MachineCode.KernelReads` | driver/src/ptx_transpiler/rv_emitter.cpp:185-212 | in the words of a compiled kernel whose lines assemble and whose jumps are in reach the decoder finds the machine code that the compiler is proved correct for, and every jump distance leads to its target |
| `MachineCode.HardwareFloats` | hls/src/compute_unit/rv32i_codec.h:264-275 | the hardware's decoder reads an emitted float addition or multiplication as that, of the same registers, and every other emitted float operation as a halt |
| `Simt.BranchConserves` | hls/src/simt_controller/divergence_stack.h:120-147 | a branch keeps mask and stack entries a partition of the initial mask, with no empty entry |
| `Simt.JoinConserves` | hls/src/simt_controller/divergence_stack.h:151-155 | so does a join, matched to a branch or not |
| `Simt.FullIffEmpty` | hls/src/simt_controller/divergence_stack.h:143-155 | under a partition all lanes run if and only if the stack is empty, so a join restores the full mask precisely when it pops the last entry |
| `Simt.BranchParity` | models/systemc/src/simt_controller/simt_controller.cpp:56-96 | a branch keeps the unbounded golden controller in step with the bounded one if and only if it does not push onto a full stack |
| `Simt.JoinParity` | models/systemc/src/simt_controller/simt_controller.cpp:98-110 | a join keeps the two in step even when it pops an entry that an earlier dispatch left on the golden stack |
| `Simt.EntriesWithin` | models/systemc/src/simt_controller/simt_controller.cpp:27-35 | what a dispatch leaves on the golden stack is inside the warp mask, so the next dispatch may start over it |
| `SimtUnits.SplitLanes` | hls/src/simt_controller/divergence_stack.h:120-134 | the lane loop splits the active lanes into those that stay active and those that are pushed |
| `SimtUnits.DivergenceStack.InitializeWarp` | hls/src/simt_controller/divergence_stack.h:72-78 | mask set, stack and overflow flag cleared |
| `SimtUnits.DivergenceStack.HandleBranch` | hls/src/simt_controller/divergence_stack.h:120-147 | the object moves exactly as the bounded branch the parity theorem is about, overflow included |
| `SimtUnits.DivergenceStack.PushDivergence` | hls/src/simt_controller/divergence_stack.h:158-162 | a push on a full stack changes nothing but the overflow flag |
| `SimtUnits.DivergenceStack.HandleJoin` | hls/src/simt_controller/divergence_stack.h:151-155 | the object moves exactly as the bounded join |
| `SimtUnits.SimtController.InitializeWarp` | models/systemc/src/simt_controller/simt_controller.cpp:27-35 | the mask is reset and the old stack stays; other warps are untouched |
| `SimtUnits.SimtController.HandleBranch` | models/systemc/src/simt_controller/simt_controller.cpp:56-96 | the warp moves exactly as the unbounded branch; masks and stacks of other warps are untouched |
| `SimtUnits.SimtController.HandleJoin` | models/systemc/src/simt_controller/simt_controller.cpp:98-110 | the warp moves exactly as the unbounded join; other warps are untouched |
| `Refinement.RequestExact` | hls/src/compute_unit/compute_pipeline.cpp:156-193 | for one lane, the golden 64-bit address and the hardware 32-bit one, and so the whole requests, are equal if and only if the golden address is below 4 GiB |
| `Refinement.MemExact` | hls/src/compute_unit/compute_pipeline.cpp:156-193 | lane by lane, requests, their order and their effects agree if and only if no active lane reaches 4 GiB |
| `Refinement.ExpansionExact` | hls/src/compute_unit/rv32i_codec.h:161-178 | LUI then ADDI does what the one logical ADDI does if and only if register 0 of every active lane holds zero |
| `Refinement.CarriedArithLanes` | hls/src/compute_unit/compute_pipeline.cpp:77-146 | scalar and vector arithmetic see the same operands through the encoding as from the logical instruction |
| `Refinement.WordsAt` | hls/src/compute_unit/rv32i_codec.h:161-178 | the words of instruction k stand at its expanded position in the assembled program |
| `Refinement.FetchOne` | hls/src/compute_unit/compute_pipeline.cpp:238-281 | the fetch loop decodes a one-word instruction at its expanded position |
| `Refinement.FetchTwo` | hls/src/compute_unit/compute_pipeline.cpp:238-281 | and the two halves of an expanded one |
| `Refinement.OneWordStep` | hls/src/compute_unit/compute_pipeline.cpp:258-280 | every instruction of one word keeps the two models in step: registers, requests, mask, stack and statistics |
| `Refinement.TwoWordStep` | hls/src/compute_unit/compute_pipeline.cpp:258-280 | and so does the two-word load of a large immediate |
| `Refinement.RunAgrees` | hls/src/compute_unit/compute_pipeline.cpp:222-282 | one dispatch stops for the same reason, with the same registers and the same requests in order, at the image of the golden pc |
| `Refinement.PortRefinement` | hls/src/compute_unit/compute_pipeline.cpp:222-282 | over any number of stalls and resumes, the port on encoded words reports what the golden unit reports: stop kind, barrier id, registers, memory requests in order, and a resume pc that is the expanded position of the golden pc |
| `Refinement.StoreHoldsProgram` | hls/src/compute_unit/compute_pipeline.cpp:236-242 | the fetch loop sees exactly the assembled words once they are in the program store |
| `Warp.StopIsStatic` | hls/src/compute_unit/compute_pipeline.cpp:238-281 | where a dispatch stops depends on the words alone, not on registers, masks or memory |
| `WarpUnits.MemoryPort.Access` | hls/src/compute_unit/compute_pipeline.cpp:156-193 | one request at a time, each awaited |
| `WarpUnits.ExecuteArith` | hls/src/compute_unit/compute_pipeline.cpp:77-146 | each active lane is updated from that lane alone, inactive lanes are untouched |
| `WarpUnits.ExecuteMemOp` | hls/src/compute_unit/compute_pipeline.cpp:156-193 | one request per active lane in ascending lane order, loads writing that lane only |
| `WarpUnits.ExecuteBranch` | hls/src/compute_unit/compute_pipeline.cpp:198-211 | after a branch exactly the lanes that were active and hold zero are active; stack, counters and overflow as in the branch of the divergence theorems |
| `WarpUnits.ExecuteInstruction` | hls/src/compute_unit/compute_pipeline.cpp:258-280 | dispatch on the opcode, vector opcodes ignored when the unit has none |
| `WarpUnits.ExecuteOneWarp` | hls/src/compute_unit/compute_pipeline.cpp:222-282 | the fetch loop over the program store does the dispatch that the refinement is proved about |
| `WarpUnits.ComputeUnit.ExecuteArith` | models/systemc/src/compute_unit/compute_unit.cpp:194-241 | golden arithmetic on the active lanes |
| `WarpUnits.ComputeUnit.ExecuteMemOp` | models/systemc/src/compute_unit/compute_unit.cpp:245-260 | golden requests with 64-bit addresses, in lane order |
| `WarpUnits.ComputeUnit.ExecuteBranch` | models/systemc/src/compute_unit/compute_unit.cpp:264-271 | the same for the golden unit, on its unbounded stack |
| `WarpUnits.ComputeUnit.ExecuteInstruction` | models/systemc/src/compute_unit/compute_unit.cpp:155-188 | golden dispatch on the opcode |
| `WarpUnits.ComputeUnit.ExecuteWarp` | models/systemc/src/compute_unit/compute_unit.cpp:132-190 | the golden run from the warp's pc, starting with a full mask over whatever stack was left |
| `Lanes.GoldenBranchSides` | models/systemc/src/compute_unit/compute_unit.cpp:264-271 | after a branch a lane is active if and only if it was active and its register holds zero; the other active lanes are pushed as one entry, if there are any; a divergence is counted exactly when both sides have lanes |
| `Lanes.HlsBranchSides` | hls/src/compute_unit/compute_pipeline.cpp:198-211 | so in the hardware, and when lanes would be pushed onto a full stack, they are lost and the overflow flag is up |
| `Lanes.GoldenJoinWakes` | models/systemc/src/simt_controller/simt_controller.cpp:98-110 | a join wakes exactly the lanes of the last entry, or does nothing |
| `Lanes.HlsJoinWakes` | hls/src/simt_controller/divergence_stack.h:151-155 | so in the hardware |
| `Lanes.BranchThenJoin` | hls/src/simt_controller/divergence_stack.h:120-155 | a join right after a branch restores mask and stack if the branch pushed; if it did not, the branch has changed nothing |
| `Lanes.GoldenArithmetic` | models/systemc/src/compute_unit/compute_unit.cpp:194-241 | in every active lane the destination gets the value a per-opcode reference states for the operands, once; other registers, lanes, masks and requests stay |
| `Lanes.HlsArithmetic` | hls/src/compute_unit/compute_pipeline.cpp:77-146 | so in the hardware, which leaves all lanes alone on vector arithmetic if built without it |
| `Lanes.SignedOrder` | hls/src/compute_unit/compute_pipeline.cpp:77-146 | set-less-than goes by the signs first and then by the bits |
| `Lanes.GoldenMemory` | models/systemc/src/compute_unit/compute_unit.cpp:245-260 | the k-th active lane makes the k-th request, of the 64-bit sum of its base and the signed offset, with its data if it stores and its answer in its destination if it loads |
| `Lanes.HlsMemory` | hls/src/compute_unit/compute_pipeline.cpp:156-193 | so in the hardware, with the 32-bit sum |
| `Lanes.GoldenStops` | models/systemc/src/compute_unit/compute_unit.cpp:149-185 | a run stops at the first barrier, with its id and the pc behind it, at the first halt, or at the end |
| `Lanes.HlsStops` | hls/src/compute_unit/compute_pipeline.cpp:238-281 | so does a run of the fetch loop, on what its words decode to |
| `Machine.AnswersAgree` | hls/src/memory/memory_pipeline.h:86-112 | outside both shared windows, where nothing stale is read, the hardware caches and the golden ones answer every prefix of a warp's requests alike |
| `Machine.SameRun` | hls/src/compute_unit/compute_pipeline.cpp:222-282 | a dispatch depends on memory only through the answers to its own requests |
| `Machine.MemoriesStay` | hls/src/memory/memory_pipeline.h:151-204 | requests of any units leave both memories with the same words, and the set of stale words known |
| `Machine.DispatchLinked` | hls/src/compute_unit/compute_pipeline.cpp:222-282 | one dispatch of any warp, caches included, has the golden outcome and leaves the two machines linked |
| `Machine.MachinesAgree` | hls/src/compute_unit/compute_pipeline.cpp:325-341 | for every order of dispatches of any warps on any units, as long as no load reads a stale word, the hardware on encoded words behind its caches reports what the golden units on their hierarchy report, and both memories end with the same words |
| `Machine.AloneScheduleFresh` | hls/src/compute_unit/compute_pipeline.cpp:325-341 | a unit that is alone never reads a stale word, so its schedules agree without that condition |
| `Machine.StartLinked` | hls/src/memory/memory_pipeline.h:64-78 | a launch over reset caches starts linked |
| `Machine.HlsStep` | hls/src/compute_unit/compute_pipeline.cpp:325-341 | a dispatch leaves a memory that can serve the next |
| `Slots.NextReady` | hls/src/scheduler/cu_dispatch_unit.h:98-105 | the lowest READY slot, and none below it |
| `SlotUnits.Assign` | hls/src/scheduler/cu_dispatch_unit.h:67-80 | one slot filled or emptied, the others untouched |
| `SlotUnits.LaunchAll` | hls/src/scheduler/cu_dispatch_unit.h:83-91 | every slot assigned from the launch |
| `SlotUnits.FindReady` | hls/src/scheduler/cu_dispatch_unit.h:98-105 | returns the lowest READY slot, or none |
| `SlotUnits.Package` | hls/src/scheduler/cu_dispatch_unit.h:114-124 | the dispatch carries the slot's warp, pc and first-time flag, which is then cleared |
| `SlotUnits.Record` | hls/src/scheduler/cu_dispatch_unit.h:130-139 | a report marks its slot done, or stalled with barrier and pc |
| `SlotUnits.ReleaseAll` | hls/src/scheduler/cu_dispatch_unit.h:144-151 | exactly the stalled slots become ready |
| `SlotUnits.AllDone` | hls/src/scheduler/cu_dispatch_unit.h:155-163 | true exactly when no slot is ready or stalled |
| `SlotUnits.SchedulerCore.Dispatch` | hls/src/scheduler/gpgpu_top.h:253-259 | at most one dispatch out, of the lowest ready slot |
| `SlotUnits.SchedulerCore.Status` | hls/src/scheduler/gpgpu_top.h:260-265 | a report is recorded and its code passed on |
| `SlotUnits.SchedulerCore.Signal` | hls/src/scheduler/gpgpu_top.h:267-271 | a release or the end of the kernel is acted on |
| `SlotUnits.SchedulerCore.Pass` | hls/src/scheduler/gpgpu_top.h:226-277 | one pass of the endless loop is exactly the scheduler step of the protocol |
| `LaunchUnits.BarrierCore.OnEvent` | hls/src/scheduler/barrier_arbiter.h:73-79 | a completion or an arrival is counted, and nothing else |
| `LaunchUnits.BarrierCore.PollEvents` | hls/src/scheduler/barrier_arbiter.h:168-175 | one event of every unit is taken and counted |
| `LaunchUnits.BarrierCore.CheckRelease` | hls/src/scheduler/barrier_arbiter.h:177-187 | if all have arrived, the count restarts and a broadcast of the release begins, otherwise nothing changes |
| `LaunchUnits.BarrierCore.CheckComplete` | hls/src/scheduler/barrier_arbiter.h:189-200 | if all have completed, `busy` falls, `done` is raised and a broadcast of the end begins |
| `LaunchUnits.BarrierCore.Decide` | hls/src/scheduler/barrier_arbiter.h:160-187 | from the top of a pass to its first write, `start` low or high, relaunch included |
| `LaunchUnits.BarrierCore.Write` | hls/src/scheduler/barrier_arbiter.h:177-200 | one write of a broadcast; on a full stream it waits and nothing changes; after the last one the pass goes on |
| `LaunchUnits.BarrierCore.Run` | hls/src/scheduler/barrier_arbiter.h:158-202 | a pass of the endless loop, from where it stands to its end or the write that blocks it, is a sequence of the arbiter's steps |
| `LaunchUnits.LoopIsLaunch` | hls/src/scheduler/barrier_arbiter.h:158-166 | with `start` held until `done`, those steps are the arbiter's steps of the launch |
| `LaunchUnits.ProgramLoader.LoadWord` | hls/src/scheduler/gpgpu_top.h:119-131 | one program word reaches every unit |
| `LaunchUnits.ProgramLoader.SeedWord` | hls/src/scheduler/gpgpu_top.h:132-163 | word i of the warp in turn is sent, read at its number times 1024 plus i through the port of its parity, where the slot has a warp; position and token advance |
| `LaunchUnits.ProgramLoader.Pass` | hls/src/scheduler/gpgpu_top.h:108-170 | one pass of the endless loop is exactly the loader step of the protocol |
| `LaunchUnits.ComputePipeline.TakeSeed` | hls/src/compute_unit/compute_pipeline.cpp:325-333 | a seed word lands in its slot, thread and register |
| `LaunchUnits.FlatPlaces` | hls/src/compute_unit/compute_pipeline.cpp:325-333 | word t * 32 + r of a slot is register r of thread t |
| `LaunchUnits.ComputePipeline.RunDispatch` | hls/src/compute_unit/compute_pipeline.cpp:334-340 | a dispatch runs the warp in its slot's registers and reports it |
| `LaunchUnits.ComputePipeline.Pass` | hls/src/compute_unit/compute_pipeline.cpp:325-341 | seeds come before dispatches; one pass is exactly the pipeline step of the protocol |
| `Loading.InitialLoads` | hls/src/scheduler/gpgpu_top.h:87-107 | the loading invariant holds before `start` |
| `Loading.SeedLoads` | hls/src/compute_unit/compute_pipeline.cpp:325-333 | a seed delivered is not lost and overwrites nothing already delivered |
| `Loading.SendLoads` | hls/src/scheduler/gpgpu_top.h:132-163 | a word sent is delivered or on its way |
| `Loading.RegisterLoads` | hls/src/scheduler/gpgpu_top.h:132-170 | every loader step keeps the loading invariant for every unit |
| `Launch.WarpsPlaced` | hls/src/scheduler/cu_dispatch_unit.h:67-91 | the slots of all units together hold each warp of a fitting launch once |
| `Launch.EveryoneArrived` | hls/src/scheduler/barrier_arbiter.h:84-99 | the counters reach the total only when every slot of every unit is stalled, or every slot is done, with no event outstanding |
| `Launch.NeverBoth` | hls/src/scheduler/barrier_arbiter.h:114-116 | release and completion cannot be due together |
| `Launch.SchedulerKeeps` | hls/src/scheduler/gpgpu_top.h:226-277 | every scheduler pass keeps the launch invariant |
| `Launch.BarrierKeeps` | hls/src/scheduler/barrier_arbiter.h:158-202 | every arbiter pass keeps it |
| `Launch.PipelineKeeps` | hls/src/compute_unit/compute_pipeline.cpp:325-341 | every pipeline pass keeps it |
| `Launch.LoaderKeeps` | hls/src/scheduler/gpgpu_top.h:108-170 | every loader pass keeps it |
| `Launch.AlwaysInv` | hls/src/scheduler/gpgpu_top.h:230-277 | the invariant holds after every interleaving of passes |
| `Safety.RunsNearReleases` | hls/src/scheduler/gpgpu_top.h:250-271 | each warp has run once or not at all since the last release |
| `Safety.BarrierSafety` | hls/src/scheduler/barrier_arbiter.h:84-93 | in every interleaving, a warp past its k-th barrier implies that every warp on every unit has arrived at its own k-th |
| `Safety.ReleaseOrDone` | hls/src/scheduler/barrier_arbiter.h:177-200 | in no reachable state, before or after polling, are release and completion both due |
| `Safety.StreamBounds` | hls/src/scheduler/gpgpu_top.cpp:158-165 | events per unit never exceed the slots; at most one dispatch or report is out; at most one token; one signal for a unit with warps |
| `Safety.FirstRunIsSeeded` | hls/src/compute_unit/compute_pipeline.cpp:325-341 | in every interleaving a first dispatch of slot j of unit c runs warp g = (offset + c + j * units) mod 2^32, starts at 0, fetches the host's program, and finds in word k of its registers the host's word g * 1024 + k, read through port g mod 2 |
| `Safety.SeedsDisjoint` | hls/src/scheduler/gpgpu_top.h:132-163 | no word of the host's buffers is read for two slots, wrapped warp numbers included |
| `Safety.SeedsCover` | hls/src/scheduler/gpgpu_top.h:132-163 | for a launch that fits, with numbers below 2^32, the words read are exactly those from offset * 1024 up to (offset + total) * 1024 |
| `Safety.DispatchResumes` | hls/src/scheduler/cu_dispatch_unit.h:106-150 | every dispatch resumes its warp where its previous one stopped at a barrier, back to the first at 0 |
| `Safety.DoneMeansUniform` | hls/src/scheduler/barrier_arbiter.h:97-99 | completion implies a non-empty launch that fits and whose warps all met the same number of barriers and ran to the end |
| `Safety.WarpSlotOf` | hls/src/scheduler/cu_dispatch_unit.h:67-80 | warp w lives in slot w / units of unit w mod units |
| `Safety.FaultStartsNothing` | hls/src/scheduler/gpgpu_top.h:244-245 | a launch that is too big starts nothing on any unit |
| `Safety.FaultIffTooBig` | hls/src/scheduler/barrier_arbiter.h:60-68 | the fault is raised if and only if the launch exceeds units times slots |
| `Liveness.PassFalls` | hls/src/scheduler/gpgpu_top.h:226-277 | every pass changes nothing or brings the launch strictly closer to its end |
| `Liveness.NoDeadlock` | hls/src/scheduler/gpgpu_top.h:226-277 | until completion some process can move |
| `Liveness.RoundFalls` | hls/src/scheduler/gpgpu_top.h:226-277 | a round in which every process steps makes progress or is a rest state |
| `Liveness.LaunchCompletes` | hls/src/scheduler/barrier_arbiter.h:158-202 | where no signal stream fills up, a fitting, non-empty launch whose warps meet equally many barriers reaches `done` within a stated bound under every schedule fair to the units with warps |
| `Liveness.RoundRobin` | hls/src/scheduler/barrier_arbiter.h:158-202 | where no signal stream fills up, stepping the processes of the units with warps in turn reaches `done` |
| `Liveness.CompletesIff` | hls/src/scheduler/barrier_arbiter.h:97-99 | with unbounded signal streams, `done` is reachable if and only if the launch fits, is not empty and its warps meet equally many barriers |
| `Liveness.SignalsPileUp` | hls/src/scheduler/gpgpu_top.cpp:158-165 | a unit without warps can have every signal of the launch waiting at once |
| `Liveness.SignalDepthIff` | hls/src/scheduler/gpgpu_top.cpp:158-165 | signal streams of depth d never overflow if and only if every unit has a warp or the launch has fewer than d barriers |
| `Liveness.HardwareIsUniform` | hls/src/compute_unit/compute_pipeline.cpp:238-281 | because fetch is straight-line, all warps of a hardware launch meet the same barriers |
| `Liveness.HardwareCompletes` | hls/src/compute_unit/compute_pipeline.cpp:238-281 | where no signal stream fills up, every hardware launch that fits and is not empty completes under every such schedule |
| `Backpressure.WholePass` | hls/src/scheduler/barrier_arbiter.h:158-202 | where every stream has room, the single writes of a pass do together what the pass does |
| `Backpressure.TellKeeps` | hls/src/scheduler/barrier_arbiter.h:177-200 | a write keeps the launch invariant in the middle of a broadcast, blocked or not |
| `Backpressure.AlwaysWiredInv` | hls/src/scheduler/barrier_arbiter.h:158-202 | the invariant holds after every interleaving of passes and single writes, at any depth |
| `Backpressure.WiredBarrierSafety` | hls/src/scheduler/barrier_arbiter.h:84-93 | barrier safety at any stream depth, with a broadcast interrupted anywhere |
| `Backpressure.WiredDoneMeansUniform` | hls/src/scheduler/barrier_arbiter.h:97-99 | completion at any stream depth means every warp ran to its end through the same barriers |
| `Backpressure.WiredPassFalls` | hls/src/scheduler/gpgpu_top.h:226-277 | every pass or single write changes nothing or brings the launch closer to its end |
| `Backpressure.NeverFull` | hls/src/scheduler/gpgpu_top.cpp:158-165 | a release never finds a full stream if every unit has warps or the depth is at least the number of barriers |
| `Backpressure.FullIsRead` | hls/src/scheduler/gpgpu_top.cpp:158-165 | a full stream is read as soon as its scheduler steps, launched or not yet |
| `Backpressure.WiredNoDeadlock` | hls/src/scheduler/gpgpu_top.h:226-277 | before completion no fair round leaves everything as it is, blocked writes included |
| `Backpressure.WiredLaunchCompletes` | hls/src/scheduler/barrier_arbiter.h:158-202 | at the declared depth a fitting, non-empty launch with b barriers reaches `done` under every schedule that steps all units; and under every schedule that steps the units with warps, if there are no others or the depth is at least b |
| `Backpressure.WiredHardwareCompletes` | hls/src/compute_unit/compute_pipeline.cpp:238-281 | the same for the hardware's straight-line warps |
| `Backpressure.AlwaysFit` | hls/src/scheduler/gpgpu_top.cpp:158-165 | no signal stream ever holds more than its depth |
| `Backpressure.IdleUnitBlocks` | hls/src/scheduler/barrier_arbiter.h:177-200 | if a unit without warps never steps, completion takes a depth of at least the number of barriers |
| `Backpressure.WiredCompletesIff` | hls/src/scheduler/gpgpu_top.cpp:158-165 | stepping only the units with warps reaches `done` on every schedule if and only if every unit has warps or the depth is at least the number of barriers |
| `Backpressure.WiredPossibleIff` | hls/src/scheduler/barrier_arbiter.h:97-99 | at every depth `done` is reachable if and only if the launch fits, is not empty and its warps meet equally many barriers |
| `Relay.ForwardKeepsView` | hls/src/scheduler/cu_cluster.h:47-53 | forwarding an event changes nothing the arbiter's invariant can see |
| `Relay.FanOutKeepsView` | hls/src/scheduler/cu_cluster.h:54-62 | nor does taking a signal or handing it to one more unit, blocked or not |
| `Relay.SentView` | hls/src/scheduler/barrier_arbiter.h:177-200 | nor does a write of the arbiter to a cluster stream |
| `Relay.PollOneView` | hls/src/scheduler/barrier_arbiter.h:168-175 | polling a cluster stream pops the stream of the one unit the event came from |
| `Relay.SchedulerView` | hls/src/scheduler/gpgpu_top.h:250-271 | a scheduler behind a relay does what it would do without one, at most missing signals still in the relay |
| `Relay.ArbitrateKeeps` | hls/src/scheduler/barrier_arbiter.h:145-203 | the arbiter over cluster streams keeps the launch invariant, in the middle of a broadcast too |
| `Relay.AlwaysRelayInv` | hls/src/scheduler/cu_cluster.h:38-63 | the invariant holds after every interleaving of passes and single writes, at any depth of the streams |
| `Relay.RelayedBarrierSafety` | hls/src/scheduler/cu_cluster.h:38-63 | barrier safety with relays between schedulers and arbiter |
| `Relay.RelayedReleaseOrDone` | hls/src/scheduler/barrier_arbiter.h:177-200 | release and completion are never both due behind relays |
| `Relay.RelayedStreamBounds` | hls/src/scheduler/cu_cluster.h:38-63 | per unit at most its slots in events and, with warps, one signal, counting what relay, cluster stream and arbiter still hold for it |
| `Relay.RelayedDoneMeansUniform` | hls/src/scheduler/barrier_arbiter.h:97-99 | completion behind relays still means every warp ran to its end through the same barriers |
| `Relay.ClusterRelay.RelayEvent` | hls/src/scheduler/cu_cluster.h:47-53 | one event moves up, in order, or waits for room |
| `Relay.ClusterRelay.FanOutSignal` | hls/src/scheduler/cu_cluster.h:54-62 | a signal is taken, handed to the next scheduler of the cluster, or waits for room |
| `Relay.ClusterRelay.Run` | hls/src/scheduler/cu_cluster.h:45-63 | a pass of the relay, from where it stands to its end or the write that blocks it, is a sequence of steps of its own cluster |
| `GoldenLoop.RunFirstFills` | models/systemc/src/top/top.cpp:132-160 | running a ready warp keeps every warp ready, queued or finished exactly once |
| `GoldenLoop.BarrierOpens` | models/systemc/src/top/top.cpp:165-183 | the queue is released exactly when every warp of the kernel has stalled |
| `GoldenLoop.GoldenEndsIff` | models/systemc/src/top/top.cpp:118-187 | the golden loop ends if and only if all warps meet equally many barriers, empty kernel included |
| `GoldenLoop.SameCompletion` | models/systemc/src/top/top.cpp:118-187 | for non-empty kernels that fit, the golden loop ends if and only if the hardware launch can complete |
| `GoldenLoop.EmptyKernel` | models/systemc/src/top/top.cpp:118-187 | an empty kernel ends at once |
| `GoldenLoop.SimulationLoop.FanOutAll` | models/systemc/src/top/top.cpp:132-160 | every unit runs the warp at the front of its queue |
| `GoldenLoop.SimulationLoop.SchedulerComplete` | models/systemc/src/scheduler/warp_scheduler.cpp:115-121 | true exactly when no queue holds a warp |
| `GoldenLoop.SimulationLoop.Iterate` | models/systemc/src/top/top.cpp:132-183 | one iteration of the loop is exactly the step the theorem is about |
| `Cache.Slices` | hls/src/memory/cache_bank.h:189-200 | tag, set and word of an address give that address back |
| `Cache.Assembled` | hls/src/memory/cache_bank.h:189-200 | and every tag, set and word come from one address: the slicing is a bijection |
| `Cache.FillKeeps` | hls/src/memory/cache_bank.h:172-187 | filling a line that is absent never puts one tag twice in a set |
| `Cache.WriteKeeps` | hls/src/memory/cache_bank.h:162-166 | writing a word neither adds nor removes a line |
| `Cache.LookupFinds` | hls/src/memory/cache_bank.h:118-134 | lookup hits exactly when the line is resident, in the one way that holds it |
| `Cache.FilledLineSurvives` | hls/src/memory/cache_bank.h:172-187 | a filled line survives further fills of its set if and only if there are fewer of them than ways |
| `Memory.FillAgrees` | hls/src/memory/memory_pipeline.h:142-187 | a filled line agrees with memory and clears its words' staleness |
| `Memory.WriteAgrees` | hls/src/memory/memory_pipeline.h:193-204 | a store refreshes the word in the storing unit's caches |
| `Memory.HandleCoherent` | hls/src/memory/memory_pipeline.h:86-112 | every request keeps every valid L2 word equal to memory and every valid L1 word too unless another unit stored it since; only a load of such a word is answered differently from flat memory |
| `Memory.AloneIsFlat` | hls/src/memory/memory_pipeline.h:86-112 | with one unit every load returns the last value stored |
| `Memory.FreshIsFlat` | hls/src/memory/memory_pipeline.h:86-112 | any run of any number of units is answered as flat memory would, if none of its requests reads a stale word |
| `Memory.FlatIsLastStored` | hls/src/memory/memory_pipeline.h:86-112 | and flat memory answers every load with the last value stored before it to the same global word, or to the same shared word of the same unit, or with what was there |
| `Memory.AloneIsFresh` | hls/src/memory/memory_pipeline.h:86-112 | a unit that is alone never reads one |
| `Memory.StaleLoad` | hls/src/memory/memory_pipeline.h:193-204 | a loaded word, stored by another unit, is loaded again with its old value, which differs from flat memory if and only if another value was stored |
| `Memory.ResetCoherent` | hls/src/memory/memory_pipeline.h:64-78 | after a reset nothing disagrees |
| `MemoryUnits.SetAssocCache.Reset` | hls/src/memory/cache_bank.h:101-114 | every line invalid, victims back to way 0 |
| `MemoryUnits.SetAssocCache.Lookup` | hls/src/memory/cache_bank.h:118-134 | the last matching way, or none |
| `MemoryUnits.SetAssocCache.ReadLine` | hls/src/memory/cache_bank.h:142-157 | the words of the line are copied out unchanged |
| `MemoryUnits.SetAssocCache.WriteWord` | hls/src/memory/cache_bank.h:162-166 | one word of one line changes |
| `MemoryUnits.SetAssocCache.FillLine` | hls/src/memory/cache_bank.h:172-187 | the victim way takes the line, the next way becomes victim |
| `MemoryUnits.MemorySubsystem.LoadWord` | hls/src/memory/memory_pipeline.h:151-187 | L1, then L2, then memory, filling what missed |
| `MemoryUnits.MemorySubsystem.StoreWord` | hls/src/memory/memory_pipeline.h:193-204 | memory and the resident copies of this unit are written, no line is allocated |
| `MemoryUnits.MemorySubsystem.HandleRequest` | hls/src/memory/memory_pipeline.h:86-112 | a request is served as the coherence theorem assumes, shared window included |
| `MemoryUnits.GrantsComeCloser` | hls/src/scheduler/mem_arbiter.h:42-54 | a grant to another unit brings a pending unit's turn strictly closer |
| `MemoryUnits.FairGrants` | hls/src/scheduler/mem_arbiter.h:42-54 | a unit whose request stays pending is served after at most units - 1 other grants |
| `MemoryUnits.MemArbiter.ArbitrateOnce` | hls/src/scheduler/mem_arbiter.h:42-54 | the next pending request is forwarded unchanged, the pointer moves past its unit, all others stay |
| `HostMemory.LoadIsGlobal` | models/systemc/src/memory/memory_hierarchy.cpp:102-135 | a load outside the shared window answers global memory whatever the caches hold |
| `HostMemory.StoreConsistent` | models/systemc/src/memory/memory_hierarchy.cpp:139-152 | a store keeps cached words equal to memory |
| `HostMemory.LoadAfterStore` | models/systemc/src/memory/memory_hierarchy.cpp:102-152 | what was stored is what is loaded, in global and in shared memory |
| `HostMemory.StoreLeaves` | models/systemc/src/memory/memory_hierarchy.cpp:84-152 | a store leaves the word at every other aligned address as it is, shared or global, and the same address of every other block |
| `HostMemory.RefusedIff` | models/systemc/src/memory/memory_hierarchy.cpp:72-152 | a word access is refused if and only if it is in the window and the block has no such word, and then changes nothing |
| `HostMemory.UnwrittenIsZero` | models/systemc/src/memory/memory_hierarchy.cpp:102-137 | memory that was never written reads as 0 |
| `HostMemory.TransferIsFlat` | models/systemc/src/memory/memory_hierarchy.cpp:179-204 | a byte transfer of any length and alignment writes the bytes it covers, leaves all others, and keeps the caches consistent |
| `HostMemory.ReadAfterWrite` | models/systemc/src/memory/memory_hierarchy.cpp:179-233 | a byte read returns what a byte write left, although reads pass the caches by |
| `HostMemory.UploadLeaves` | models/systemc/src/memory/memory_hierarchy.cpp:179-204 | a transfer into the shared window leaves every byte outside it, every other block and global memory as they are |
| `HostMemory.UploadLeavesWords` | models/systemc/src/memory/memory_hierarchy.cpp:179-204 | and so every word loaded from elsewhere |
| `HostMemory.BytesLeaveShared` | models/systemc/src/memory/memory_hierarchy.cpp:179-204 | a transfer to global memory leaves shared memory as it is |
| `HostMemory.TransferMadeIff` | models/systemc/src/memory/memory_hierarchy.cpp:179-235 | a transfer that starts in the window is made exactly if it ends in it and the block has the bytes; otherwise nothing is written and zeros are read |
| `HostMemory.LoadSeesBytes` | models/systemc/src/memory/memory_hierarchy.cpp:102-135 | a word load is the little-endian composition of the transferred bytes |
| `HostMemory.BytesSeeStore` | models/systemc/src/memory/memory_hierarchy.cpp:139-152 | a byte read sees a stored word the same way, and no other byte changes |
| `HostMemory.FreshParity` | models/systemc/src/memory/memory_hierarchy.cpp:102-152 | on any traffic outside both shared windows that reads nothing stale the hardware and the golden hierarchy return identical data |
| `HostMemory.MemoryParity` | models/systemc/src/memory/memory_hierarchy.cpp:102-152 | so they do on any traffic of one unit |
| `HostMemory.MemoryHierarchy.AllocateSharedMemory` | models/systemc/src/memory/memory_hierarchy.cpp:49-58 | a block gets zeroed shared memory if the size is allowed |
| `HostMemory.MemoryHierarchy.LoadWord` | models/systemc/src/memory/memory_hierarchy.cpp:102-135 | the maps change exactly as the load the theorems are about, refusals included |
| `HostMemory.MemoryHierarchy.StoreWord` | models/systemc/src/memory/memory_hierarchy.cpp:139-152 | the maps change exactly as the store |
| `HostMemory.MemoryHierarchy.InvalidateCache` | models/systemc/src/memory/memory_hierarchy.cpp:164-169 | both caches emptied, memory kept |
| `HostMemory.MemoryHierarchy.WriteBytes` | models/systemc/src/memory/memory_hierarchy.cpp:179-204 | the maps change exactly as the transfer |
| `HostMemory.MemoryHierarchy.ReadBytes` | models/systemc/src/memory/memory_hierarchy.cpp:206-233 | returns the bytes the transfer theorems are about |
| `Integers.ToWordAdds` | driver/src/ptx_transpiler/rv_emitter.cpp:742-763 | literals of any sign are taken modulo 2^32, additively |
| `Integers.MultiplyByPower` | driver/src/ptx_transpiler/rv_emitter.cpp:764-776 | multiplying by a power of two is the shift the compiler emits |
| `Integers.NegatedLiteral` | driver/src/ptx_transpiler/rv_emitter.cpp:593-608 | adding a negated literal subtracts it |
| `Integers.NextLiteral` | driver/src/ptx_transpiler/rv_emitter.cpp:577-592 | comparing with the next literal is comparing with at most the literal, under the condition on the immediate |
| `Rv32.RunStraight` | models/systemc/src/compute_unit/compute_unit.cpp:489-545 | a straight block in place runs as the composition of its effects and ends behind it |
| `Emitter.PoolsAreSafe` | driver/src/ptx_transpiler/rv_emitter.cpp:19-35 | pool registers are distinct and never t6, gp, ra, zero or an argument register |
| `Emitter.AllocationGrows` | driver/src/ptx_transpiler/rv_emitter.cpp:88-110 | allocation only grows, stays one-to-one, and in the end gives every line the registers it saw |
| `EmitterUnits.LinesGrow` | driver/src/ptx_transpiler/rv_emitter.cpp:216-232 | a block emitted early is the block the final allocation gives |
| `EmitterUnits.RvEmitter.Ireg` | driver/src/ptx_transpiler/rv_emitter.cpp:88-98 | known names keep their register, new ones take the next of the pool, an empty pool is an error that changes no map |
| `EmitterUnits.RvEmitter.Freg` | driver/src/ptx_transpiler/rv_emitter.cpp:100-110 | the same for float registers |
| `EmitterUnits.RvEmitter.EmitInstr` | driver/src/ptx_transpiler/rv_emitter.cpp:216-232 | one line appends exactly its block, or reports an error exactly for what is rejected or out of registers |
| `EmitterUnits.RvEmitter.EmitKernel` | driver/src/ptx_transpiler/rv_emitter.cpp:185-212 | the whole kernel is emitted, or nothing |
| `EmitterUnits.Link` | driver/src/ptx_transpiler/rv_emitter.cpp:199-212 | blocks in order, with each branch target the position of the line that defines its label, give the code of the kernel |
| `Compiled.LiLoads` | driver/src/ptx_transpiler/rv_emitter.cpp:438-442 | `li` loads every 32-bit literal, in one instruction or two |
| `Compiled.SetpRegister` | driver/src/ptx_transpiler/rv_emitter.cpp:560-611 | all six comparisons of registers, signed and unsigned, give the predicate |
| `Compiled.SetpLiteral` | driver/src/ptx_transpiler/rv_emitter.cpp:560-611 | and all six with a literal of the fragment |
| `Compiled.SetpMinusOneWrong` | driver/src/ptx_transpiler/rv_emitter.cpp:577-592 | unsigned greater-than and at-most with literal -1 give the wrong predicate for every value |
| `Compiled.SetpFloats` | driver/src/ptx_transpiler/rv_emitter.cpp:540-557 | float comparisons, swapped or inverted, give the predicate |
| `Compiled.AluLiteral` | driver/src/ptx_transpiler/rv_emitter.cpp:742-827 | each arithmetic operation with a literal second source computes the operation, division and remainder aside |
| `Compiled.AluComputes` | driver/src/ptx_transpiler/rv_emitter.cpp:717-827 | every arithmetic block that assembles, right or wrong, computes a stated value |
| `Compiled.MadExact` | driver/src/ptx_transpiler/rv_emitter.cpp:780-785 | multiply-add adds the addend if its register is not the destination, and doubles the product if it is |
| `Compiled.LineSimulated` | driver/src/ptx_transpiler/rv_emitter.cpp:216-232 | every straight line of the fragment is simulated by its block: registers, memory, barriers; `Exactness.LineExact` shows the fragment is all there is |
| `Compiled.BranchSimulated` | driver/src/ptx_transpiler/rv_emitter.cpp:616-646 | a branch goes where the source's goes, whenever its label is defined |
| `Compiled.BranchLands` | driver/src/ptx_transpiler/rv_emitter.cpp:616-646 | a branch that is taken takes the machine to the code of the line that defines its label, and one that is not to the code of the next line |
| `Compiled.ReturnSimulated` | driver/src/ptx_transpiler/rv_emitter.cpp:616-620 | a return halts the machine through the sentinel |
| `Compiled.BlockInPlace` | driver/src/ptx_transpiler/rv_emitter.cpp:185-212 | each line's block stands at its position in the code |
| `Compiled.StepSimulated` | models/systemc/src/compute_unit/compute_unit.cpp:489-545 | one source line is a known number of machine steps to the related state |
| `Compiled.RunSimulated` | models/systemc/src/compute_unit/compute_unit.cpp:489-545 | and so is every run |
| `Compiled.CompilerCorrect` | driver/src/ptx_transpiler/rv_emitter.cpp:185-212 | whenever emission succeeds and the run stays in the fragment, with every label it branches to defined, the code reaches the same memory, barrier sequence and return as the kernel, register for register, at the code of the line the source is at |
| `Compiled.StartExists` | models/systemc/integration/kernel_bridge.cpp:274-280 | a machine with the arguments and the context pointer in place starts related |
| `Shifts.ShiftExact` | driver/src/ptx_transpiler/rv_emitter.cpp:796-806 | a shift by register is right for every value if and only if the count is below 32, or, shifting right arithmetically, its low five bits are 31 |
| `Shifts.RightDropsLowest` | models/systemc/src/compute_unit/compute_unit.cpp:331-333 | one place to the right drops the lowest bit and clears the top one |
| `Shifts.ArithDropsLowest` | models/systemc/src/compute_unit/compute_unit.cpp:331-333 | or, arithmetically, keeps it |
| `Division.WordOfNat` | models/systemc/src/compute_unit/compute_unit.cpp:341-344 | each word is the word of its number, so numbers below 2^32 and words correspond |
| `Division.NatOf` | models/systemc/src/compute_unit/compute_unit.cpp:341-344 | and each number below 2^32 is the number of its word |
| `Division.Truncates` | models/systemc/src/compute_unit/compute_unit.cpp:341-344 | quotient and remainder recompose the dividend, the remainder being smaller than the divisor and with the dividend's sign: truncation towards zero |
| `Division.UnsignedOnes` | models/systemc/src/compute_unit/compute_unit.cpp:341-344 | an unsigned quotient is the word of all ones exactly for the largest word divided by one |
| `Division.SignedOnes` | models/systemc/src/compute_unit/compute_unit.cpp:341-344 | a signed quotient is -1 exactly when the signs differ and the divisor goes once into the dividend |
| `Division.UnsignedWhole` | models/systemc/src/compute_unit/compute_unit.cpp:341-344 | a dividend is its own unsigned remainder exactly when it is below the divisor |
| `Division.SignedWhole` | models/systemc/src/compute_unit/compute_unit.cpp:341-344 | and its own signed remainder exactly when its magnitude is below the divisor's |
| `Exactness.LiteralDivisionRight` | driver/src/ptx_transpiler/rv_emitter.cpp:786-795 | division by a literal is right exactly when the quotient happens to be all ones, remainder by a literal exactly when the dividend is smaller: checks on literal and operand |
| `Exactness.FirstSourceReadsZero` | driver/src/ptx_transpiler/rv_emitter.cpp:725-730 | a literal first source is read as 0 |
| `Exactness.FirstSourceTells` | driver/src/ptx_transpiler/rv_emitter.cpp:725-730 | for every operation and every literal that is not 0 modulo 2^32 some second operand shows it |
| `Exactness.AluExactIff` | driver/src/ptx_transpiler/rv_emitter.cpp:742-827 | an arithmetic line is right for all operands if and only if its divisor is no literal (but 0, which divides nothing) and a literal first source is 0, or with a second literal makes no difference |
| `Exactness.SetpExact` | driver/src/ptx_transpiler/rv_emitter.cpp:560-611 | a comparison with a literal that assembles is right if and only if it is not an unsigned greater-than or at-most with -1, whatever is compared |
| `Exactness.MovFloatExact` | driver/src/ptx_transpiler/rv_emitter.cpp:423-428 | a move between float registers changes nothing, so it is right exactly in states where the two already agree |
| `Exactness.SpecialDropped` | driver/src/ptx_transpiler/rv_emitter.cpp:411-421 | a move from a special register outside the context block is dropped, and some state shows it |
| `Exactness.MultiplyAddWrong` | driver/src/ptx_transpiler/rv_emitter.cpp:780-785 | multiply-add onto its own addend is wrong for some state, however its registers coincide |
| `Exactness.LineExact` | driver/src/ptx_transpiler/rv_emitter.cpp:216-232 | among the lines that are accepted and assemble, the block is right for every safe state if and only if the line is in the fragment |
| `Hosted.CachesDoNotShow` | models/systemc/src/memory/memory_hierarchy.cpp:102-152 | on the golden hierarchy neither answers nor contents depend on what is cached |
| `Hosted.CompiledOnHierarchy` | models/systemc/src/compute_unit/compute_unit.cpp:368-394 | compiled kernels on the golden memory hierarchy: every word any thread can load, the barrier sequence and the return are the source's |
| `Hosted.AddressNumber` | models/systemc/src/compute_unit/compute_unit.cpp:368-394 | base and signed offset add as integers wherever the sum is an address below 2 GiB |
| `Hosted.SharedAddress` | driver/src/ptx_transpiler/rv_emitter.cpp:357-400 | a shared access of a kernel goes to the base of the shared window plus its offset |
| `Hosted.SharedStore` | driver/src/ptx_transpiler/rv_emitter.cpp:378-400 | within the window a shared store changes its word of its own block, and neither global memory nor what any other block loads |
| `KernelBridge.FullMeansAll` | models/systemc/integration/kernel_bridge.cpp:396-412 | the arrival count reaches the block size exactly when every thread of the block waits on that barrier |
| `KernelBridge.StepSound` | models/systemc/src/compute_unit/compute_unit.cpp:506-545 | a step adds the instruction's outcome to what the thread did, and its flags keep saying it: blocked only at the barrier its last instruction met, halted exactly after a halt or at the end of its budget |
| `KernelBridge.BlockedIffHeld` | models/systemc/integration/kernel_bridge.cpp:510-522 | a thread is blocked if and only if some thread of its block has not met the barriers it has met, in the same order |
| `KernelBridge.CompleteMeans` | models/systemc/integration/kernel_bridge.cpp:566-580 | when all are complete each thread has halted or used up its budget, and the threads of a block have met the same barriers in the same order |
| `KernelBridge.LeavesOnlyTogether` | models/systemc/integration/kernel_bridge.cpp:510-522 | a thread whose last instruction met barrier id leaves it only if the last instruction of every thread of its block met barrier id, and then all leave |
| `KernelBridge.VisitKeeps` | models/systemc/integration/kernel_bridge.cpp:483-575 | visiting a worker keeps the invariant, flags, barriers and what each thread did included, and, if it runs, uses up some of its cycles |
| `KernelBridge.VisitRecords` | models/systemc/integration/kernel_bridge.cpp:483-575 | a visit runs one instruction of that worker, if it can run and has cycles left, and of no other |
| `KernelBridge.ScalarVerdict` | models/systemc/integration/kernel_bridge.cpp:478-580 | a pass finds nobody active exactly when all are complete, and reports a deadlock exactly when somebody is not and everyone who is not has met barriers that some thread of its block has not |
| `KernelBridge.FirstPlacesReached` | models/systemc/integration/kernel_bridge.cpp:483-494 | the first places of a pass are always reached, and whoever can run there runs |
| `KernelBridge.ReachedWithin` | models/systemc/integration/kernel_bridge.cpp:576-577 | a cursor moving by the number of units has every worker among its first places within ceil(workers / units) moves |
| `KernelBridge.RoundsCover` | models/systemc/integration/kernel_bridge.cpp:576-577 | that many moves cover all workers, and one fewer does not |
| `KernelBridge.EveryWorkerTurns` | models/systemc/integration/kernel_bridge.cpp:476-581 | from any pass of the scalar loop on, every worker is reached within ceil(workers / units) passes, and is stepped if it can run then |
| `KernelBridge.GroupTurnKeeps` | models/systemc/integration/kernel_bridge.cpp:379-455 | a warp's turn keeps the invariant, runs one instruction of each of its threads that can run, uses cycles exactly when there is one, and otherwise changes nothing |
| `BridgeUnits.CountArrived` | models/systemc/integration/kernel_bridge.cpp:399-405 | counts the active blocked threads of the block on this barrier |
| `BridgeUnits.ReleaseBarrier` | models/systemc/integration/kernel_bridge.cpp:406-410 | unblocks exactly the threads of the block that wait on this barrier |
| `BridgeUnits.ScalarPass` | models/systemc/integration/kernel_bridge.cpp:478-577 | one pass does what the verdict is proved about |
| `BridgeUnits.RunScalar` | models/systemc/integration/kernel_bridge.cpp:476-581 | the scalar loop ends after some number of its passes, with every worker complete or with an exact deadlock |
| `BridgeUnits.WarpTurn` | models/systemc/integration/kernel_bridge.cpp:379-455 | a warp's turn in place |
| `BridgeUnits.WarpRound` | models/systemc/integration/kernel_bridge.cpp:376-459 | a round keeps the invariant and makes progress, or tells completion from deadlock exactly |
| `BridgeUnits.RunWarps` | models/systemc/integration/kernel_bridge.cpp:375-459 | the warp loop ends, with every worker complete or with an exact deadlock |
| `BridgeUnits.LaunchedInv` | models/systemc/integration/kernel_bridge.cpp:253-280 | freshly made workers satisfy what the loops need |
| `Numbering.ThreadNumbering` | runtime/src/host_runtime.cpp:21-57 | for all extents, zero ones included, every thread number of the host has coordinates in range that give it back |
| `Numbering.ThreadCoordinates` | runtime/src/host_runtime.cpp:21-57 | and all coordinates in range come from one such number |
| `Numbering.CountsAgree` | models/systemc/integration/kernel_bridge.cpp:215-221 | the bridge never counts more blocks or threads than the host, and as many if and only if the x extent is not zero or the others make one row |
| `Numbering.SameNumberingIff` | models/systemc/integration/kernel_bridge.cpp:284-302 | the bridge numbers a launch as the host does, counts and every context, if and only if that holds of grid and block; the number of threads alone tells |
| `Numbering.ZeroExtentDiffers` | models/systemc/integration/kernel_bridge.cpp:215-221 | at extent (0, 2, 1) the bridge has one block or thread where the host has two |
| `Numbering.ComputeThreadContexts` | runtime/src/host_runtime.cpp:21-57 | the host lists the coordinates of every thread in order |
| `Numbering.ContextSlots` | models/systemc/integration/kernel_bridge.cpp:194-195 | context slots are disjoint, and below the shared window exactly for up to 32768 threads |
| `Numbering.SharesCover` | hls/src/system_top/system_top.h:58-72 | the devices' shares add up to the launch |
| `Numbering.OneDevice` | hls/src/system_top/system_top.h:58-72 | no warp is given to two devices |
| `Numbering.LaunchKernel` | hls/src/system_top/system_top.h:58-72 | each device with warps is told its offset and share, the others are not started |
| `Numbering.OneSlot` | hls/src/scheduler/cu_dispatch_unit.h:67-91 | no two slots of the whole system take the same warp |
| `Numbering.PlacedIff` | hls/src/scheduler/cu_dispatch_unit.h:67-91 | every warp finds a slot if and only if no device is given more than it holds |
| `Balance.MoveKeeps` | models/systemc/src/scheduler/warp_scheduler.cpp:125-148 | a move keeps every warp and lowers the sum of squared lengths |
| `Balance.BalanceLoadAcrossUnits` | models/systemc/src/scheduler/warp_scheduler.cpp:125-148 | ends from any queues, keeps the multiset of warps, and leaves all lengths within one of each other |
| `Balance.Extremes` | models/systemc/src/scheduler/warp_scheduler.cpp:127-139 | finds a longest and a shortest queue |

## Left out

Outside the model:

- Logging, statistics, instruction counts, cycle counts, trace and debug output, hit rates: bookkeeping that no result depends on (divergence events and wasted cycles are kept).
- SystemC events and time, HLS pragmas, DATAFLOW timing: a pass of a process is one atomic step.
- Relaunching, and `start` withdrawn early: one launch only.
- More than 8 units in one flat region, where `cu_id_t` with its 3 bits wraps: unit numbers are unbounded here.
- `cuCluster`, `clusterRegLoader`, `programLoaderHier` and `superMemArbiter`: of the hierarchical wiring only the barrier relay is modelled, with the flat loader, and liveness is proved for the flat wiring only.
- `expandRVC`: compressed code is never emitted.
- PTX text, assembler text and object files: the compiler starts from parsed lines and ends in instructions and their words, pseudo-instructions in their standard expansion. `MachineCode` has the standard encodings an assembler uses; the assembler itself is not part of this model.
- ELF loading, device files, register polling, manifests and reports.
- `isComplete` of the multi-device wrapper, and the legacy clock-driven path of `ComputeUnit`.
- The barrier table of `SIMTController` (`threadHitBarrier` and its queries): nothing decides on it in the modelled paths. Its unused reconvergence pcs likewise.
- 32-bit overflow of grid and block products, `size_t` wrap-around of transfer lengths: dimensions are natural numbers, transfers shorter than the address space.
- Which threads form a warp in the lockstep loop is a parameter (contiguous ranges), and the lockstep loop's divergence statistics are left out.
- The resume pc of a completed warp, which the hardware leaves unset: here it is where fetch stopped, and no slot reads it again.

- PTX lines outside the parsed form modelled here: 8-, 16- and 64-bit element types, conversions between floats and unsigned integers or raw bits, `neg`, `abs` and `sqrt` on floats, literal operands of `mad`, `not` and `neg`.

Deliberately weaker than one might ask:

- Compiled.CompilerCorrect: threads run alone. Other threads' stores between two of a thread's instructions are not part of the run. The context block at gp must stay intact, as the run's condition says.
- Compiled.LineSimulated: for states in which register shift counts are below 32 and divisions are defined; `Shifts.ShiftExact` covers the other counts.
- Exactness.LineExact: lines that assemble have 12-bit offsets and comparison literals, shift counts of 0..31, and power-of-two factors up to 2^30, beyond which the compiler's own loop overflows. A dropped move from a special register is wrong only if its destination has a register at all, which is supposed.
- Compiled.SetpFloats: `ne` is the negation of the uninterpreted equality, as the emitted code computes it.
- Refinement.PortRefinement: for runs whose lanes keep register 0 at zero where a large immediate is expanded, whose stack does not overflow and whose addresses stay below 4 GiB; each condition is shown exact by itself (`ExpansionExact`, `BranchParity`, `RequestExact`).
- Machine.MachinesAgree: a dispatch is not interleaved with other units' traffic, and no load reads a stale word; where one does the two models can differ (`Memory.StaleLoad`).
- HostMemory.FreshParity: outside both shared windows, which lie at different addresses in the two models.
- HostMemory.MemoryParity: the same.
- Liveness.LaunchCompletes: signal streams are unbounded; `Backpressure.WiredLaunchCompletes` is the statement at the declared depth.
- Liveness.HardwareCompletes: the same; `Backpressure.WiredHardwareCompletes`.
- BridgeUnits.RunScalar: for `max_sim_cycles` above 0, which bounds each worker; with 0 a looping kernel never ends. What a step does to a worker is arbitrary.
- BridgeUnits.RunWarps: the same.
- Numbering.PlacedIff: for global warp ids below 2^32.
- Numbering.SameNumberingIff: extents and their products are natural numbers, without 32-bit wrap-around.
- MachineCode.KernelReads: jump distances are supposed to be in reach of their formats, as an assembler checks; the code is supposed to start at a multiple of 4, with nothing in between.
- Decoders.DecodersAgree: operation and operands; the float fields that only the software decoder has are not compared.
