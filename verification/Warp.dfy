// One warp's execution up to a barrier or its end: the golden
// ComputeUnit::executeWarp (models/systemc/src/compute_unit/compute_unit.cpp)
// and the HLS executeOneWarp (hls/src/compute_unit/compute_pipeline.cpp).

/** The meaning of both execution loops. */
module Warp {
  import opened Isa
  import opened Simt
  import opened Codec

  type Lane = r: seq<Word> | |r| == REGS_PER_THREAD witness ZeroLane()
  type RegFile = rs: seq<Lane> | |rs| == THREADS_PER_WARP witness seq(THREADS_PER_WARP, _ => ZeroLane())

  function ZeroLane(): seq<Word> { seq(REGS_PER_THREAD, _ => 0) }

  // ----- One lane -----

  function AluValue(ops: Ops, op: Opcode, a: Word, b: Word): Word {
    if op.ADD? || op.ADDI? then Sum(a, b)
    else if op.SUB? then Difference(a, b)
    else if op.AND? then BitAnd(a, b)
    else if op.OR? then BitOr(a, b)
    else if op.XOR? then BitXor(a, b)
    else if op.SLT? then (if SignedLess(a, b) then 1 else 0)
    else if op.LUI? then Upper(b)
    else if op.FADD? then ops.fadd(a, b)
    else if op.FMUL? then ops.fmul(a, b)
    else 0
  }

  function VectorValue(ops: Ops, op: Opcode, a: Word, b: Word, c: Word): Word {
    if op.VADD? then Sum(a, b)
    else if op.VSUB? then Difference(a, b)
    else if op.VMUL? then ops.mul(a, b)
    else if op.VFMADD? then Sum(ops.mul(a, b), c)
    else if op.VFADD? then ops.fadd(a, b)
    else if op.VFSUB? then ops.fsub(a, b)
    else if op.VFMUL? then ops.fmul(a, b)
    else if op.VFFMADD? then ops.fadd(ops.fmul(a, b), c)
    else 0
  }

  // Branch and jump opcodes reach the scalar unit, which has no case for them.
  predicate AluWrites(op: Opcode) {
    if op.ADD? || op.SUB? || op.AND? || op.OR? || op.XOR? || op.SLT? || op.FADD? || op.FMUL? || op.ADDI? || op.LUI? then true
    else false
  }

  /** The value an arithmetic instruction writes to `rd`. */
  function ArithValue(ops: Ops, i: Instruction, r: Lane): Word
  {
    var a, b := r[i.rs1], r[i.rs2];
    if i.opcode.IsVector() then VectorValue(ops, i.opcode, a, b, r[i.rd])
    else AluValue(ops, i.opcode, a, if i.opcode.ADDI? || i.opcode.LUI? then i.imm else b)
  }

  /** Scalar and vector arithmetic write each active lane from that lane alone. */
  function ArithLane(ops: Ops, i: Instruction, r: Lane): Lane
  {
    if i.opcode.IsVector() || AluWrites(i.opcode) then r[i.rd := ArithValue(ops, i, r)] else r
  }

  function ArithLanes(ops: Ops, i: Instruction, regs: RegFile, mask: Mask): RegFile
  {
    seq(THREADS_PER_WARP, t requires 0 <= t < THREADS_PER_WARP =>
      if t in mask then ArithLane(ops, i, regs[t]) else regs[t])
  }

  // ----- Memory -----

  /** A request of one lane; addresses are 64 bits wide, as in the golden model. */
  datatype MemOp = MemOp(lane: nat, addr: bv64, write: bool, data: Word)

  /** The memory a warp talks to: the response to the last request, given all
      requests of the warp so far. Any other warp's traffic is part of it. */
  type Env = seq<MemOp> -> Word

  function SignExtend64(imm: Word): bv64 {
    if imm & 0x8000_0000 != 0 then (imm as bv64) | 0xFFFF_FFFF_0000_0000 else imm as bv64
  }

  function Sum64(x: bv64, y: bv64): bv64 { x + y }

  function WideSum(a: Word, imm: Word): bv64 { Sum64(a as bv64, SignExtend64(imm)) }

  // The golden model widens the sum to 64 bits; the hardware adds on 32.
  function Address(wide: bool, base: Word, imm: Word): bv64 {
    if wide then WideSum(base, imm) else Sum(base, imm) as bv64
  }

  function RequestWith(wide: bool, i: Instruction, t: nat, base: Word, data: Word): MemOp {
    MemOp(t, Address(wide, base, i.imm), i.opcode.SW?, if i.opcode.SW? then data else 0)
  }

  function Request(wide: bool, i: Instruction, t: nat, r: Lane): MemOp {
    RequestWith(wide, i, t, r[i.rs1], r[i.rs2])
  }

  /** Registers of the warp and every memory request it has made. */
  datatype Data = Data(regs: RegFile, trace: seq<MemOp>)

  function MemLane(wide: bool, env: Env, i: Instruction, t: nat, d: Data): Data
    requires t < THREADS_PER_WARP
  {
    var trace := d.trace + [Request(wide, i, t, d.regs[t])];
    var lane: Lane := d.regs[t][i.rd := env(trace)];
    Data(if i.opcode.LW? then d.regs[t := lane] else d.regs, trace)
  }

  /** Lanes t.. in ascending order, one request per active lane. */
  function MemLanes(wide: bool, env: Env, i: Instruction, d: Data, mask: Mask, t: nat): Data
    requires t <= THREADS_PER_WARP
    decreases THREADS_PER_WARP - t
  {
    if t == THREADS_PER_WARP then d
    else MemLanes(wide, env, i, if t in mask then MemLane(wide, env, i, t, d) else d, mask, t + 1)
  }

  // ----- One instruction -----

  function Conditions(i: Instruction, regs: RegFile, mask: Mask): (c: seq<bool>)
    ensures |c| == THREADS_PER_WARP
  {
    seq(THREADS_PER_WARP, t requires 0 <= t < THREADS_PER_WARP => t in mask && regs[t][i.rs1] == 0)
  }

  datatype Golden = Golden(d: Data, simt: State)
  datatype Hls = Hls(d: Data, simt: Bounded)

  function GoldenExec(ops: Ops, env: Env, i: Instruction, g: Golden): Golden
  {
    var mask := g.simt.mask;
    if i.opcode.VBRANCH? then g.(simt := Branch(g.simt, Conditions(i, g.d.regs, mask)))
    else if i.opcode.VJOIN? then g.(simt := Join(g.simt))
    else if i.opcode.IsMemory() then g.(d := MemLanes(true, env, i, g.d, mask, 0))
    else g.(d := g.d.(regs := ArithLanes(ops, i, g.d.regs, mask)))
  }

  // Without vector support a vector opcode reaches the scalar unit, which ignores it.
  function HlsExec(ops: Ops, env: Env, vectors: bool, i: Instruction, h: Hls): Hls
  {
    var mask := h.simt.s.mask;
    if i.opcode.VBRANCH? then h.(simt := BoundedBranch(h.simt, Conditions(i, h.d.regs, mask)))
    else if i.opcode.VJOIN? then h.(simt := BoundedJoin(h.simt))
    else if i.opcode.IsMemory() then h.(d := MemLanes(false, env, i, h.d, mask, 0))
    else if i.opcode.IsVector() && !vectors then h
    else h.(d := h.d.(regs := ArithLanes(ops, i, h.d.regs, mask)))
  }

  // ----- One dispatch -----

  datatype Stop = Complete | Stalled(barrier: Word)

  /** `executeWarp` from `pc`; returns why it stopped, the final pc and the state. */
  function GoldenRun(ops: Ops, env: Env, program: seq<Instruction>, pc: nat, g: Golden): (Stop, nat, Golden)
    decreases |program| - pc
  {
    if pc >= |program| || program[pc].opcode.HALT? then (Complete, pc, g)
    else if program[pc].opcode.BARRIER? then (Stalled(program[pc].imm), pc + 1, g)
    else GoldenRun(ops, env, program, pc + 1, GoldenExec(ops, env, program[pc], g))
  }

  const MAX_PROGRAM_LEN := 256

  /** The words the fetch loop may read: the first `programLen`, at most 256. */
  function Fetched(store: seq<Word>, programLen: nat): seq<Word>
    requires |store| == MAX_PROGRAM_LEN
  {
    if programLen <= MAX_PROGRAM_LEN then store[..programLen] else store
  }

  /** `executeOneWarp` on the fetched words from index `pc`. */
  function HlsRun(ops: Ops, env: Env, vectors: bool, words: seq<Word>, pc: nat, h: Hls): (Stop, nat, Hls)
    decreases |words| - pc
  {
    if pc >= |words| then (Complete, pc, h)
    else
      var i := Decode(words[pc]);
      if i.opcode.HALT? then (Complete, pc, h)
      else if i.opcode.BARRIER? then (Stalled(i.imm), pc + 1, h)
      else HlsRun(ops, env, vectors, words, pc + 1, HlsExec(ops, env, vectors, i, h))
  }

  /** Where a run stops is a matter of the words alone: not of data, masks or memory. */
  function NextStop(words: seq<Word>, pc: nat): (Stop, nat)
    decreases |words| - pc
  {
    if pc >= |words| then (Complete, pc)
    else
      var i := Decode(words[pc]);
      if i.opcode.HALT? then (Complete, pc)
      else if i.opcode.BARRIER? then (Stalled(i.imm), pc + 1)
      else NextStop(words, pc + 1)
  }

  lemma {:induction false} StopIsStatic(ops: Ops, env: Env, vectors: bool, words: seq<Word>, pc: nat, h: Hls)
    ensures var r := HlsRun(ops, env, vectors, words, pc, h); (r.0, r.1) == NextStop(words, pc)
    decreases |words| - pc
  {
    if pc < |words| {
      var i := Decode(words[pc]);
      if !i.opcode.HALT? && !i.opcode.BARRIER? {
        StopIsStatic(ops, env, vectors, words, pc + 1, HlsExec(ops, env, vectors, i, h));
      }
    }
  }
}
