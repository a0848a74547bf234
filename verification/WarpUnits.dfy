// The two execution loops as the sources run them: in place, lane by lane.

module WarpUnits {
  import opened Isa
  import opened Simt
  import opened SimtUnits
  import opened Codec
  import opened Warp
  import Lanes

  /** The request and response streams of one warp, or the golden memory object:
      each access is answered before the next is made. */
  class MemoryPort {
    const env: Env
    var trace: seq<MemOp>

    constructor (env: Env)
      ensures this.env == env && trace == []
    {
      this.env := env;
      trace := [];
    }

    method Access(op: MemOp) returns (data: Word)
      modifies this
      ensures trace == old(trace) + [op] && data == env(trace)
    {
      trace := trace + [op];
      data := env(trace);
    }
  }

  // ----- compute_pipeline.cpp: a lane-by-register buffer -----

  ghost predicate IsRegFile(regs: array2<Word>) {
    regs.Length0 == THREADS_PER_WARP && regs.Length1 == REGS_PER_THREAD
  }

  ghost function LaneOf(regs: array2<Word>, t: nat): Lane
    requires IsRegFile(regs) && t < THREADS_PER_WARP
    reads regs
  {
    seq(REGS_PER_THREAD, r requires 0 <= r < REGS_PER_THREAD reads regs => regs[t, r])
  }

  ghost function RegsOf(regs: array2<Word>): RegFile
    requires IsRegFile(regs)
    reads regs
  {
    seq(THREADS_PER_WARP, t requires 0 <= t < THREADS_PER_WARP reads regs => LaneOf(regs, t))
  }

  method WriteRegister(regs: array2<Word>, t: nat, rd: Reg, value: Word)
    requires IsRegFile(regs) && t < THREADS_PER_WARP
    modifies regs
    ensures RegsOf(regs) == old(RegsOf(regs))[t := old(LaneOf(regs, t))[rd := value]]
  {
    regs[t, rd] := value;
    assert LaneOf(regs, t) == old(LaneOf(regs, t))[rd := value];
    forall u | 0 <= u < THREADS_PER_WARP && u != t
      ensures LaneOf(regs, u) == old(LaneOf(regs, u))
    {
    }
  }

  /** Lanes below t are done, the others untouched. */
  ghost predicate LanesDone(ops: Ops, i: Instruction, mask: Mask, before: RegFile, now: RegFile, t: nat) {
    forall u :: 0 <= u < THREADS_PER_WARP ==>
      now[u] == if u < t && u in mask then ArithLane(ops, i, before[u]) else before[u]
  }

  /** `executeALU` and `executeVector`. */
  method ExecuteArith(ops: Ops, regs: array2<Word>, i: Instruction, mask: Mask)
    requires IsRegFile(regs)
    modifies regs
    ensures RegsOf(regs) == ArithLanes(ops, i, old(RegsOf(regs)), mask)
  {
    hide ArithValue;
    ghost var before := RegsOf(regs);
    for t := 0 to THREADS_PER_WARP
      invariant LanesDone(ops, i, mask, before, RegsOf(regs), t)
    {
      if t in mask && (i.opcode.IsVector() || AluWrites(i.opcode)) {
        assert RegsOf(regs)[t] == before[t];
        WriteRegister(regs, t, i.rd, ArithOf(ops, i, regs, t));
      }
    }
  }

  // The value an arithmetic instruction computes from lane t.
  function ArithOf(ops: Ops, i: Instruction, regs: array2<Word>, t: nat): (v: Word)
    requires IsRegFile(regs) && t < THREADS_PER_WARP
    reads regs
    ensures v == ArithValue(ops, i, LaneOf(regs, t))
  {
    var a, b := regs[t, i.rs1], regs[t, i.rs2];
    if i.opcode.IsVector() then VectorValue(ops, i.opcode, a, b, regs[t, i.rd])
    else AluValue(ops, i.opcode, a, if i.opcode.ADDI? || i.opcode.LUI? then i.imm else b)
  }

  /** `executeMemOp`: one request per active lane, in lane order, each awaited. */
  method ExecuteMemOp(port: MemoryPort, regs: array2<Word>, i: Instruction, mask: Mask)
    requires IsRegFile(regs) && i.opcode.IsMemory()
    modifies port, regs
    ensures Data(RegsOf(regs), port.trace)
            == MemLanes(false, port.env, i, Data(old(RegsOf(regs)), old(port.trace)), mask, 0)
  {
    ghost var d := Data(RegsOf(regs), port.trace);
    for t := 0 to THREADS_PER_WARP
      invariant MemLanes(false, port.env, i, Data(RegsOf(regs), port.trace), mask, t)
                == MemLanes(false, port.env, i, d, mask, 0)
    {
      if t in mask {
        ExecuteMemLane(port, regs, i, t);
      }
    }
  }

  // The request lane t makes; the hardware adds base and offset on 32 bits.
  function RequestOf(i: Instruction, regs: array2<Word>, t: nat): (op: MemOp)
    requires IsRegFile(regs) && t < THREADS_PER_WARP
    reads regs
    ensures op == Request(false, i, t, LaneOf(regs, t))
  {
    RequestWith(false, i, t, regs[t, i.rs1], regs[t, i.rs2])
  }

  method ExecuteMemLane(port: MemoryPort, regs: array2<Word>, i: Instruction, t: nat)
    requires IsRegFile(regs) && i.opcode.IsMemory() && t < THREADS_PER_WARP
    modifies port, regs
    ensures Data(RegsOf(regs), port.trace)
            == MemLane(false, port.env, i, t, Data(old(RegsOf(regs)), old(port.trace)))
  {
    hide Request;
    var op := RequestOf(i, regs, t);
    var data := port.Access(op);
    if i.opcode.LW? {
      WriteRegister(regs, t, i.rd, data);
    }
  }

  /** `executeBranch`. */
  method ExecuteBranch(simt: DivergenceStack, regs: array2<Word>, i: Instruction, mask: Mask)
    requires IsRegFile(regs) && simt.Valid() && mask == simt.activeMask
    modifies simt, simt.notTakenStack
    ensures simt.Valid()
    ensures simt.Value() == BoundedBranch(old(simt.Value()), Conditions(i, old(RegsOf(regs)), mask))
    ensures forall t :: t in simt.activeMask <==> t in mask && t < THREADS_PER_WARP && old(regs[t, i.rs1]) == 0
  {
    hide BoundedBranch, Branch;
    ghost var before := simt.Value();
    var conditions := new bool[THREADS_PER_WARP];
    for t := 0 to THREADS_PER_WARP
      modifies conditions
      invariant forall u :: 0 <= u < t ==> conditions[u] == (u in mask && regs[u, i.rs1] == 0)
    {
      conditions[t] := t in mask && regs[t, i.rs1] == 0;
    }
    assert conditions[..] == Conditions(i, old(RegsOf(regs)), mask);
    simt.HandleBranch(conditions);
    MaskAfter(before, conditions[..]);
    Lanes.Sides(mask, RegsOf(regs), i.rs1, conditions[..]);
  }

  lemma MaskAfter(b: Bounded, cond: seq<bool>)
    ensures BoundedBranch(b, cond).s.mask == Branch(b.s, cond).mask == Taken(b.s.mask, cond)
  {
  }

  ghost function HlsValue(regs: array2<Word>, port: MemoryPort, simt: DivergenceStack): Hls
    requires IsRegFile(regs) && simt.Valid()
    reads regs, port, simt, simt.notTakenStack
  {
    Hls(Data(RegsOf(regs), port.trace), simt.Value())
  }

  /** The dispatch on the opcode inside the fetch loop. */
  method ExecuteInstruction(ops: Ops, vectors: bool, i: Instruction, regs: array2<Word>, port: MemoryPort, simt: DivergenceStack)
    requires IsRegFile(regs) && simt.Valid()
    modifies regs, port, simt, simt.notTakenStack
    ensures simt.Valid()
    ensures HlsValue(regs, port, simt) == HlsExec(ops, port.env, vectors, i, old(HlsValue(regs, port, simt)))
  {
    hide ArithLanes, MemLanes, BoundedBranch, BoundedJoin, RegsOf, Conditions;
    var mask := simt.activeMask;
    if i.opcode.VBRANCH? {
      ExecuteBranch(simt, regs, i, mask);
    } else if i.opcode.VJOIN? {
      simt.HandleJoin();
    } else if i.opcode.IsMemory() {
      ExecuteMemOp(port, regs, i, mask);
    } else if vectors || !i.opcode.IsVector() {
      ExecuteArith(ops, regs, i, mask);
    }
  }

  /** `executeOneWarp`: a fresh controller, then the fetch loop over the program store. */
  method ExecuteOneWarp(ops: Ops, vectors: bool, program: array<Word>, programLen: nat, resumePc: nat,
                        regs: array2<Word>, port: MemoryPort)
    returns (stop: Stop, pc: nat)
    requires program.Length == MAX_PROGRAM_LEN && IsRegFile(regs)
    modifies regs, port
    ensures var start := Hls(Data(old(RegsOf(regs)), old(port.trace)), HlsFresh());
            var run := HlsRun(ops, port.env, vectors, Fetched(program[..], programLen), resumePc, start);
            stop == run.0 && pc == run.1 && RegsOf(regs) == run.2.d.regs && port.trace == run.2.d.trace
  {
    hide HlsExec, Decode, RegsOf;
    var simt := new DivergenceStack();
    simt.InitializeWarp(AllLanes(THREADS_PER_WARP));
    ghost var words := Fetched(program[..], programLen);
    ghost var start := HlsValue(regs, port, simt);
    pc := resumePc;
    while pc < programLen && pc < MAX_PROGRAM_LEN
      invariant simt.Valid()
      invariant fresh(simt) && fresh(simt.notTakenStack)
      invariant HlsRun(ops, port.env, vectors, words, resumePc, start)
                == HlsRun(ops, port.env, vectors, words, pc, HlsValue(regs, port, simt))
      decreases MAX_PROGRAM_LEN - pc
    {
      assert words[pc] == program[pc];
      var i := Decode(program[pc]);
      if i.opcode.HALT? {
        break;
      }
      if i.opcode.BARRIER? {
        return Stalled(i.imm), pc + 1;
      }
      ExecuteInstruction(ops, vectors, i, regs, port, simt);
      pc := pc + 1;
    }
    stop := Complete;
  }

  function HlsFresh(): Bounded {
    Bounded(State(AllLanes(THREADS_PER_WARP), [], 0, 0), false)
  }

  // ----- compute_unit.cpp: register vectors of a warp context -----

  /** `WarpContext`: what survives between dispatches of a golden warp. */
  class WarpContext {
    const warpId: nat
    const program: seq<Instruction>
    var pc: nat
    var regs: RegFile

    constructor (warpId: nat, program: seq<Instruction>, regs: RegFile)
      ensures this.warpId == warpId && this.program == program && pc == 0 && this.regs == regs
    {
      this.warpId, this.program, pc, this.regs := warpId, program, 0, regs;
    }
  }

  /** `ComputeUnit` in its virtual-ISA role. */
  class ComputeUnit {
    const ops: Ops
    const simt: SimtController
    const memory: MemoryPort

    constructor (ops: Ops, simt: SimtController, memory: MemoryPort)
      ensures this.ops == ops && this.simt == simt && this.memory == memory
    {
      this.ops, this.simt, this.memory := ops, simt, memory;
    }

    ghost function Value(ctx: WarpContext): Golden
      requires simt.Valid()
      reads ctx, simt, memory
    {
      Golden(Data(ctx.regs, memory.trace), simt.Value(ctx.warpId))
    }

    method ExecuteArith(ctx: WarpContext, i: Instruction, mask: Mask)
      modifies ctx`regs
      ensures ctx.regs == ArithLanes(ops, i, old(ctx.regs), mask)
    {
      hide ArithLane;
      ghost var before := ctx.regs;
      for t := 0 to THREADS_PER_WARP
        invariant LanesDone(ops, i, mask, before, ctx.regs, t)
      {
        if t in mask {
          ctx.regs := ctx.regs[t := ArithLane(ops, i, ctx.regs[t])];
        }
      }
    }

    method ExecuteMemOp(ctx: WarpContext, i: Instruction, mask: Mask)
      requires i.opcode.IsMemory()
      modifies ctx`regs, memory
      ensures Data(ctx.regs, memory.trace)
              == MemLanes(true, memory.env, i, Data(old(ctx.regs), old(memory.trace)), mask, 0)
    {
      hide Request;
      ghost var d := Data(ctx.regs, memory.trace);
      for t := 0 to THREADS_PER_WARP
        invariant MemLanes(true, memory.env, i, Data(ctx.regs, memory.trace), mask, t)
                  == MemLanes(true, memory.env, i, d, mask, 0)
      {
        if t in mask {
          var data := memory.Access(Request(true, i, t, ctx.regs[t]));
          if i.opcode.LW? {
            ctx.regs := ctx.regs[t := ctx.regs[t][i.rd := data]];
          }
        }
      }
    }

    method ExecuteBranch(ctx: WarpContext, i: Instruction, mask: Mask)
      requires simt.Valid() && mask == simt.Value(ctx.warpId).mask
      modifies simt
      ensures simt.Valid()
      ensures simt.Value(ctx.warpId) == Branch(old(simt.Value(ctx.warpId)), Conditions(i, ctx.regs, mask))
      ensures forall t :: t in simt.Value(ctx.warpId).mask <==> t in mask && t < THREADS_PER_WARP && ctx.regs[t][i.rs1] == 0
    {
      hide Branch;
      ghost var before := simt.Value(ctx.warpId);
      var conditions := new bool[THREADS_PER_WARP];
      for t := 0 to THREADS_PER_WARP
        modifies conditions
        invariant forall u :: 0 <= u < t ==> conditions[u] == (u in mask && ctx.regs[u][i.rs1] == 0)
      {
        conditions[t] := t in mask && ctx.regs[t][i.rs1] == 0;
      }
      assert conditions[..] == Conditions(i, ctx.regs, mask);
      simt.HandleBranch(ctx.warpId, conditions);
      MaskAfter(Bounded(before, false), conditions[..]);
      Lanes.Sides(mask, ctx.regs, i.rs1, conditions[..]);
    }

    method ExecuteInstruction(ctx: WarpContext, i: Instruction)
      requires simt.Valid()
      modifies ctx`regs, memory, simt
      ensures simt.Valid()
      ensures Value(ctx) == GoldenExec(ops, memory.env, i, old(Value(ctx)))
    {
      hide ArithLanes, MemLanes, Branch, Join, Conditions;
      var mask := simt.GetActiveMask(ctx.warpId);
      if i.opcode.VBRANCH? {
        ExecuteBranch(ctx, i, mask);
      } else if i.opcode.VJOIN? {
        simt.HandleJoin(ctx.warpId);
      } else if i.opcode.IsMemory() {
        ExecuteMemOp(ctx, i, mask);
      } else {
        ExecuteArith(ctx, i, mask);
      }
    }

    /** `executeWarp`: the mask is reset, the stack is not. */
    method ExecuteWarp(ctx: WarpContext) returns (stop: Stop)
      requires simt.Valid()
      modifies ctx, memory, simt
      ensures simt.Valid()
      ensures var start := old(Value(ctx));
              var run := GoldenRun(ops, memory.env, ctx.program, old(ctx.pc),
                                   start.(simt := start.simt.(mask := AllLanes(THREADS_PER_WARP))));
              stop == run.0 && ctx.pc == run.1 && Value(ctx) == run.2
    {
      hide GoldenExec, AllLanes;
      simt.InitializeWarp(ctx.warpId, THREADS_PER_WARP);
      ghost var start, from := Value(ctx), ctx.pc;
      while ctx.pc < |ctx.program|
        invariant simt.Valid()
        invariant GoldenRun(ops, memory.env, ctx.program, from, start)
                  == GoldenRun(ops, memory.env, ctx.program, ctx.pc, Value(ctx))
      {
        var i := ctx.program[ctx.pc];
        if i.opcode.HALT? {
          break;
        }
        if i.opcode.BARRIER? {
          ctx.pc := ctx.pc + 1;
          return Stalled(i.imm);
        }
        ExecuteInstruction(ctx, i);
        ctx.pc := ctx.pc + 1;
      }
      stop := Complete;
    }
  }
}
