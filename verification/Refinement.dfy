// The HLS pipeline on encoded, expanded words against the golden compute unit
// on logical instructions.

/** `executeOneWarp` refines `executeWarp`. */
module Refinement {
  import opened Isa
  import opened Simt
  import opened Codec
  import opened Warp

  // ----- The program store -----

  /** The words a loader writes for a program, expanding where one word is not enough. */
  function Assembled(program: seq<Instruction>): seq<Word> {
    if program == [] then []
    else Assembled(program[..|program| - 1]) + Expand(program[|program| - 1])
  }

  /** Where instruction k starts. */
  function Pos(program: seq<Instruction>, k: nat): nat
    requires k <= |program|
  {
    |Assembled(program[..k])|
  }

  lemma {:induction false} AssembledPrefix(program: seq<Instruction>, k: nat)
    requires k <= |program|
    ensures Assembled(program[..k]) <= Assembled(program)
    decreases |program|
  {
    hide Expand;
    if k < |program| {
      var shorter := program[..|program| - 1];
      AssembledPrefix(shorter, k);
      assert shorter[..k] == program[..k];
    } else {
      assert program[..k] == program;
    }
  }

  lemma WordsAt(program: seq<Instruction>, k: nat)
    requires k < |program|
    ensures Pos(program, k + 1) == Pos(program, k) + |Expand(program[k])| <= |Assembled(program)|
    ensures Assembled(program)[Pos(program, k)..Pos(program, k + 1)] == Expand(program[k])
  {
    hide Expand;
    AssembledPrefix(program, k + 1);
    var upTo := program[..k + 1];
    assert upTo[..|upTo| - 1] == program[..k];
  }

  // ----- 64-bit and 32-bit addresses -----

  function LowHalf(x: bv64): Word { (x & 0xFFFF_FFFF) as bv32 }

  lemma LowBits(x: bv64, y: bv64)
    ensures ((x + y) & 0xFFFF_FFFF) as bv32 == ((x & 0xFFFF_FFFF) as bv32) + ((y & 0xFFFF_FFFF) as bv32)
  {
  }

  lemma LowSum(x: bv64, y: bv64)
    ensures LowHalf(Sum64(x, y)) == Sum(LowHalf(x), LowHalf(y))
  {
    LowBits(x, y);
  }

  lemma LowZeroExtended(a: Word)
    ensures LowHalf(a as bv64) == a
  {
  }

  lemma LowSigned(imm: Word)
    ensures LowHalf((imm as bv64) | 0xFFFF_FFFF_0000_0000) == imm
  {
  }

  lemma LowSignExtended(imm: Word)
    ensures LowHalf(SignExtend64(imm)) == imm
  {
    hide LowHalf;
    LowSigned(imm);
    LowZeroExtended(imm);
  }

  lemma LowHalfExact(s: bv64, w: Word)
    requires LowHalf(s) == w
    ensures s == w as bv64 <==> s < 0x1_0000_0000
  {
  }

  // ----- When one golden step has a faithful image -----

  /** Immediates the one-word formats can carry. */
  predicate Encodable(i: Instruction) {
    match i.opcode
    case ADDI => i.rs1 == 0 || Fits12(i.imm)
    case LW | SW | BARRIER => Fits12(i.imm)
    case _ => true
  }

  ghost predicate StepOk(vectors: bool, i: Instruction, regs: RegFile, mask: Mask, depth: nat) {
    && Encodable(i)
    && (NeedsExpansion(i) ==> forall t <- mask | t < THREADS_PER_WARP :: regs[t][0] == 0)
    && (i.opcode.IsMemory() ==>
        forall t <- mask | t < THREADS_PER_WARP :: Address(true, regs[t][i.rs1], i.imm) < 0x1_0000_0000)
    && (i.opcode.VBRANCH? && Pushes(mask, Conditions(i, regs, mask)) ==> depth < MAX_DIVERGENCE_DEPTH)
    && (i.opcode.IsVector() ==> vectors)
  }

  /** Entries this dispatch has on the stack after the instruction. */
  function DepthAfter(i: Instruction, regs: RegFile, mask: Mask, depth: nat): nat {
    if i.opcode.VBRANCH? && Pushes(mask, Conditions(i, regs, mask)) then depth + 1
    else if i.opcode.VJOIN? && depth > 0 then depth - 1
    else depth
  }

  // ----- What a word carries is what execution reads -----

  lemma AddiLane(ops: Ops, i: Instruction, r: Lane)
    requires i.opcode.ADDI?
    ensures ArithLane(ops, i, r) == r[i.rd := Sum(r[i.rs1], i.imm)]
  {
  }

  lemma LuiLane(ops: Ops, i: Instruction, r: Lane)
    requires i.opcode.LUI?
    ensures ArithLane(ops, i, r) == r[i.rd := Upper(i.imm)]
  {
  }

  lemma CarriedOperands(i: Instruction)
    ensures Carried(i).opcode == i.opcode
    ensures i.opcode.VBRANCH? ==> Carried(i).rs1 == i.rs1
    ensures !i.opcode.ADDI? && !i.opcode.LUI? && (i.opcode.IsVector() || AluWrites(i.opcode)) ==>
              Carried(i).rd == i.rd && Carried(i).rs1 == i.rs1 && Carried(i).rs2 == i.rs2
  {
  }

  lemma CarriedAddi(i: Instruction)
    requires i.opcode.ADDI? && Fits12(i.imm)
    ensures Carried(i) == Instruction(ADDI, i.rd, i.rs1, 0, i.imm)
  {
    Extend12Exact(i.imm);
  }

  lemma CarriedArith(ops: Ops, i: Instruction, r: Lane)
    requires Encodable(i) && !NeedsExpansion(i) && !i.opcode.IsMemory()
    ensures ArithLane(ops, Carried(i), r) == ArithLane(ops, i, r)
  {
    if i.opcode.LUI? {
    } else if i.opcode.ADDI? {
      CarriedAddi(i);
      AddiLane(ops, i, r);
      AddiLane(ops, Carried(i), r);
    } else {
      CarriedOperands(i);
    }
  }

  lemma CarriedArithLanes(ops: Ops, i: Instruction, regs: RegFile, mask: Mask)
    requires Encodable(i) && !NeedsExpansion(i) && !i.opcode.IsMemory()
    ensures ArithLanes(ops, Carried(i), regs, mask) == ArithLanes(ops, i, regs, mask)
  {
    forall t | 0 <= t < THREADS_PER_WARP
      ensures ArithLanes(ops, Carried(i), regs, mask)[t] == ArithLanes(ops, i, regs, mask)[t]
    {
      CarriedArith(ops, i, regs[t]);
    }
  }

  lemma CarriedMemory(i: Instruction)
    requires i.opcode.IsMemory() && Fits12(i.imm)
    ensures var c := Carried(i);
            c.opcode == i.opcode && c.rs1 == i.rs1 && c.imm == i.imm
            && (i.opcode.SW? ==> c.rs2 == i.rs2) && (i.opcode.LW? ==> c.rd == i.rd)
  {
    Extend12Exact(i.imm);
  }

  /** The golden unit adds on 64 bits, the hardware on 32: they make the same request
      exactly when the golden address is below 4 GiB. */
  lemma RequestExact(i: Instruction, t: nat, r: Lane)
    requires i.opcode.IsMemory() && Fits12(i.imm)
    ensures Request(true, i, t, r) == Request(false, Carried(i), t, r) <==> Address(true, r[i.rs1], i.imm) < 0x1_0000_0000
  {
    hide Carried, SignExtend64, LowHalf, Sum64, Sum;
    CarriedMemory(i);
    var base := r[i.rs1];
    LowSum(base as bv64, SignExtend64(i.imm));
    LowSignExtended(i.imm);
    LowZeroExtended(base);
    LowHalfExact(WideSum(base, i.imm), Sum(base, i.imm));
  }

  lemma {:induction false} TraceGrows(wide: bool, env: Env, i: Instruction, d: Data, mask: Mask, t: nat)
    requires t <= THREADS_PER_WARP
    ensures d.trace <= MemLanes(wide, env, i, d, mask, t).trace
    decreases THREADS_PER_WARP - t
  {
    hide Request;
    if t < THREADS_PER_WARP {
      TraceGrows(wide, env, i, if t in mask then MemLane(wide, env, i, t, d) else d, mask, t + 1);
    }
  }

  // If the two requests of lane t differ, so do the traces.
  lemma RequestsPart(env: Env, i: Instruction, j: Instruction, d: Data, mask: Mask, t: nat)
    requires t < THREADS_PER_WARP && t in mask
    requires Request(true, i, t, d.regs[t]) != Request(false, j, t, d.regs[t])
    ensures MemLanes(true, env, i, d, mask, t).trace != MemLanes(false, env, j, d, mask, t).trace
  {
    hide Request;
    var g, h := MemLane(true, env, i, t, d), MemLane(false, env, j, t, d);
    TraceGrows(true, env, i, g, mask, t + 1);
    TraceGrows(false, env, j, h, mask, t + 1);
    assert g.trace[|d.trace|] != h.trace[|d.trace|];
  }

  lemma MemLaneAgrees(env: Env, i: Instruction, t: nat, d: Data)
    requires i.opcode.IsMemory() && Fits12(i.imm) && t < THREADS_PER_WARP
    requires Request(true, i, t, d.regs[t]) == Request(false, Carried(i), t, d.regs[t])
    ensures MemLane(true, env, i, t, d) == MemLane(false, env, Carried(i), t, d)
    ensures forall u :: 0 <= u < THREADS_PER_WARP && u != t ==> MemLane(true, env, i, t, d).regs[u] == d.regs[u]
  {
    hide Request, Carried;
    CarriedMemory(i);
  }

  /** Lane by lane, the hardware's 32-bit requests and their effects are the golden
      64-bit ones exactly when no active lane's address reaches 4 GiB. */
  lemma {:induction false} MemExact(env: Env, i: Instruction, d: Data, mask: Mask, t: nat)
    requires i.opcode.IsMemory() && Fits12(i.imm) && t <= THREADS_PER_WARP
    ensures MemLanes(true, env, i, d, mask, t) == MemLanes(false, env, Carried(i), d, mask, t)
            <==> forall u <- mask | t <= u < THREADS_PER_WARP :: Address(true, d.regs[u][i.rs1], i.imm) < 0x1_0000_0000
    decreases THREADS_PER_WARP - t
  {
    hide Request, Carried, Address, MemLane, Fits12;
    if t < THREADS_PER_WARP {
      if t !in mask {
        MemExact(env, i, d, mask, t + 1);
      } else {
        RequestExact(i, t, d.regs[t]);
        if Address(true, d.regs[t][i.rs1], i.imm) < 0x1_0000_0000 {
          MemLaneAgrees(env, i, t, d);
          MemExact(env, i, MemLane(true, env, i, t, d), mask, t + 1);
        } else {
          RequestsPart(env, i, Carried(i), d, mask, t);
        }
      }
    }
  }

  // ----- The two-word form -----

  lemma ExpansionLane(ops: Ops, i: Instruction, r: Lane)
    requires NeedsExpansion(i)
    ensures ArithLane(ops, AddiHalf(i), ArithLane(ops, LuiHalf(i), r)) == r[i.rd := i.imm]
    ensures ArithLane(ops, i, r) == r[i.rd := Sum(r[0], i.imm)]
  {
    hide ArithLane, Sum, Upper, Hi20, Lo12, Fits12;
    var mid := r[i.rd := Upper(Hi20(i.imm))];
    LuiLane(ops, LuiHalf(i), r);
    AddiLane(ops, AddiHalf(i), mid);
    AddiLane(ops, i, r);
    LiSplit(i.imm);
    assert Sum(mid[i.rd], Lo12(i.imm)) == i.imm;
  }

  lemma HalvesSurvive(i: Instruction)
    ensures Carried(LuiHalf(i)) == LuiHalf(i) && Carried(AddiHalf(i)) == AddiHalf(i)
  {
    LiSplit(i.imm);
    Extend12Exact(Lo12(i.imm));
  }

  // The two forms differ in one lane by the content of register 0.
  lemma ExpansionLaneExact(ops: Ops, i: Instruction, r: Lane)
    requires NeedsExpansion(i)
    ensures ArithLane(ops, AddiHalf(i), ArithLane(ops, LuiHalf(i), r)) == ArithLane(ops, i, r) <==> r[0] == 0
  {
    ExpansionLane(ops, i, r);
    Compare(r, i.rd, i.imm, Sum(r[0], i.imm));
    SumOfZero(i.imm);
  }

  lemma Compare(r: Lane, k: nat, a: Word, b: Word)
    requires k < REGS_PER_THREAD
    ensures r[k := a] == r[k := b] <==> a == b
  {
    assert r[k := a][k] == a && r[k := b][k] == b;
  }

  lemma SumOfZero(imm: Word)
    ensures Sum(0, imm) == imm
  {
  }

  /** LUI followed by ADDI does what the one logical ADDI does exactly when
      register 0 of every active lane holds zero. */
  lemma ExpansionExact(ops: Ops, i: Instruction, regs: RegFile, mask: Mask)
    requires NeedsExpansion(i)
    ensures ArithLanes(ops, AddiHalf(i), ArithLanes(ops, LuiHalf(i), regs, mask), mask) == ArithLanes(ops, i, regs, mask)
            <==> forall t <- mask | t < THREADS_PER_WARP :: regs[t][0] == 0
  {
    var two := ArithLanes(ops, AddiHalf(i), ArithLanes(ops, LuiHalf(i), regs, mask), mask);
    var one := ArithLanes(ops, i, regs, mask);
    forall t | 0 <= t < THREADS_PER_WARP
      ensures t !in mask ==> two[t] == one[t]
      ensures t in mask ==> (two[t] == one[t] <==> regs[t][0] == 0)
    {
      ExpansionLaneExact(ops, i, regs[t]);
    }
  }

  // ----- One golden step and its image -----

  /** Same registers and memory traffic, controllers in step over `stale`. */
  ghost predicate InStep(g: Golden, h: Hls, stale: seq<Mask>, e0: nat, w0: nat, depth: nat) {
    && g.d == h.d
    && Parity(g.simt, h.simt, stale, e0, w0, AllLanes(THREADS_PER_WARP))
    && Within(stale, AllLanes(THREADS_PER_WARP))
    && depth == |h.simt.s.stack|
  }

  lemma MaskWithin(g: Golden, h: Hls, stale: seq<Mask>, e0: nat, w0: nat, depth: nat)
    requires InStep(g, h, stale, e0, w0, depth)
    ensures forall t <- g.simt.mask :: t < THREADS_PER_WARP
  {
    FullIffEmpty(h.simt.s.mask, h.simt.s.stack, AllLanes(THREADS_PER_WARP));
  }

  lemma BranchStep(ops: Ops, env: Env, vectors: bool, i: Instruction, g: Golden, h: Hls,
                   stale: seq<Mask>, e0: nat, w0: nat, depth: nat)
    requires InStep(g, h, stale, e0, w0, depth) && StepOk(vectors, i, g.d.regs, g.simt.mask, depth)
    requires i.opcode.VBRANCH?
    ensures InStep(GoldenExec(ops, env, i, g), HlsExec(ops, env, vectors, Carried(i), h), stale, e0, w0,
                   DepthAfter(i, g.d.regs, g.simt.mask, depth))
  {
    hide Carried, Branch, BoundedBranch, Partition;
    CarriedOperands(i);
    MaskWithin(g, h, stale, e0, w0, depth);
    var cond := Conditions(i, g.d.regs, g.simt.mask);
    assert Conditions(Carried(i), h.d.regs, h.simt.s.mask) == cond;
    BranchInStep(g.simt, h.simt, stale, e0, w0, AllLanes(THREADS_PER_WARP), cond);
    BranchDepth(h.simt, cond);
  }

  lemma JoinStep(ops: Ops, env: Env, vectors: bool, i: Instruction, g: Golden, h: Hls,
                 stale: seq<Mask>, e0: nat, w0: nat, depth: nat) returns (stale': seq<Mask>)
    requires InStep(g, h, stale, e0, w0, depth) && i.opcode.VJOIN?
    ensures InStep(GoldenExec(ops, env, i, g), HlsExec(ops, env, vectors, Carried(i), h), stale', e0, w0,
                   DepthAfter(i, g.d.regs, g.simt.mask, depth))
  {
    hide Carried, Partition;
    CarriedOperands(i);
    stale' := JoinParity(g.simt, h.simt, stale, e0, w0, AllLanes(THREADS_PER_WARP));
  }

  lemma MemoryStep(ops: Ops, env: Env, vectors: bool, i: Instruction, g: Golden, h: Hls,
                   stale: seq<Mask>, e0: nat, w0: nat, depth: nat)
    requires InStep(g, h, stale, e0, w0, depth) && StepOk(vectors, i, g.d.regs, g.simt.mask, depth)
    requires i.opcode.IsMemory()
    ensures InStep(GoldenExec(ops, env, i, g), HlsExec(ops, env, vectors, Carried(i), h), stale, e0, w0,
                   DepthAfter(i, g.d.regs, g.simt.mask, depth))
  {
    hide Carried, Partition, MemLanes, Address;
    CarriedOperands(i);
    MemExact(env, i, g.d, g.simt.mask, 0);
  }

  lemma ArithStep(ops: Ops, env: Env, vectors: bool, i: Instruction, g: Golden, h: Hls,
                  stale: seq<Mask>, e0: nat, w0: nat, depth: nat)
    requires InStep(g, h, stale, e0, w0, depth) && StepOk(vectors, i, g.d.regs, g.simt.mask, depth)
    requires !NeedsExpansion(i) && !i.opcode.IsMemory() && !i.opcode.VBRANCH? && !i.opcode.VJOIN?
    ensures InStep(GoldenExec(ops, env, i, g), HlsExec(ops, env, vectors, Carried(i), h), stale, e0, w0,
                   DepthAfter(i, g.d.regs, g.simt.mask, depth))
  {
    hide Carried, Partition, ArithLanes;
    CarriedOperands(i);
    CarriedArithLanes(ops, i, g.d.regs, g.simt.mask);
  }

  /** An instruction of one word keeps the two models in step. */
  lemma OneWordStep(ops: Ops, env: Env, vectors: bool, i: Instruction, g: Golden, h: Hls,
                    stale: seq<Mask>, e0: nat, w0: nat, depth: nat) returns (stale': seq<Mask>)
    requires InStep(g, h, stale, e0, w0, depth) && StepOk(vectors, i, g.d.regs, g.simt.mask, depth)
    requires !NeedsExpansion(i)
    ensures InStep(GoldenExec(ops, env, i, g), HlsExec(ops, env, vectors, Carried(i), h), stale', e0, w0,
                   DepthAfter(i, g.d.regs, g.simt.mask, depth))
  {
    hide *;
    stale' := stale;
    if i.opcode.VBRANCH? {
      BranchStep(ops, env, vectors, i, g, h, stale, e0, w0, depth);
    } else if i.opcode.VJOIN? {
      stale' := JoinStep(ops, env, vectors, i, g, h, stale, e0, w0, depth);
    } else if i.opcode.IsMemory() {
      MemoryStep(ops, env, vectors, i, g, h, stale, e0, w0, depth);
    } else {
      ArithStep(ops, env, vectors, i, g, h, stale, e0, w0, depth);
    }
  }

  /** The two words of a large immediate load together do one golden step. */
  lemma TwoWordStep(ops: Ops, env: Env, vectors: bool, i: Instruction, g: Golden, h: Hls,
                    stale: seq<Mask>, e0: nat, w0: nat, depth: nat)
    requires InStep(g, h, stale, e0, w0, depth) && StepOk(vectors, i, g.d.regs, g.simt.mask, depth)
    requires NeedsExpansion(i)
    ensures var h1 := HlsExec(ops, env, vectors, LuiHalf(i), h);
            InStep(GoldenExec(ops, env, i, g), HlsExec(ops, env, vectors, AddiHalf(i), h1), stale, e0, w0,
                   DepthAfter(i, g.d.regs, g.simt.mask, depth))
  {
    hide Partition, ArithLanes;
    ExpansionExact(ops, i, g.d.regs, g.simt.mask);
  }

  // ----- One dispatch -----

  /** Every instruction the golden run executes from `pc` has a faithful image. */
  ghost predicate RunOk(ops: Ops, env: Env, vectors: bool, program: seq<Instruction>, pc: nat, g: Golden, depth: nat)
    decreases |program| - pc
  {
    if pc >= |program| || program[pc].opcode.HALT? then true
    else if program[pc].opcode.BARRIER? then Encodable(program[pc])
    else
      && StepOk(vectors, program[pc], g.d.regs, g.simt.mask, depth)
      && RunOk(ops, env, vectors, program, pc + 1, GoldenExec(ops, env, program[pc], g),
               DepthAfter(program[pc], g.d.regs, g.simt.mask, depth))
  }

  lemma FetchOne(program: seq<Instruction>, k: nat)
    requires k < |program| && !NeedsExpansion(program[k])
    ensures Pos(program, k + 1) == Pos(program, k) + 1 <= |Assembled(program)|
    ensures Decode(Assembled(program)[Pos(program, k)]) == Carried(program[k])
  {
    hide Assembled, Pos, Encode, Decode, Carried;
    WordsAt(program, k);
    var words, at := Assembled(program), Pos(program, k);
    assert words[at] == words[at..at + 1][0];
    RoundTrip(program[k]);
  }

  lemma FetchTwo(program: seq<Instruction>, k: nat)
    requires k < |program| && NeedsExpansion(program[k])
    ensures Pos(program, k + 1) == Pos(program, k) + 2 <= |Assembled(program)|
    ensures Decode(Assembled(program)[Pos(program, k)]) == LuiHalf(program[k])
    ensures Decode(Assembled(program)[Pos(program, k) + 1]) == AddiHalf(program[k])
  {
    hide Assembled, Pos, Encode, Decode, Carried, LuiHalf, AddiHalf, NeedsExpansion;
    WordsAt(program, k);
    var words, at := Assembled(program), Pos(program, k);
    assert words[at] == words[at..at + 2][0] && words[at + 1] == words[at..at + 2][1];
    RoundTrip(LuiHalf(program[k]));
    RoundTrip(AddiHalf(program[k]));
    HalvesSurvive(program[k]);
  }

  lemma AtEnd(program: seq<Instruction>)
    ensures Pos(program, |program|) == |Assembled(program)|
  {
    assert program[..|program|] == program;
  }

  // What the fetch loop does with one decoded word.
  lemma HlsRunStep(ops: Ops, env: Env, vectors: bool, words: seq<Word>, at: nat, h: Hls, i: Instruction)
    requires at < |words| && Decode(words[at]) == i
    ensures HlsRun(ops, env, vectors, words, at, h) ==
            if i.opcode.HALT? then (Complete, at, h)
            else if i.opcode.BARRIER? then (Stalled(i.imm), at + 1, h)
            else HlsRun(ops, env, vectors, words, at + 1, HlsExec(ops, env, vectors, i, h))
  {
    hide Decode, HlsExec;
  }

  /** One dispatch of the port does what one golden dispatch does: it stops for
      the same reason at the image of the golden pc, with the same registers and
      the same memory requests in the same order. */
  lemma {:induction false} RunAgrees(ops: Ops, env: Env, vectors: bool, program: seq<Instruction>, pc: nat, g: Golden, h: Hls,
                                     stale: seq<Mask>, e0: nat, w0: nat, depth: nat)
    returns (stale': seq<Mask>, depth': nat)
    requires pc <= |program| && InStep(g, h, stale, e0, w0, depth)
    requires RunOk(ops, env, vectors, program, pc, g, depth)
    ensures var gr := GoldenRun(ops, env, program, pc, g);
            var hr := HlsRun(ops, env, vectors, Assembled(program), Pos(program, pc), h);
            && hr.0 == gr.0
            && gr.1 <= |program| && hr.1 == Pos(program, gr.1)
            && InStep(gr.2, hr.2, stale', e0, w0, depth')
    decreases |program| - pc
  {
    hide Assembled, Pos, InStep, StepOk, NeedsExpansion, GoldenExec, HlsExec, DepthAfter, Decode, Carried;
    stale', depth' := stale, depth;
    var words := Assembled(program);
    if pc == |program| {
      AtEnd(program);
    } else {
      var i := program[pc];
      if i.opcode.HALT? || i.opcode.BARRIER? {
        PlainStop(i);
        FetchOne(program, pc);
        HlsRunStep(ops, env, vectors, words, Pos(program, pc), h, Carried(i));
      } else {
        var g1, d1 := GoldenExec(ops, env, i, g), DepthAfter(i, g.d.regs, g.simt.mask, depth);
        var h1 := Image(ops, env, vectors, i, h);
        var stale1 := ImageInStep(ops, env, vectors, i, g, h, stale, e0, w0, depth);
        ImageRun(ops, env, vectors, program, pc, h);
        stale', depth' := RunAgrees(ops, env, vectors, program, pc + 1, g1, h1, stale1, e0, w0, d1);
      }
    }
  }

  lemma PlainStop(i: Instruction)
    requires i.opcode.HALT? || i.opcode.BARRIER?
    ensures !NeedsExpansion(i) && Carried(i).opcode == i.opcode
    ensures i.opcode.BARRIER? && Encodable(i) ==> Carried(i).imm == i.imm
  {
    Extend12Exact(i.imm);
  }

  /** What the words of one instruction do together. */
  function Image(ops: Ops, env: Env, vectors: bool, i: Instruction, h: Hls): Hls {
    if NeedsExpansion(i) then HlsExec(ops, env, vectors, AddiHalf(i), HlsExec(ops, env, vectors, LuiHalf(i), h))
    else HlsExec(ops, env, vectors, Carried(i), h)
  }

  lemma ImageInStep(ops: Ops, env: Env, vectors: bool, i: Instruction, g: Golden, h: Hls,
                    stale: seq<Mask>, e0: nat, w0: nat, depth: nat) returns (stale': seq<Mask>)
    requires InStep(g, h, stale, e0, w0, depth) && StepOk(vectors, i, g.d.regs, g.simt.mask, depth)
    ensures InStep(GoldenExec(ops, env, i, g), Image(ops, env, vectors, i, h), stale', e0, w0,
                   DepthAfter(i, g.d.regs, g.simt.mask, depth))
  {
    hide InStep, StepOk, NeedsExpansion, GoldenExec, HlsExec, DepthAfter, Carried;
    stale' := stale;
    if NeedsExpansion(i) {
      TwoWordStep(ops, env, vectors, i, g, h, stale, e0, w0, depth);
    } else {
      stale' := OneWordStep(ops, env, vectors, i, g, h, stale, e0, w0, depth);
    }
  }

  lemma ImageRun(ops: Ops, env: Env, vectors: bool, program: seq<Instruction>, pc: nat, h: Hls)
    requires pc < |program| && !program[pc].opcode.HALT? && !program[pc].opcode.BARRIER?
    ensures HlsRun(ops, env, vectors, Assembled(program), Pos(program, pc), h)
            == HlsRun(ops, env, vectors, Assembled(program), Pos(program, pc + 1), Image(ops, env, vectors, program[pc], h))
  {
    hide Assembled, Pos, HlsExec, Decode, HlsRun, NeedsExpansion;
    var i, words, at := program[pc], Assembled(program), Pos(program, pc);
    if NeedsExpansion(i) {
      FetchTwo(program, pc);
      HlsRunStep(ops, env, vectors, words, at, h, LuiHalf(i));
      HlsRunStep(ops, env, vectors, words, at + 1, HlsExec(ops, env, vectors, LuiHalf(i), h), AddiHalf(i));
    } else {
      FetchOne(program, pc);
      CarriedOperands(i);
      HlsRunStep(ops, env, vectors, words, at, h, Carried(i));
    }
  }

  // ----- A warp's whole life: any number of stalls and resumes -----

  datatype Outcome = Outcome(stop: Stop, pc: nat, regs: RegFile, trace: seq<MemOp>)

  /** The golden warp dispatched once per environment until it completes. Its
      controller keeps whatever stack the previous dispatch left. */
  function GoldenSession(ops: Ops, envs: seq<Env>, program: seq<Instruction>, pc: nat, regs: RegFile, simt: State): seq<Outcome>
    decreases |envs|
  {
    if envs == [] then []
    else
      var (stop, next, g) := GoldenRun(ops, envs[0], program, pc, GoldenStart(regs, simt));
      [Outcome(stop, next, g.d.regs, g.d.trace)]
      + if stop.Complete? then [] else GoldenSession(ops, envs[1..], program, next, g.d.regs, g.simt)
  }

  function GoldenStart(regs: RegFile, simt: State): Golden {
    Golden(Data(regs, []), simt.(mask := AllLanes(THREADS_PER_WARP)))
  }

  /** The port's warp: a fresh controller for every dispatch. */
  function HlsSession(ops: Ops, envs: seq<Env>, vectors: bool, words: seq<Word>, pc: nat, regs: RegFile): seq<Outcome>
    decreases |envs|
  {
    if envs == [] then []
    else
      var (stop, next, h) := HlsRun(ops, envs[0], vectors, words, pc, HlsStart(regs));
      [Outcome(stop, next, h.d.regs, h.d.trace)]
      + if stop.Complete? then [] else HlsSession(ops, envs[1..], vectors, words, next, h.d.regs)
  }

  function HlsStart(regs: RegFile): Hls {
    Hls(Data(regs, []), Bounded(State(AllLanes(THREADS_PER_WARP), [], 0, 0), false))
  }

  ghost predicate SessionOk(ops: Ops, envs: seq<Env>, vectors: bool, program: seq<Instruction>, pc: nat, regs: RegFile, simt: State)
    decreases |envs|
  {
    if envs == [] then true
    else
      && RunOk(ops, envs[0], vectors, program, pc, GoldenStart(regs, simt), 0)
      && var (stop, next, g) := GoldenRun(ops, envs[0], program, pc, GoldenStart(regs, simt));
         stop.Complete? || SessionOk(ops, envs[1..], vectors, program, next, g.d.regs, g.simt)
  }

  lemma StartInStep(regs: RegFile, simt: State)
    requires Within(simt.stack, AllLanes(THREADS_PER_WARP))
    ensures InStep(GoldenStart(regs, simt), HlsStart(regs), simt.stack, simt.events, simt.wasted, 0)
  {
  }

  // Whatever is on the golden stack when a dispatch ends is a legal stale stack for the next.
  lemma EndWithin(g: Golden, h: Hls, stale: seq<Mask>, e0: nat, w0: nat, depth: nat)
    requires InStep(g, h, stale, e0, w0, depth)
    ensures Within(g.simt.stack, AllLanes(THREADS_PER_WARP))
  {
    EntriesWithin(h.simt.s.mask, h.simt.s.stack, AllLanes(THREADS_PER_WARP));
  }

  ghost predicate SameOutcome(program: seq<Instruction>, g: Outcome, h: Outcome) {
    && h.stop == g.stop && h.regs == g.regs && h.trace == g.trace
    && g.pc <= |program| && h.pc == Pos(program, g.pc)
  }

  /** The port refines the golden compute unit over every sequence of dispatches:
      same stop and barrier id, same registers, same memory requests in order, and
      a resume point that is the image of the golden pc. */
  lemma {:induction false} PortRefinement(ops: Ops, envs: seq<Env>, vectors: bool, program: seq<Instruction>, pc: nat,
                                          regs: RegFile, simt: State)
    requires pc <= |program| && Within(simt.stack, AllLanes(THREADS_PER_WARP))
    requires SessionOk(ops, envs, vectors, program, pc, regs, simt)
    ensures var gs := GoldenSession(ops, envs, program, pc, regs, simt);
            var hs := HlsSession(ops, envs, vectors, Assembled(program), Pos(program, pc), regs);
            |hs| == |gs| && forall k :: 0 <= k < |gs| ==> SameOutcome(program, gs[k], hs[k])
    decreases |envs|
  {
    hide Assembled, Pos, InStep, RunOk, GoldenRun, HlsRun, GoldenStart, HlsStart, Within;
    if envs != [] {
      var g, h := GoldenStart(regs, simt), HlsStart(regs);
      StartInStep(regs, simt);
      var stale, depth := RunAgrees(ops, envs[0], vectors, program, pc, g, h, simt.stack, simt.events, simt.wasted, 0);
      var (stop, next, g') := GoldenRun(ops, envs[0], program, pc, g);
      var (_, _, h') := HlsRun(ops, envs[0], vectors, Assembled(program), Pos(program, pc), h);
      SameData(g', h', stale, simt.events, simt.wasted, depth);
      EndWithin(g', h', stale, simt.events, simt.wasted, depth);
      if !stop.Complete? {
        PortRefinement(ops, envs[1..], vectors, program, next, g'.d.regs, g'.simt);
      }
    }
  }

  lemma SameData(g: Golden, h: Hls, stale: seq<Mask>, e0: nat, w0: nat, depth: nat)
    requires InStep(g, h, stale, e0, w0, depth)
    ensures g.d == h.d
  {
  }

  /** The fetch loop sees exactly the assembled words when they fit the program store. */
  lemma StoreHoldsProgram(store: seq<Word>, program: seq<Instruction>)
    requires |store| == MAX_PROGRAM_LEN && Assembled(program) <= store
    ensures Fetched(store, |Assembled(program)|) == Assembled(program)
  {
  }
}
