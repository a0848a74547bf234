// What one instruction does to each lane, in plain words: the reference both
// execution models are held against.

module Lanes {
  import opened Isa
  import opened Simt
  import opened Codec
  import opened Warp

  // ----- Branches -----

  /** After a branch the lanes that were active and hold 0 are active; the others that
      were are pushed as one entry, if there are any. */
  ghost predicate Parts(before: State, after: State, regs: RegFile, rs1: Reg) {
    && (forall t :: t in after.mask <==> t in before.mask && t < THREADS_PER_WARP && regs[t][rs1] == 0)
    && if exists t :: t in before.mask && t < THREADS_PER_WARP && regs[t][rs1] != 0 then
         |after.stack| == |before.stack| + 1 && after.stack[..|before.stack|] == before.stack
         && (forall t :: t in after.stack[|before.stack|] <==> t in before.mask && t < THREADS_PER_WARP && regs[t][rs1] != 0)
       else after.stack == before.stack
  }

  /** A branch on which the active lanes disagree is a divergence, and the pushed lanes wait. */
  ghost predicate Counted(before: State, after: State, regs: RegFile, rs1: Reg, pushed: Mask) {
    if (exists t :: t in before.mask && t < THREADS_PER_WARP && regs[t][rs1] == 0)
       && exists t :: t in before.mask && t < THREADS_PER_WARP && regs[t][rs1] != 0
    then after.events == before.events + 1 && after.wasted == before.wasted + |pushed|
    else after.events == before.events && after.wasted == before.wasted
  }

  lemma GoldenBranchSides(ops: Ops, env: Env, i: Instruction, g: Golden)
    requires i.opcode.VBRANCH?
    ensures var h := GoldenExec(ops, env, i, g);
            && h.d == g.d && Parts(g.simt, h.simt, g.d.regs, i.rs1)
            && Counted(g.simt, h.simt, g.d.regs, i.rs1, if |h.simt.stack| > |g.simt.stack| then h.simt.stack[|g.simt.stack|] else {})
  {
    hide MemLanes, ArithLanes;
    Sides(g.simt.mask, g.d.regs, i.rs1, Conditions(i, g.d.regs, g.simt.mask));
  }

  lemma Sides(mask: Mask, regs: RegFile, rs1: Reg, cond: seq<bool>)
    requires |cond| == THREADS_PER_WARP
    requires forall t :: 0 <= t < THREADS_PER_WARP ==> cond[t] == (t in mask && regs[t][rs1] == 0)
    ensures forall t :: t in Taken(mask, cond) <==> t in mask && t < THREADS_PER_WARP && regs[t][rs1] == 0
    ensures forall t :: t in NotTaken(mask, cond) <==> t in mask && t < THREADS_PER_WARP && regs[t][rs1] != 0
    ensures NotTaken(mask, cond) == {} <==> !exists t :: t in mask && t < THREADS_PER_WARP && regs[t][rs1] != 0
    ensures Taken(mask, cond) == {} <==> !exists t :: t in mask && t < THREADS_PER_WARP && regs[t][rs1] == 0
  {
    if t :| t in mask && t < THREADS_PER_WARP && regs[t][rs1] != 0 {
      assert t in NotTaken(mask, cond);
    }
    if t :| t in mask && t < THREADS_PER_WARP && regs[t][rs1] == 0 {
      assert t in Taken(mask, cond);
    }
  }

  /** The hardware's branch does the same while the stack has room; without room the
      lanes to be pushed are lost and the overflow flag is up. */
  lemma HlsBranchSides(ops: Ops, env: Env, vectors: bool, i: Instruction, h: Hls)
    requires i.opcode.VBRANCH? && |h.simt.s.stack| <= MAX_DIVERGENCE_DEPTH
    ensures var k, regs := HlsExec(ops, env, vectors, i, h), h.d.regs;
            && k.d == h.d
            && (forall t :: t in k.simt.s.mask <==> t in h.simt.s.mask && t < THREADS_PER_WARP && regs[t][i.rs1] == 0)
            && if |h.simt.s.stack| == MAX_DIVERGENCE_DEPTH
                  && exists t :: t in h.simt.s.mask && t < THREADS_PER_WARP && regs[t][i.rs1] != 0
               then k.simt.overflow && k.simt.s.stack == h.simt.s.stack
               else Parts(h.simt.s, k.simt.s, regs, i.rs1) && k.simt.overflow == h.simt.overflow
  {
    hide MemLanes, ArithLanes;
    Sides(h.simt.s.mask, h.d.regs, i.rs1, Conditions(i, h.d.regs, h.simt.s.mask));
  }

  /** A join wakes the lanes of the last entry, and nothing else changes. */
  lemma GoldenJoinWakes(ops: Ops, env: Env, i: Instruction, g: Golden)
    requires i.opcode.VJOIN?
    ensures var h, n := GoldenExec(ops, env, i, g), |g.simt.stack|;
            && h.d == g.d
            && if n == 0 then h.simt == g.simt
               else h.simt.stack == g.simt.stack[..n - 1]
                    && forall t :: t in h.simt.mask <==> t in g.simt.mask || t in g.simt.stack[n - 1]
  {
    hide MemLanes, ArithLanes;
  }

  lemma HlsJoinWakes(ops: Ops, env: Env, vectors: bool, i: Instruction, h: Hls)
    requires i.opcode.VJOIN?
    ensures var k, n := HlsExec(ops, env, vectors, i, h), |h.simt.s.stack|;
            && k.d == h.d
            && if n == 0 then k.simt == h.simt
               else k.simt.s.stack == h.simt.s.stack[..n - 1] && k.simt.overflow == h.simt.overflow
                    && forall t :: t in k.simt.s.mask <==> t in h.simt.s.mask || t in h.simt.s.stack[n - 1]
  {
    hide MemLanes, ArithLanes;
  }

  /** A join right after a branch undoes it, if the branch pushed; if it did not, the
      join wakes an outer entry. */
  lemma BranchThenJoin(s: State, regs: RegFile, i: Instruction)
    requires i.opcode.VBRANCH? && forall t :: t in s.mask ==> t < THREADS_PER_WARP
    ensures var b := Branch(s, Conditions(i, regs, s.mask));
            if exists t :: t in s.mask && t < THREADS_PER_WARP && regs[t][i.rs1] != 0
            then Join(b).mask == s.mask && Join(b).stack == s.stack
            else b.mask == s.mask && b.stack == s.stack
  {
    var cond := Conditions(i, regs, s.mask);
    Sides(s.mask, regs, i.rs1, cond);
    var b := Branch(s, cond);
    if NotTaken(s.mask, cond) != {} {
      assert forall t :: t in Taken(s.mask, cond) + NotTaken(s.mask, cond) <==> t in s.mask;
      assert b.stack[|b.stack| - 1] == NotTaken(s.mask, cond);
    }
  }

  // ----- Arithmetic -----

  /** The value an instruction is to leave in register rd of a lane that holds a in
      rs1, b in rs2 and c in rd; nothing if it writes none. */
  datatype Written = Nothing | Value(w: Word)

  function Reference(ops: Ops, i: Instruction, a: Word, b: Word, c: Word): Written {
    match i.opcode
    case ADD | VADD => Value(Sum(a, b))
    case SUB | VSUB => Value(Difference(a, b))
    case AND => Value(BitAnd(a, b))
    case OR => Value(BitOr(a, b))
    case XOR => Value(BitXor(a, b))
    case SLT => Value(if SignedLess(a, b) then 1 else 0)
    case ADDI => Value(Sum(a, i.imm))
    case LUI => Value(Upper(i.imm))
    case FADD | VFADD => Value(ops.fadd(a, b))
    case FMUL | VFMUL => Value(ops.fmul(a, b))
    case VFSUB => Value(ops.fsub(a, b))
    case VMUL => Value(ops.mul(a, b))
    case VFMADD => Value(Sum(ops.mul(a, b), c))
    case VFFMADD => Value(ops.fadd(ops.fmul(a, b), c))
    case BEQ | BNE | JAL | JALR => Nothing
    case LW | SW | VBRANCH | VJOIN | BARRIER | HALT => Nothing
  }

  predicate Arithmetic(i: Instruction) {
    !i.opcode.IsMemory() && !i.opcode.VBRANCH? && !i.opcode.VJOIN? && !i.opcode.BARRIER? && !i.opcode.HALT?
  }

  /** Lane t of the file after an arithmetic instruction is as the reference has it. */
  predicate LaneAs(ops: Ops, i: Instruction, mask: Mask, before: RegFile, after: RegFile, t: nat)
    requires t < THREADS_PER_WARP
  {
    var r := before[t];
    var v := Reference(ops, i, r[i.rs1], r[i.rs2], r[i.rd]);
    after[t] == if t in mask && v.Value? then r[i.rd := v.w] else r
  }

  lemma ScalarReference(ops: Ops, i: Instruction, r: Lane)
    requires Arithmetic(i) && !i.opcode.IsVector()
    ensures var v := Reference(ops, i, r[i.rs1], r[i.rs2], r[i.rd]); ArithLane(ops, i, r) == if v.Value? then r[i.rd := v.w] else r
  {
    hide Sum, Difference, BitAnd, BitOr, BitXor, SignedLess, Upper;
  }

  /** The signed order goes by the sign first. */
  lemma SignedOrder(a: Word, b: Word)
    ensures SignedLess(a, b) == if (a ^ b) & 0x8000_0000 == 0 then a < b else a & 0x8000_0000 != 0
  {
  }

  lemma BitLaws(a: Word)
    ensures BitAnd(a, a) == a && BitAnd(a, 0) == 0 && BitOr(a, a) == a && BitOr(a, 0) == a
    ensures BitXor(a, a) == 0 && BitXor(a, 0) == a
  {
  }

  lemma VectorReference(ops: Ops, i: Instruction, r: Lane)
    requires i.opcode.IsVector()
    ensures var v := Reference(ops, i, r[i.rs1], r[i.rs2], r[i.rd]); ArithLane(ops, i, r) == if v.Value? then r[i.rd := v.w] else r
  {
    hide Sum, Difference, BitAnd, BitOr, BitXor, SignedLess, Upper;
  }

  /** What arithmetic does in the golden unit: every active lane gets the reference's
      value, the others and everything else stay. */
  lemma GoldenArithmetic(ops: Ops, env: Env, i: Instruction, g: Golden)
    requires Arithmetic(i)
    ensures var h := GoldenExec(ops, env, i, g);
            h.simt == g.simt && h.d.trace == g.d.trace
            && forall t :: 0 <= t < THREADS_PER_WARP ==> LaneAs(ops, i, g.simt.mask, g.d.regs, h.d.regs, t)
  {
    hide ArithLane, Reference, MemLanes, Branch, Join;
    forall t | 0 <= t < THREADS_PER_WARP ensures LaneAs(ops, i, g.simt.mask, g.d.regs, GoldenExec(ops, env, i, g).d.regs, t) {
      LaneReference(ops, i, g.d.regs[t]);
    }
  }

  /** And in the hardware, which ignores vector arithmetic if it is built without. */
  lemma HlsArithmetic(ops: Ops, env: Env, vectors: bool, i: Instruction, h: Hls)
    requires Arithmetic(i)
    ensures var k, mask := HlsExec(ops, env, vectors, i, h), if i.opcode.IsVector() && !vectors then {} else h.simt.s.mask;
            k.simt == h.simt && k.d.trace == h.d.trace
            && forall t :: 0 <= t < THREADS_PER_WARP ==> LaneAs(ops, i, mask, h.d.regs, k.d.regs, t)
  {
    hide ArithLane, Reference, MemLanes, BoundedBranch, BoundedJoin;
    var k, mask := HlsExec(ops, env, vectors, i, h), if i.opcode.IsVector() && !vectors then {} else h.simt.s.mask;
    forall t | 0 <= t < THREADS_PER_WARP ensures LaneAs(ops, i, mask, h.d.regs, k.d.regs, t) {
      LaneReference(ops, i, h.d.regs[t]);
    }
  }

  lemma LaneReference(ops: Ops, i: Instruction, r: Lane)
    requires Arithmetic(i)
    ensures var v := Reference(ops, i, r[i.rs1], r[i.rs2], r[i.rd]); ArithLane(ops, i, r) == if v.Value? then r[i.rd := v.w] else r
  {
    hide ArithLane, Reference;
    if i.opcode.IsVector() {
      VectorReference(ops, i, r);
    } else {
      ScalarReference(ops, i, r);
    }
  }

  // ----- Memory -----

  /** How many lanes of the mask come before lane t. */
  function Rank(mask: Mask, t: nat): nat { if t == 0 then 0 else Rank(mask, t - 1) + if t - 1 in mask then 1 else 0 }

  /** The offset on 64 bits, with its sign carried up. */
  function Carried64(offset: Word): bv64 {
    if offset & 0x8000_0000 == 0 then offset as bv64 else (offset as bv64) | 0xFFFF_FFFF_0000_0000
  }

  function Plus64(x: bv64, y: bv64): bv64 { x + y }
  function Plus32(x: Word, y: Word): Word { x + y }

  /** The sum on 64 bits or on 32. */
  function Sought(wide: bool, base: Word, offset: Word): bv64 {
    if wide then Plus64(base as bv64, Carried64(offset)) else Plus32(base, offset) as bv64
  }

  lemma SumsArePlus(x: bv64, y: bv64, a: Word, b: Word)
    ensures Sum64(x, y) == Plus64(x, y) && Sum(a, b) == Plus32(a, b)
  {
  }

  lemma OffsetCarried(offset: Word)
    ensures SignExtend64(offset) == Carried64(offset)
  {
  }

  lemma AddressSought(wide: bool, base: Word, offset: Word)
    ensures Address(wide, base, offset) == Sought(wide, base, offset)
  {
    hide SignExtend64, Carried64, Sum64, Plus64, Sum, Plus32;
    OffsetCarried(offset);
    SumsArePlus(base as bv64, Carried64(offset), base, offset);
  }

  /** The request lane t makes, and what it gets: base and signed offset added on 64 bits
      or on 32, stores with their data, loads into rd of that lane only. */
  ghost predicate RequestAs(wide: bool, env: Env, i: Instruction, mask: Mask, before: Data, after: Data, t: nat)
    requires t < THREADS_PER_WARP
  {
    var at, r := |before.trace| + Rank(mask, t), before.regs[t];
    if t !in mask then after.regs[t] == r
    else
      && at < |after.trace|
      && after.trace[at] == MemOp(t, Sought(wide, r[i.rs1], i.imm), i.opcode.SW?, if i.opcode.SW? then r[i.rs2] else 0)
      && after.regs[t] == if i.opcode.LW? then r[i.rd := env(after.trace[..at + 1])] else r
  }

  /** Active lanes make their requests in ascending order, one each. */
  lemma {:induction false} LanesAsk(wide: bool, env: Env, i: Instruction, d: Data, e: Data, mask: Mask, t: nat)
    requires i.opcode.IsMemory() && t <= THREADS_PER_WARP
    requires |e.trace| == |d.trace| + Rank(mask, t) && d.trace <= e.trace
    requires forall u :: 0 <= u < t ==> RequestAs(wide, env, i, mask, d, e, u)
    requires forall u :: t <= u < THREADS_PER_WARP ==> e.regs[u] == d.regs[u]
    ensures var f := MemLanes(wide, env, i, e, mask, t);
            && d.trace <= f.trace && |f.trace| == |d.trace| + Rank(mask, THREADS_PER_WARP)
            && forall u :: 0 <= u < THREADS_PER_WARP ==> RequestAs(wide, env, i, mask, d, f, u)
    decreases THREADS_PER_WARP - t
  {
    hide Address, Sought;
    if t < THREADS_PER_WARP {
      var next := if t in mask then MemLane(wide, env, i, t, e) else e;
      forall u | 0 <= u < t ensures RequestAs(wide, env, i, mask, d, next, u) {
        assert RequestAs(wide, env, i, mask, d, e, u);
        RankRises(mask, u, t);
        StillAsked(wide, env, i, mask, d, e, next, u);
      }
      assert RequestAs(wide, env, i, mask, d, next, t) by { AsksNow(wide, env, i, mask, d, e, t); }
      LanesAsk(wide, env, i, d, next, mask, t + 1);
    }
  }

  lemma AsksNow(wide: bool, env: Env, i: Instruction, mask: Mask, d: Data, e: Data, t: nat)
    requires i.opcode.IsMemory() && t < THREADS_PER_WARP && |e.trace| == |d.trace| + Rank(mask, t) && e.regs[t] == d.regs[t]
    ensures RequestAs(wide, env, i, mask, d, if t in mask then MemLane(wide, env, i, t, e) else e, t)
  {
    hide Address, Sought;
    if t in mask {
      AddressSought(wide, e.regs[t][i.rs1], i.imm);
      var f := MemLane(wide, env, i, t, e);
      assert f.trace[..|d.trace| + Rank(mask, t) + 1] == f.trace;
    }
  }

  lemma {:induction false} RankRises(mask: Mask, u: nat, t: nat)
    requires u < t
    ensures Rank(mask, u) + (if u in mask then 1 else 0) <= Rank(mask, t)
    decreases t
  {
    if u + 1 < t {
      RankRises(mask, u, t - 1);
    }
  }

  // A request stays where it is when others follow.
  lemma StillAsked(wide: bool, env: Env, i: Instruction, mask: Mask, d: Data, e: Data, f: Data, u: nat)
    requires u < THREADS_PER_WARP && RequestAs(wide, env, i, mask, d, e, u) && e.trace <= f.trace && f.regs[u] == e.regs[u]
    ensures RequestAs(wide, env, i, mask, d, f, u)
  {
    hide Address, Sought;
    var at := |d.trace| + Rank(mask, u);
    if u in mask {
      assert f.trace[..at + 1] == e.trace[..at + 1];
    }
  }

  lemma GoldenMemory(ops: Ops, env: Env, i: Instruction, g: Golden)
    requires i.opcode.IsMemory()
    ensures var h := GoldenExec(ops, env, i, g);
            && h.simt == g.simt && |h.d.trace| == |g.d.trace| + Rank(g.simt.mask, THREADS_PER_WARP) && g.d.trace <= h.d.trace
            && forall t :: 0 <= t < THREADS_PER_WARP ==> RequestAs(true, env, i, g.simt.mask, g.d, h.d, t)
  {
    hide ArithLanes, Address, Sought;
    LanesAsk(true, env, i, g.d, g.d, g.simt.mask, 0);
  }

  lemma HlsMemory(ops: Ops, env: Env, vectors: bool, i: Instruction, h: Hls)
    requires i.opcode.IsMemory()
    ensures var k, mask := HlsExec(ops, env, vectors, i, h), h.simt.s.mask;
            && k.simt == h.simt && |k.d.trace| == |h.d.trace| + Rank(mask, THREADS_PER_WARP) && h.d.trace <= k.d.trace
            && forall t :: 0 <= t < THREADS_PER_WARP ==> RequestAs(false, env, i, mask, h.d, k.d, t)
  {
    hide ArithLanes, Address, Sought;
    LanesAsk(false, env, i, h.d, h.d, h.simt.s.mask, 0);
  }

  // ----- Where runs stop -----

  predicate Stops(i: Instruction) { i.opcode.BARRIER? || i.opcode.HALT? }

  /** A golden run ends at the first barrier, with that barrier's id and the pc behind it,
      at the first halt, or at the end of the program. */
  lemma {:induction false} GoldenStops(ops: Ops, env: Env, program: seq<Instruction>, pc: nat, g: Golden)
    requires pc <= |program|
    ensures var (stop, next, _) := GoldenRun(ops, env, program, pc, g);
            match stop
            case Stalled(id) =>
              pc < next <= |program| && program[next - 1].opcode.BARRIER? && program[next - 1].imm == id
              && forall k :: pc <= k < next - 1 ==> !Stops(program[k])
            case Complete =>
              pc <= next <= |program| && (next < |program| ==> program[next].opcode.HALT?)
              && forall k :: pc <= k < next ==> !Stops(program[k])
    decreases |program| - pc
  {
    hide GoldenExec;
    if pc < |program| && !Stops(program[pc]) {
      GoldenStops(ops, env, program, pc + 1, GoldenExec(ops, env, program[pc], g));
    }
  }

  /** So does a hardware run, on what its words decode to. */
  lemma {:induction false} HlsStops(ops: Ops, env: Env, vectors: bool, words: seq<Word>, pc: nat, h: Hls)
    requires pc <= |words|
    ensures var (stop, next, _) := HlsRun(ops, env, vectors, words, pc, h);
            match stop
            case Stalled(id) =>
              pc < next <= |words| && Decode(words[next - 1]).opcode.BARRIER? && Decode(words[next - 1]).imm == id
              && forall k :: pc <= k < next - 1 ==> !Stops(Decode(words[k]))
            case Complete =>
              pc <= next <= |words| && (next < |words| ==> Decode(words[next]).opcode.HALT?)
              && forall k :: pc <= k < next ==> !Stops(Decode(words[k]))
    decreases |words| - pc
  {
    hide HlsExec, Decode;
    if pc < |words| && !Stops(Decode(words[pc])) {
      HlsStops(ops, env, vectors, words, pc + 1, HlsExec(ops, env, vectors, Decode(words[pc]), h));
    }
  }
}
