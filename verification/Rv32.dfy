// The binary mode of the golden compute unit: `executeRV32` and `step`
// (models/systemc/src/compute_unit/compute_unit.cpp:313-545), for the
// instructions the kernel compiler emits. Branch and jump targets are positions
// in the code; memory and floating point are parameters.

module Rv32 {
  import opened Isa
  import opened Integers
  import Division
  import Warp

  /** What the machine is built on. `load` and `store` are the memory hierarchy. */
  datatype Platform<!M> = Platform(
    load: (M, bv64) -> Word, store: (M, bv64, Word) -> M,
    fadd: (Word, Word) -> Word, fsub: (Word, Word) -> Word, fmul: (Word, Word) -> Word, fdiv: (Word, Word) -> Word,
    fmadd: (Word, Word, Word) -> Word,
    feq: (Word, Word) -> bool, flt: (Word, Word) -> bool, fle: (Word, Word) -> bool,
    toFloat: Word -> Word, toInt: Word -> Word)

  datatype ROp = ADD | SUB | MUL | AND | OR | XOR | SLL | SRL | SRA | SLT | SLTU | DIV | DIVU | REM | REMU
  datatype IOp = ADDI | SLTI | SLTIU | XORI | SLLI | SRLI | SRAI
  datatype FOp = FADD | FSUB | FMUL | FDIV
  datatype FCmp = FEQ | FLT | FLE

  datatype Rv =
    | R(rop: ROp, rd: Reg, rs1: Reg, rs2: Reg)
    | I(iop: IOp, rd: Reg, rs1: Reg, imm: Word)
    | LUI(rd: Reg, imm: Word)
    | LW(rd: Reg, rs1: Reg, imm: Word)
    | SW(rs2: Reg, rs1: Reg, imm: Word)
    | FLW(fd: Reg, rs1: Reg, imm: Word)
    | FSW(fs2: Reg, rs1: Reg, imm: Word)
    | JAL(target: nat)
    | BEQZ(rs1: Reg, target: nat)
    | BNEZ(rs1: Reg, target: nat)
    | RET
    | FENCE
    | BAR_SYNC(id: nat)
    | UNKNOWN
    | F(fop: FOp, fd: Reg, fs1: Reg, fs2: Reg)
    | FMADD(fd: Reg, fs1: Reg, fs2: Reg, fs3: Reg)
    | FC(cmp: FCmp, rd: Reg, fs1: Reg, fs2: Reg)
    | FCVT_W_S(rd: Reg, fs1: Reg)
    | FCVT_S_W(fd: Reg, rs1: Reg)
    | FMV_W_X(fd: Reg, rs1: Reg)

  type File = r: seq<Word> | |r| == 32 witness seq(32, _ => 0)

  datatype State<!M> = State(r: File, f: File, mem: M, barriers: seq<nat>, pc: nat, halted: bool)

  // x0 reads as 0 whatever is written to it.
  function SetReg(r: File, rd: Reg, v: Word): (s: File)
  {
    if rd == 0 then r else r[rd := v]
  }

  function Flag(b: bool): Word { if b then 1 else 0 }

  function ShiftRightOne(a: Word): Word { a >> 1 }
  function ShiftArithOne(a: Word): Word { (a >> 1) | (a & 0x8000_0000) }
  function ShiftRight(a: Word, k: nat): Word { if k == 0 then a else ShiftRightOne(ShiftRight(a, k - 1)) }
  function ShiftArith(a: Word, k: nat): Word { if k == 0 then a else ShiftArithOne(ShiftArith(a, k - 1)) }

  /** The low five bits as a shift count. */
  function Count(w: Word): (k: nat)
    ensures k < 32
  {
    ((w & 0x1F) as bv5) as int
  }

  const MINUS_ONE: Word := 0xFFFF_FFFF

  function RValue(op: ROp, a: Word, b: Word): Word {
    if op.ADD? then Sum(a, b)
    else if op.SUB? then Difference(a, b)
    else if op.MUL? then Product(a, b)
    else if op.AND? then BitAnd(a, b)
    else if op.OR? then BitOr(a, b)
    else if op.XOR? then BitXor(a, b)
    else if op.SLL? then ShiftLeft(a, Count(b))
    else if op.SRL? then ShiftRight(a, Count(b))
    else if op.SRA? then ShiftArith(a, Count(b))
    else if op.SLT? then Flag(SignedLess(a, b))
    else if op.SLTU? then Flag(Below(a, b))
    else if op.DIV? then (if b == 0 then MINUS_ONE else Division.DivideWords(true, a, b))
    else if op.DIVU? then (if b == 0 then MINUS_ONE else Division.DivideWords(false, a, b))
    else if op.REM? then (if b == 0 then a else Division.ModuloWords(true, a, b))
    else (if b == 0 then a else Division.ModuloWords(false, a, b))
  }

  function IValue(op: IOp, a: Word, imm: Word): Word {
    if op.ADDI? then Sum(a, imm)
    else if op.SLTI? then Flag(SignedLess(a, imm))
    else if op.SLTIU? then Flag(Below(a, imm))
    else if op.XORI? then BitXor(a, imm)
    else if op.SLLI? then ShiftLeft(a, Count(imm))
    else if op.SRLI? then ShiftRight(a, Count(imm))
    else ShiftArith(a, Count(imm))
  }

  function FValue<M>(p: Platform<M>, op: FOp, a: Word, b: Word): Word {
    if op.FADD? then p.fadd(a, b) else if op.FSUB? then p.fsub(a, b) else if op.FMUL? then p.fmul(a, b) else p.fdiv(a, b)
  }

  function FTest<M>(p: Platform<M>, cmp: FCmp, a: Word, b: Word): bool {
    if cmp.FEQ? then p.feq(a, b) else if cmp.FLT? then p.flt(a, b) else p.fle(a, b)
  }

  /** Addresses are the signed 32-bit sum widened to 64 bits. */
  function Address(base: Word, offset: Word): bv64 { Warp.SignExtend64(Sum(base, offset)) }

  predicate Straight(i: Rv) {
    !i.JAL? && !i.BEQZ? && !i.BNEZ? && !i.RET?
  }

  /** An instruction that falls through, apart from the pc. */
  function Effect<M>(p: Platform<M>, i: Rv, t: State<M>): State<M> {
    if i.R? then t.(r := SetReg(t.r, i.rd, RValue(i.rop, t.r[i.rs1], t.r[i.rs2])))
    else if i.I? then t.(r := SetReg(t.r, i.rd, IValue(i.iop, t.r[i.rs1], i.imm)))
    else if i.LUI? then t.(r := SetReg(t.r, i.rd, i.imm))
    else if i.LW? then t.(r := SetReg(t.r, i.rd, p.load(t.mem, Address(t.r[i.rs1], i.imm))))
    else if i.SW? then t.(mem := p.store(t.mem, Address(t.r[i.rs1], i.imm), t.r[i.rs2]))
    else if i.FLW? then t.(f := t.f[i.fd := p.load(t.mem, Address(t.r[i.rs1], i.imm))])
    else if i.FSW? then t.(mem := p.store(t.mem, Address(t.r[i.rs1], i.imm), t.f[i.fs2]))
    else if i.BAR_SYNC? then t.(barriers := t.barriers + [i.id])
    else if i.F? then t.(f := t.f[i.fd := FValue(p, i.fop, t.f[i.fs1], t.f[i.fs2])])
    else if i.FMADD? then t.(f := t.f[i.fd := p.fmadd(t.f[i.fs1], t.f[i.fs2], t.f[i.fs3])])
    else if i.FC? then t.(r := SetReg(t.r, i.rd, Flag(FTest(p, i.cmp, t.f[i.fs1], t.f[i.fs2]))))
    else if i.FCVT_W_S? then t.(r := SetReg(t.r, i.rd, p.toInt(t.f[i.fs1])))
    else if i.FCVT_S_W? then t.(f := t.f[i.fd := p.toFloat(t.r[i.rs1])])
    else if i.FMV_W_X? then t.(f := t.f[i.fd := t.r[i.rs1]])
    else t
  }

  /** The return address the host plants; `ret` to it halts. */
  const SENTINEL: Word := 1
  const RA: Reg := 1
  const GP: Reg := 3

  function Step<M>(p: Platform<M>, code: seq<Rv>, t: State<M>): State<M> {
    if t.halted || t.pc >= |code| then t
    else
      var i := code[t.pc];
      if i.JAL? then t.(pc := i.target)
      else if i.BEQZ? then t.(pc := if t.r[i.rs1] == 0 then i.target else t.pc + 1)
      else if i.BNEZ? then t.(pc := if t.r[i.rs1] != 0 then i.target else t.pc + 1)
      else if i.RET? then (if BitAnd(t.r[RA], 0xFFFF_FFFE) == BitAnd(SENTINEL, 0xFFFF_FFFE) then t.(halted := true) else t.(pc := |code|))
      else Effect(p, i, t).(pc := t.pc + 1)
  }

  function Steps<M>(p: Platform<M>, code: seq<Rv>, t: State<M>, n: nat): State<M>
    decreases n
  {
    if n == 0 then t else Steps(p, code, Step(p, code, t), n - 1)
  }

  function Effects<M>(p: Platform<M>, block: seq<Rv>, t: State<M>): State<M>
    decreases |block|
  {
    if block == [] then t else Effects(p, block[1..], Effect(p, block[0], t))
  }

  /** Running a straight block in place is its effects and a pc past its end. */
  lemma {:induction false} RunStraight<M>(p: Platform<M>, code: seq<Rv>, t: State<M>, block: seq<Rv>)
    requires !t.halted && t.pc + |block| <= |code| && code[t.pc..t.pc + |block|] == block
    requires forall k :: 0 <= k < |block| ==> Straight(block[k])
    ensures Steps(p, code, t, |block|) == Effects(p, block, t).(pc := t.pc + |block|)
    ensures !Effects(p, block, t).halted && Effects(p, block, t).pc == t.pc
    decreases |block|
  {
    hide Effect;
    if block != [] {
      assert code[t.pc] == block[0];
      EffectKeeps(p, block[0], t, t.pc + 1);
      var u := Step(p, code, t);
      assert code[u.pc..u.pc + |block| - 1] == block[1..];
      RunStraight(p, code, u, block[1..]);
      EffectsAnywhere(p, block[1..], Effect(p, block[0], t), t.pc + 1);
    }
  }

  lemma EffectKeeps<M>(p: Platform<M>, i: Rv, t: State<M>, pc: nat)
    ensures Effect(p, i, t).pc == t.pc && Effect(p, i, t).halted == t.halted
    ensures Effect(p, i, t.(pc := pc)) == Effect(p, i, t).(pc := pc)
  {
    hide RValue, IValue, FValue, FTest, Address, SetReg;
  }

  // Effects do not depend on the pc.
  lemma {:induction false} EffectsAnywhere<M>(p: Platform<M>, block: seq<Rv>, t: State<M>, pc: nat)
    ensures Effects(p, block, t.(pc := pc)) == Effects(p, block, t).(pc := pc)
    ensures Effects(p, block, t).pc == t.pc && Effects(p, block, t).halted == t.halted
    decreases |block|
  {
    hide Effect;
    if block != [] {
      EffectKeeps(p, block[0], t, pc);
      EffectsAnywhere(p, block[1..], Effect(p, block[0], t), pc);
    }
  }
}
