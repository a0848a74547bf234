// From kernels to RV32 code: driver/src/ptx_transpiler/rv_emitter.cpp. Registers
// are allocated lazily from two pools; each line becomes a short block of
// instructions, pseudo-instructions in their standard expansion.

module Emitter {
  import Isa
  import opened Integers
  import opened Rv32
  import opened Ptx

  type Reg = Isa.Reg

  // ----- Register pools -----

  const INT_POOL := 18
  const FLOAT_POOL := 20
  const T6: Reg := 31

  /** t0-t5, s0-s11. */
  function IntPool(k: nat): Reg
    requires k < INT_POOL
  {
    if k < 3 then 5 + k else if k < 6 then 25 + k else if k < 8 then 2 + k else 10 + k
  }

  /** fa0-fa7, ft0-ft11. */
  function FloatPool(k: nat): Reg
    requires k < FLOAT_POOL
  {
    if k < 8 then 10 + k else if k < 16 then k - 8 else 12 + k
  }

  /** Pool members are distinct, and never x0, ra, gp, t6 or an argument register. */
  lemma PoolsAreSafe(j: nat, k: nat)
    ensures j < INT_POOL ==> IntPool(j) !in {0, 1, 3, 31} && !(10 <= IntPool(j) <= 17)
    ensures j < k < INT_POOL ==> IntPool(j) != IntPool(k)
    ensures j < k < FLOAT_POOL ==> FloatPool(j) != FloatPool(k)
  {
  }

  // ----- Allocation -----

  /** `ireg_map_`, `freg_map_` as pool positions, and the two counters. */
  datatype Alloc = Alloc(i: map<Name, nat>, f: map<Name, nat>, nextI: nat, nextF: nat)

  const NO_REGISTERS := Alloc(map[], map[], 0, 0)

  function TakeInt(a: Alloc, n: Name): Alloc {
    if n in a.i then a else a.(i := a.i[n := a.nextI], nextI := a.nextI + 1)
  }

  function TakeFloat(a: Alloc, n: Name): Alloc {
    if n in a.f then a else a.(f := a.f[n := a.nextF], nextF := a.nextF + 1)
  }

  function TakeInts(a: Alloc, names: seq<Name>): Alloc
    decreases |names|
  {
    if names == [] then a else TakeInts(TakeInt(a, names[0]), names[1..])
  }

  function TakeFloats(a: Alloc, names: seq<Name>): Alloc
    decreases |names|
  {
    if names == [] then a else TakeFloats(TakeFloat(a, names[0]), names[1..])
  }

  // Special registers of the context block; a move from any other is dropped.
  const SPECIALS := 9

  function OperandName(o: Operand): seq<Name> { if o.Register? then [o.name] else [] }
  function BaseName(base: Name): seq<Name> { if base == "" then [] else [base] }

  /** Integer registers a line asks for, in the order it asks. */
  function IntNames(n: Instr): seq<Name> {
    if n.LdParam? then (if n.float then [] else [n.d])
    else if n.Ld? then BaseName(n.base) + (if n.float then [] else [n.d])
    else if n.St? then BaseName(n.base) + (if n.float then [] else [n.v])
    else if n.MovSpecial? then (if n.special < SPECIALS then [n.d] else [])
    else if n.Mov? then OperandName(n.a) + [n.d]
    else if n.Cvt? then [n.d, n.ra]
    else if n.Setp? then [n.d, n.ra] + OperandName(n.b)
    else if n.SetpFloat? then [n.d]
    else if n.Alu? then [n.d] + OperandName(n.a) + OperandName(n.b)
    else if n.Mad? then [n.d, n.ra, n.rb, n.rc]
    else if n.Not? || n.Neg? then [n.d, n.ra]
    else if n.IntToFloat? then [n.ra]
    else if n.FloatToInt? then [n.d]
    else if n.BraIf? then [n.pred]
    else []
  }

  function FloatNames(n: Instr): seq<Name> {
    if n.LdParam? || n.Ld? then (if n.float then [n.d] else [])
    else if n.St? then (if n.float then [n.v] else [])
    else if n.MovFloat? then [n.d, n.fa]
    else if n.SetpFloat? then [n.fa, n.fb]
    else if n.Float? then [n.d, n.fa, n.fb]
    else if n.Fma? then [n.d, n.fa, n.fb, n.fc]
    else if n.IntToFloat? then [n.d]
    else if n.FloatToInt? then [n.fa]
    else []
  }

  function AllocLine(a: Alloc, n: Instr): Alloc { TakeFloats(TakeInts(a, IntNames(n)), FloatNames(n)) }

  function AllocAll(a: Alloc, body: seq<Instr>): Alloc
    decreases |body|
  {
    if body == [] then a else AllocAll(AllocLine(a, body[0]), body[1..])
  }

  /** Positions are below the counters, and no two names share one. */
  predicate Sound(a: Alloc) {
    && (forall n :: n in a.i ==> a.i[n] < a.nextI)
    && (forall m, n :: m in a.i && n in a.i && a.i[m] == a.i[n] ==> m == n)
    && (forall n :: n in a.f ==> a.f[n] < a.nextF)
    && forall m, n :: m in a.f && n in a.f && a.f[m] == a.f[n] ==> m == n
  }

  /** b has everything a has, at the same place. */
  predicate Grows(a: Alloc, b: Alloc) {
    && (forall n :: n in a.i ==> n in b.i && b.i[n] == a.i[n])
    && (forall n :: n in a.f ==> n in b.f && b.f[n] == a.f[n])
    && a.nextI <= b.nextI && a.nextF <= b.nextF
  }

  predicate Has(a: Alloc, n: Instr) {
    && (forall k :: 0 <= k < |IntNames(n)| ==> IntNames(n)[k] in a.i)
    && forall k :: 0 <= k < |FloatNames(n)| ==> FloatNames(n)[k] in a.f
  }

  /** The pools sufficed. */
  predicate Fitting(a: Alloc) { a.nextI <= INT_POOL && a.nextF <= FLOAT_POOL }

  lemma {:induction false} TakeIntsGrows(a: Alloc, names: seq<Name>)
    requires Sound(a)
    ensures var b := TakeInts(a, names); Sound(b) && Grows(a, b) && forall k :: 0 <= k < |names| ==> names[k] in b.i
    decreases |names|
  {
    if names != [] {
      TakeIntsGrows(TakeInt(a, names[0]), names[1..]);
      forall k | 0 <= k < |names| ensures names[k] in TakeInts(a, names).i {
        if k > 0 {
          assert names[k] == names[1..][k - 1];
        }
      }
    }
  }

  lemma {:induction false} TakeFloatsGrows(a: Alloc, names: seq<Name>)
    requires Sound(a)
    ensures var b := TakeFloats(a, names); Sound(b) && Grows(a, b) && forall k :: 0 <= k < |names| ==> names[k] in b.f
    decreases |names|
  {
    if names != [] {
      TakeFloatsGrows(TakeFloat(a, names[0]), names[1..]);
      forall k | 0 <= k < |names| ensures names[k] in TakeFloats(a, names).f {
        if k > 0 {
          assert names[k] == names[1..][k - 1];
        }
      }
    }
  }

  lemma LineGrows(a: Alloc, n: Instr)
    requires Sound(a)
    ensures Sound(AllocLine(a, n)) && Grows(a, AllocLine(a, n)) && Has(AllocLine(a, n), n)
  {
    hide Sound, TakeInts, TakeFloats, IntNames, FloatNames;
    var b := TakeInts(a, IntNames(n));
    TakeIntsGrows(a, IntNames(n));
    TakeFloatsGrows(b, FloatNames(n));
  }

  /** Allocation only grows and stays one-to-one; at the end every name of the
      kernel has the register each line saw. */
  lemma {:induction false} AllocationGrows(a: Alloc, body: seq<Instr>)
    requires Sound(a)
    ensures var b := AllocAll(a, body); Sound(b) && Grows(a, b) && forall k :: 0 <= k < |body| ==> Has(b, body[k])
    decreases |body|
  {
    hide Sound, Grows, Has, AllocLine;
    if body == [] {
      GrowsSelf(a);
    } else {
      var c := AllocLine(a, body[0]);
      LineGrows(a, body[0]);
      AllocationGrows(c, body[1..]);
      var b := AllocAll(a, body);
      GrowsThrough(a, c, b);
      HasStays(c, b, body[0]);
      forall k | 0 <= k < |body| ensures Has(b, body[k]) {
        if k > 0 {
          assert body[k] == body[1..][k - 1];
        }
      }
    }
  }

  lemma GrowsSelf(a: Alloc)
    ensures Grows(a, a)
  {
  }

  lemma GrowsThrough(a: Alloc, b: Alloc, c: Alloc)
    requires Grows(a, b) && Grows(b, c)
    ensures Grows(a, c)
  {
  }

  lemma HasStays(a: Alloc, b: Alloc, n: Instr)
    requires Grows(a, b) && Has(a, n)
    ensures Has(b, n)
  {
    hide IntNames, FloatNames;
  }

  /** Register of a name; x0 for a name without one, as in a dead operand. */
  function Ir(a: Alloc, n: Name): Reg { if n in a.i && a.i[n] < INT_POOL then IntPool(a.i[n]) else 0 }
  function Fr(a: Alloc, n: Name): Reg { if n in a.f && a.f[n] < FLOAT_POOL then FloatPool(a.f[n]) else 0 }

  // ----- Code -----

  predicate Fits(v: int) { -2048 <= v <= 2047 }

  /** `li`: one instruction for 12-bit values, two for others. */
  function Li(rd: Reg, v: int): seq<Rv> {
    if Fits(v) then [I(ADDI, rd, 0, ToWord(v))]
    else
      var hi := (v + 2048) / 4096;
      [LUI(rd, ToWord(hi * 4096)), I(ADDI, rd, rd, ToWord(v - hi * 4096))]
  }

  function Mv(rd: Reg, rs: Reg): Rv { I(ADDI, rd, rs, 0) }
  function Seqz(rd: Reg, rs: Reg): Rv { I(SLTIU, rd, rs, 1) }
  function Snez(rd: Reg, rs: Reg): Rv { R(SLTU, rd, 0, rs) }
  function Invert(rd: Reg): Rv { I(XORI, rd, rd, 1) }

  // `rarg`: an operand that is not a register reads as x0.
  function Source(a: Alloc, o: Operand): Reg { if o.Register? then Ir(a, o.name) else 0 }

  function SetpLines(a: Alloc, cmp: Cmp, signed: bool, p: Reg, ra: Reg, b: Operand): seq<Rv> {
    var less, lessI := if signed then SLT else SLTU, if signed then SLTI else SLTIU;
    if b.Immediate? then
      if cmp.LT? then [I(lessI, p, ra, ToWord(b.v))]
      else if cmp.GE? then [I(lessI, p, ra, ToWord(b.v)), Invert(p)]
      else if cmp.GT? then [I(lessI, p, ra, ToWord(b.v + 1)), Invert(p)]
      else if cmp.LE? then [I(lessI, p, ra, ToWord(b.v + 1))]
      else [I(ADDI, p, ra, ToWord(-b.v)), if cmp.EQ? then Seqz(p, p) else Snez(p, p)]
    else
      var rb := Ir(a, b.name);
      if cmp.LT? then [R(less, p, ra, rb)]
      else if cmp.GE? then [R(less, p, ra, rb), Invert(p)]
      else if cmp.GT? then [R(less, p, rb, ra)]
      else if cmp.LE? then [R(less, p, rb, ra), Invert(p)]
      else [R(XOR, p, ra, rb), if cmp.EQ? then Seqz(p, p) else Snez(p, p)]
  }

  function SetpFloatLines(cmp: Cmp, p: Reg, fa: Reg, fb: Reg): seq<Rv> {
    if cmp.LT? then [FC(FLT, p, fa, fb)]
    else if cmp.GT? then [FC(FLT, p, fb, fa)]
    else if cmp.LE? then [FC(FLE, p, fa, fb)]
    else if cmp.GE? then [FC(FLE, p, fb, fa)]
    else if cmp.EQ? then [FC(FEQ, p, fa, fb)]
    else [FC(FEQ, p, fa, fb), Invert(p)]
  }

  /** The shift that `while ((1 << shift) < imm)` finds. */
  function Log2(v: int, k: nat): (shift: nat)
    requires k <= 31
    ensures shift <= 31
    decreases 31 - k
  {
    if k == 31 || Power(k) >= v then k else Log2(v, k + 1)
  }

  predicate IsPower(v: int) { v > 0 && Power(Log2(v, 0)) == v }

  function ImmediateLines(op: AluOp, signed: bool, rd: Reg, ra: Reg, v: int): seq<Rv> {
    if op.ALU_ADD? then (if Fits(v) then [I(ADDI, rd, ra, ToWord(v))] else Li(T6, v) + [R(ADD, rd, ra, T6)])
    else if op.ALU_SUB? then (if Fits(-v) then [I(ADDI, rd, ra, ToWord(-v))] else Li(T6, -v) + [R(ADD, rd, ra, T6)])
    else if op.ALU_MUL? then (if IsPower(v) then [I(SLLI, rd, ra, ToWord(Log2(v, 0)))] else Li(T6, v) + [R(MUL, rd, ra, T6)])
    else if op.ALU_AND? then Li(T6, v) + [R(AND, rd, ra, T6)]
    else if op.ALU_OR? then Li(T6, v) + [R(OR, rd, ra, T6)]
    else if op.ALU_XOR? then Li(T6, v) + [R(XOR, rd, ra, T6)]
    else if op.ALU_SHL? then [I(SLLI, rd, ra, ToWord(v))]
    else if op.ALU_SHR? then [I(if signed then SRAI else SRLI, rd, ra, ToWord(v))]
    else [R(RegisterOp(op, signed), rd, ra, 0)]
  }

  function RegisterOp(op: AluOp, signed: bool): ROp {
    if op.ALU_ADD? then ADD
    else if op.ALU_SUB? then SUB
    else if op.ALU_MUL? then MUL
    else if op.ALU_AND? then AND
    else if op.ALU_OR? then OR
    else if op.ALU_XOR? then XOR
    else if op.ALU_SHL? then SLL
    else if op.ALU_SHR? then (if signed then SRA else SRL)
    else if op.ALU_DIV? then (if signed then DIV else DIVU)
    else (if signed then REM else REMU)
  }

  function AluLines(a: Alloc, op: AluOp, signed: bool, rd: Reg, ra: Reg, b: Operand): seq<Rv> {
    if b.Immediate? then ImmediateLines(op, signed, rd, ra, b.v) else [R(RegisterOp(op, signed), rd, ra, Ir(a, b.name))]
  }

  // Shared memory is addressed through t6.
  function SharedBase(a: Alloc, base: Name): seq<Rv> {
    Li(T6, SHARED_BASE) + if base == "" then [] else [R(ADD, T6, T6, Ir(a, base))]
  }

  function MoveLines(a: Alloc, d: Name, o: Operand): seq<Rv> {
    if o.Immediate? then Li(Ir(a, d), o.v) else if Ir(a, d) == Ir(a, o.name) then [] else [Mv(Ir(a, d), Ir(a, o.name))]
  }

  /** The block of one line. `fmv.s` is a sign injection, which the decoder does not know. */
  function Lines(a: Alloc, n: Instr, target: nat): seq<Rv> {
    if n.LdParam? then
      (if n.index >= 8 then [] else if n.float then [FMV_W_X(Fr(a, n.d), 10 + n.index)] else [Mv(Ir(a, n.d), 10 + n.index)])
    else if n.Ld? then
      (if n.shared then SharedBase(a, n.base) else [])
      + (var base := if n.shared then T6 else Ir(a, n.base);
         if n.float then [FLW(Fr(a, n.d), base, ToWord(n.offset))] else [LW(Ir(a, n.d), base, ToWord(n.offset))])
    else if n.St? then
      (if n.shared then SharedBase(a, n.base) else [])
      + (var base := if n.shared then T6 else Ir(a, n.base);
         if n.float then [FSW(Fr(a, n.v), base, ToWord(n.offset))] else [SW(Ir(a, n.v), base, ToWord(n.offset))])
    else if n.MovSpecial? then (if n.special < SPECIALS then [LW(Ir(a, n.d), GP, ToWord(4 * n.special))] else [])
    else if n.Mov? then MoveLines(a, n.d, n.a)
    else if n.Cvt? then MoveLines(a, n.d, Register(n.ra))
    else if n.MovFloat? then [UNKNOWN]
    else if n.Setp? then SetpLines(a, n.cmp, n.signed, Ir(a, n.d), Ir(a, n.ra), n.b)
    else if n.SetpFloat? then SetpFloatLines(n.cmp, Ir(a, n.d), Fr(a, n.fa), Fr(a, n.fb))
    else if n.Alu? then AluLines(a, n.op, n.signed, Ir(a, n.d), Source(a, n.a), n.b)
    else if n.Mad? then [R(MUL, Ir(a, n.d), Ir(a, n.ra), Ir(a, n.rb)), R(ADD, Ir(a, n.d), Ir(a, n.d), Ir(a, n.rc))]
    else if n.Not? then [I(XORI, Ir(a, n.d), Ir(a, n.ra), MINUS_ONE)]
    else if n.Neg? then [R(SUB, Ir(a, n.d), 0, Ir(a, n.ra))]
    else if n.Float? then [F(n.fop, Fr(a, n.d), Fr(a, n.fa), Fr(a, n.fb))]
    else if n.Fma? then [FMADD(Fr(a, n.d), Fr(a, n.fa), Fr(a, n.fb), Fr(a, n.fc))]
    else if n.IntToFloat? then [FCVT_S_W(Fr(a, n.d), Ir(a, n.ra))]
    else if n.FloatToInt? then [FCVT_W_S(Ir(a, n.d), Fr(a, n.fa))]
    else if n.Membar? then [FENCE]
    else if n.BarSync? then [BAR_SYNC(n.id)]
    else if n.Bra? then [JAL(target)]
    else if n.BraIf? then [if n.negated then BEQZ(Ir(a, n.pred), target) else BNEZ(Ir(a, n.pred), target)]
    else if n.Ret? then [RET]
    else []
  }
}
