// Kernels as the parser hands them over (driver/src/ptx_transpiler/ptx_parser.h),
// with each opcode string reduced to its family, and their meaning on 32-bit
// registers.

module Ptx {
  import opened Isa
  import opened Integers
  import opened Rv32
  import Division

  type Name = string

  datatype Operand = Register(name: Name) | Immediate(v: int)

  datatype Cmp = LT | GE | GT | LE | EQ | NE
  datatype AluOp = ALU_ADD | ALU_SUB | ALU_MUL | ALU_AND | ALU_OR | ALU_XOR | ALU_SHL | ALU_SHR | ALU_DIV | ALU_REM

  /** A body line. Float registers and integer registers are separate name spaces,
      told apart by the opcode. */
  datatype Instr =
    | LabelDef(mark: Name)
    | LdParam(float: bool, d: Name, index: nat)
    | Ld(float: bool, shared: bool, d: Name, base: Name, offset: int)
    | St(float: bool, shared: bool, base: Name, offset: int, v: Name)
    | MovSpecial(d: Name, special: nat)
    | Mov(d: Name, a: Operand)
    | Cvt(d: Name, ra: Name)
    | MovFloat(d: Name, fa: Name)
    | Setp(cmp: Cmp, signed: bool, d: Name, ra: Name, b: Operand)
    | SetpFloat(cmp: Cmp, d: Name, fa: Name, fb: Name)
    | Alu(op: AluOp, signed: bool, d: Name, a: Operand, b: Operand)
    | Mad(d: Name, ra: Name, rb: Name, rc: Name)
    | Not(d: Name, ra: Name)
    | Neg(d: Name, ra: Name)
    | Float(fop: FOp, d: Name, fa: Name, fb: Name)
    | Fma(d: Name, fa: Name, fb: Name, fc: Name)
    | IntToFloat(d: Name, ra: Name)
    | FloatToInt(d: Name, fa: Name)
    | Membar
    | BarSync(id: nat)
    | Bra(mark: Name)
    | BraIf(negated: bool, pred: Name, mark: Name)
    | Ret

  type Values = Name -> Word

  /** What the host fixes for one thread: parameters and special registers. */
  datatype Launch = Launch(params: seq<Word>, special: nat -> Word)

  datatype Thread<!M> = Thread(i: Values, f: Values, mem: M, barriers: seq<nat>, pc: nat, halted: bool)

  function Assign(g: Values, d: Name, v: Word): Values { (n: Name) => if n == d then v else g(n) }

  function ValueOf(g: Values, o: Operand): Word {
    if o.Register? then g(o.name) else ToWord(o.v)
  }

  function Compare(cmp: Cmp, signed: bool, a: Word, b: Word): bool {
    var less, more := if signed then SignedLess(a, b) else Below(a, b), if signed then SignedLess(b, a) else Below(b, a);
    if cmp.LT? then less else if cmp.GE? then !less else if cmp.GT? then more else if cmp.LE? then !more
    else if cmp.EQ? then a == b else a != b
  }

  function CompareFloat<M>(p: Platform<M>, cmp: Cmp, a: Word, b: Word): bool {
    if cmp.LT? then p.flt(a, b) else if cmp.GT? then p.flt(b, a) else if cmp.LE? then p.fle(a, b)
    else if cmp.GE? then p.fle(b, a) else if cmp.EQ? then p.feq(a, b) else !p.feq(a, b)
  }

  function FloatOp<M>(p: Platform<M>, op: FOp, a: Word, b: Word): Word {
    match op
    case FADD => p.fadd(a, b)
    case FSUB => p.fsub(a, b)
    case FMUL => p.fmul(a, b)
    case FDIV => p.fdiv(a, b)
  }

  /** Shift counts beyond 31 are clamped: everything is shifted out. */
  function Shift(op: AluOp, signed: bool, a: Word, b: Word): Word {
    var k := if Below(b, 32) then Count(b) else 32;
    if op.ALU_SHL? then ShiftLeft(a, k) else if signed then ShiftArith(a, k) else ShiftRight(a, k)
  }

  function Arithmetic(op: AluOp, signed: bool, a: Word, b: Word): Word {
    if op.ALU_ADD? then Sum(a, b)
    else if op.ALU_SUB? then Difference(a, b)
    else if op.ALU_MUL? then Product(a, b)
    else if op.ALU_AND? then BitAnd(a, b)
    else if op.ALU_OR? then BitOr(a, b)
    else if op.ALU_XOR? then BitXor(a, b)
    else if op.ALU_SHL? || op.ALU_SHR? then Shift(op, signed, a, b)
    else if op.ALU_DIV? then Division.DivideWords(signed, a, b)
    else Division.ModuloWords(signed, a, b)
  }

  /** Shared memory is a window of the address space. */
  const SHARED_BASE := 0x0040_0000

  function PtxAddress(i: Values, shared: bool, base: Name, offset: int): bv64 {
    var b := if base == "" then 0 else i(base);
    Address(if shared then Sum(ToWord(SHARED_BASE), b) else b, ToWord(offset))
  }

  /** The line that defines a label: the first, if several do; none past the end. */
  function LabelIndex(body: seq<Instr>, mark: Name): (k: nat)
    ensures k <= |body| && (k < |body| <==> LabelDef(mark) in body)
    ensures k < |body| ==> body[k] == LabelDef(mark)
    ensures forall j :: 0 <= j < k ==> body[j] != LabelDef(mark)
  {
    if body == [] then 0 else if body[0] == LabelDef(mark) then 0 else 1 + LabelIndex(body[1..], mark)
  }

  function ParamOf(l: Launch, index: nat): Word { if index < |l.params| then l.params[index] else 0 }

  /** The effect of a line on registers, memory and barriers. */
  function PtxEffect<M>(p: Platform<M>, l: Launch, n: Instr, s: Thread<M>): Thread<M> {
    if n.LdParam? then
      (if n.float then s.(f := Assign(s.f, n.d, ParamOf(l, n.index))) else s.(i := Assign(s.i, n.d, ParamOf(l, n.index))))
    else if n.Ld? then
      var w := p.load(s.mem, PtxAddress(s.i, n.shared, n.base, n.offset));
      if n.float then s.(f := Assign(s.f, n.d, w)) else s.(i := Assign(s.i, n.d, w))
    else if n.St? then
      s.(mem := p.store(s.mem, PtxAddress(s.i, n.shared, n.base, n.offset), if n.float then s.f(n.v) else s.i(n.v)))
    else if n.MovSpecial? then s.(i := Assign(s.i, n.d, l.special(n.special)))
    else if n.Mov? then s.(i := Assign(s.i, n.d, ValueOf(s.i, n.a)))
    else if n.Cvt? then s.(i := Assign(s.i, n.d, s.i(n.ra)))
    else if n.MovFloat? then s.(f := Assign(s.f, n.d, s.f(n.fa)))
    else if n.Setp? then s.(i := Assign(s.i, n.d, if Compare(n.cmp, n.signed, s.i(n.ra), ValueOf(s.i, n.b)) then 1 else 0))
    else if n.SetpFloat? then s.(i := Assign(s.i, n.d, if CompareFloat(p, n.cmp, s.f(n.fa), s.f(n.fb)) then 1 else 0))
    else if n.Alu? then s.(i := Assign(s.i, n.d, Arithmetic(n.op, n.signed, ValueOf(s.i, n.a), ValueOf(s.i, n.b))))
    else if n.Mad? then s.(i := Assign(s.i, n.d, Sum(Product(s.i(n.ra), s.i(n.rb)), s.i(n.rc))))
    else if n.Not? then s.(i := Assign(s.i, n.d, BitXor(s.i(n.ra), 0xFFFF_FFFF)))
    else if n.Neg? then s.(i := Assign(s.i, n.d, Difference(0, s.i(n.ra))))
    else if n.Float? then s.(f := Assign(s.f, n.d, FloatOp(p, n.fop, s.f(n.fa), s.f(n.fb))))
    else if n.Fma? then s.(f := Assign(s.f, n.d, p.fmadd(s.f(n.fa), s.f(n.fb), s.f(n.fc))))
    else if n.IntToFloat? then s.(f := Assign(s.f, n.d, p.toFloat(s.i(n.ra))))
    else if n.FloatToInt? then s.(i := Assign(s.i, n.d, p.toInt(s.f(n.fa))))
    else if n.BarSync? then s.(barriers := s.barriers + [n.id])
    else s
  }

  /** One line; a thread past the end of the body, or branching to no label, stays. */
  function PtxStep<M>(p: Platform<M>, l: Launch, body: seq<Instr>, s: Thread<M>): Thread<M> {
    if s.halted || s.pc >= |body| then s
    else
      var n := body[s.pc];
      if n.Ret? then s.(halted := true)
      else if n.Bra? then s.(pc := LabelIndex(body, n.mark))
      else if n.BraIf? then s.(pc := if (s.i(n.pred) != 0) != n.negated then LabelIndex(body, n.mark) else s.pc + 1)
      else PtxEffect(p, l, n, s).(pc := s.pc + 1)
  }
}
