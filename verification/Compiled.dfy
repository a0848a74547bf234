// Compiled kernels do what their source does: every line of the stated fragment
// is simulated by its block, and so is every run.

module Compiled {
  import Isa
  import opened Integers
  import opened Rv32
  import opened Ptx
  import opened Emitter

  type Word = Isa.Word

  // ----- Blocks -----

  lemma EffectsOne<M>(p: Platform<M>, x: Rv, t: State<M>)
    ensures Effects(p, [x], t) == Effect(p, x, t)
  {
    hide Effect;
    assert [x][1..] == [];
  }

  lemma EffectsTwo<M>(p: Platform<M>, x: Rv, y: Rv, t: State<M>)
    ensures Effects(p, [x, y], t) == Effect(p, y, Effect(p, x, t))
  {
    hide Effect;
    assert [x, y][1..] == [y];
    EffectsOne(p, y, Effect(p, x, t));
  }

  lemma {:induction false} EffectsAppend<M>(p: Platform<M>, a: seq<Rv>, b: seq<Rv>, t: State<M>)
    ensures Effects(p, a + b, t) == Effects(p, b, Effects(p, a, t))
    decreases |a|
  {
    hide Effect;
    if a == [] {
      assert a + b == b;
    } else {
      assert (a + b)[1..] == a[1..] + b;
      EffectsAppend(p, a[1..], b, Effect(p, a[0], t));
    }
  }

  lemma EffectR<M>(p: Platform<M>, op: ROp, rd: Reg, x: Reg, y: Reg, t: State<M>)
    ensures Effect(p, R(op, rd, x, y), t) == t.(r := SetReg(t.r, rd, RValue(op, t.r[x], t.r[y])))
  {
    hide RValue, SetReg;
  }

  lemma EffectI<M>(p: Platform<M>, op: IOp, rd: Reg, x: Reg, imm: Word, t: State<M>)
    ensures Effect(p, I(op, rd, x, imm), t) == t.(r := SetReg(t.r, rd, IValue(op, t.r[x], imm)))
  {
    hide IValue, SetReg;
  }

  lemma SumZero(w: Word)
    ensures Isa.Sum(0, w) == w && Isa.Sum(w, 0) == w
  {
  }

  /** `li` loads the literal, in one instruction or two. */
  lemma LiLoads<M>(p: Platform<M>, rd: Reg, v: int, t: State<M>)
    requires rd != 0 && t.r[0] == 0
    ensures Effects(p, Li(rd, v), t) == t.(r := t.r[rd := ToWord(v)])
  {
    hide Effect, ToWord, Isa.Sum;
    if Fits(v) {
      EffectsOne(p, I(ADDI, rd, 0, ToWord(v)), t);
      EffectI(p, ADDI, rd, 0, ToWord(v), t);
      SumZero(ToWord(v));
    } else {
      var hi := (v + 2048) / 4096;
      var upper, lower := ToWord(hi * 4096), ToWord(v - hi * 4096);
      EffectsTwo(p, LUI(rd, upper), I(ADDI, rd, rd, lower), t);
      EffectLui(p, rd, upper, t);
      EffectI(p, ADDI, rd, rd, lower, Effect(p, LUI(rd, upper), t));
      ToWordAdds(hi * 4096, v - hi * 4096);
      assert t.r[rd := upper][rd := ToWord(v)] == t.r[rd := ToWord(v)];
    }
  }

  lemma EffectLui<M>(p: Platform<M>, rd: Reg, imm: Word, t: State<M>)
    ensures Effect(p, LUI(rd, imm), t) == t.(r := SetReg(t.r, rd, imm))
  {
  }

  // ----- The relation -----

  /** Every allocated name's value is in its register, parameters are in a0-a7. */
  ghost predicate Holds<M>(a: Alloc, l: Launch, gp: Word, s: Thread<M>, t: State<M>) {
    && (forall n :: n in a.i ==> t.r[Ir(a, n)] == s.i(n))
    && (forall n :: n in a.f ==> t.f[Fr(a, n)] == s.f(n))
    && t.r[0] == 0 && t.r[RA] == SENTINEL && t.r[GP] == gp
    && (forall k :: 0 <= k < 8 ==> t.r[10 + k] == ParamOf(l, k))
    && t.mem == s.mem && t.barriers == s.barriers && t.halted == s.halted
  }

  /** The thread's context block holds its special registers. */
  ghost predicate Context<M(!new)>(p: Platform<M>, l: Launch, gp: Word, mem: M) {
    forall k :: 0 <= k < 9 ==> p.load(mem, Address(gp, ToWord(4 * k))) == l.special(k)
  }

  /** t' is t with v in register d; t6 is scratch. */
  ghost predicate Computes<M>(t: State<M>, t': State<M>, d: Reg, v: Word) {
    && t' == t.(r := t'.r) && t'.r[d] == v
    && forall k :: 0 <= k < 32 && k != d && k != T6 ==> t'.r[k] == t.r[k]
  }

  lemma Allocated(a: Alloc, n: Name)
    requires Sound(a) && Fitting(a) && n in a.i
    ensures Ir(a, n) !in {0, 1, 3, 31} && !(10 <= Ir(a, n) <= 17)
    ensures forall m :: m in a.i && m != n ==> Ir(a, m) != Ir(a, n)
  {
    PoolsAreSafe(a.i[n], 0);
    forall m | m in a.i && m != n ensures Ir(a, m) != Ir(a, n) {
      PoolsAreSafe(a.i[n], a.i[m]);
      PoolsAreSafe(a.i[m], a.i[n]);
    }
  }

  lemma AllocatedFloat(a: Alloc, n: Name)
    requires Sound(a) && Fitting(a) && n in a.f
    ensures forall m :: m in a.f && m != n ==> Fr(a, m) != Fr(a, n)
  {
    forall m | m in a.f && m != n ensures Fr(a, m) != Fr(a, n) {
      PoolsAreSafe(a.f[n], a.f[m]);
      PoolsAreSafe(a.f[m], a.f[n]);
    }
  }

  /** Writing a name's register assigns the name, and nothing else. */
  lemma Assigned<M>(a: Alloc, l: Launch, gp: Word, s: Thread<M>, t: State<M>, t': State<M>, d: Name, v: Word)
    requires Sound(a) && Fitting(a) && d in a.i && Holds(a, l, gp, s, t) && Computes(t, t', Ir(a, d), v)
    ensures Holds(a, l, gp, s.(i := Assign(s.i, d, v)), t')
  {
    hide Ir, Sound;
    Allocated(a, d);
    forall n | n in a.i ensures t'.r[Ir(a, n)] == Assign(s.i, d, v)(n) {
      if n != d {
        Allocated(a, n);
      }
    }
  }

  lemma AssignedFloat<M>(a: Alloc, l: Launch, gp: Word, s: Thread<M>, t: State<M>, t': State<M>, d: Name, v: Word)
    requires Sound(a) && Fitting(a) && d in a.f && Holds(a, l, gp, s, t)
    requires t' == t.(r := t'.r, f := t.f[Fr(a, d) := v]) && forall k :: 0 <= k < 32 && k != T6 ==> t'.r[k] == t.r[k]
    ensures Holds(a, l, gp, s.(f := Assign(s.f, d, v)), t')
  {
    hide Ir, Fr, Sound;
    AllocatedFloat(a, d);
    forall n | n in a.i ensures t'.r[Ir(a, n)] == s.i(n) {
      Allocated(a, n);
    }
  }

  lemma Stored<M>(a: Alloc, l: Launch, gp: Word, s: Thread<M>, t: State<M>, t': State<M>, mem: M)
    requires Sound(a) && Fitting(a) && Holds(a, l, gp, s, t)
    requires t' == t.(r := t'.r, mem := mem) && forall k :: 0 <= k < 32 && k != T6 ==> t'.r[k] == t.r[k]
    ensures Holds(a, l, gp, s.(mem := mem), t')
  {
    hide Ir, Fr, Sound;
    forall n | n in a.i ensures t'.r[Ir(a, n)] == s.i(n) {
      Allocated(a, n);
    }
  }

  // ----- Comparisons -----

  lemma Inverted(b: bool)
    ensures Isa.BitXor(Flag(b), 1) == Flag(!b)
  {
  }

  lemma XorZero(x: Word, y: Word)
    ensures Isa.BitXor(x, y) == 0 <==> x == y
  {
  }

  lemma ZeroTests(w: Word)
    ensures Below(w, 1) <==> w == 0
    ensures Below(0, w) <==> w != 0
  {
  }

  lemma ZeroDifference(x: Word, y: Word)
    ensures Isa.Difference(x, y) == 0 ==> x == y
  {
  }

  /** The literal, its successor or its negation is an immediate of the compare. */
  predicate SetpAssembles(cmp: Cmp, v: int) {
    if cmp.LT? || cmp.GE? then Fits(v) else if cmp.GT? || cmp.LE? then Fits(v + 1) else Fits(-v)
  }

  /** The successor of -1 wraps to 0, below every unsigned word. */
  predicate SetpRight(cmp: Cmp, signed: bool, v: int) { (cmp.GT? || cmp.LE?) && !signed ==> v != -1 }

  predicate SetpImmediate(cmp: Cmp, signed: bool, v: int) { SetpAssembles(cmp, v) && SetpRight(cmp, signed, v) }

  function Comparator(signed: bool): ROp { if signed then SLT else SLTU }
  function ComparatorI(signed: bool): IOp { if signed then SLTI else SLTIU }

  predicate Lower(signed: bool, x: Word, y: Word) { if signed then Isa.SignedLess(x, y) else Below(x, y) }

  /** One comparing instruction, or two with the second inverting or testing for zero. */
  lemma TestOne<M>(p: Platform<M>, x: Rv, t: State<M>, d: Reg, v: Word)
    requires d != 0 && Effect(p, x, t) == t.(r := SetReg(t.r, d, v))
    ensures Computes(t, Effects(p, [x], t), d, v)
  {
    hide Effect;
    EffectsOne(p, x, t);
  }

  lemma TestTwo<M>(p: Platform<M>, x: Rv, y: Rv, t: State<M>, d: Reg, v: Word, w: Word)
    requires d != 0 && Effect(p, x, t) == t.(r := SetReg(t.r, d, v))
    requires var u := t.(r := SetReg(t.r, d, v)); Effect(p, y, u) == u.(r := SetReg(u.r, d, w))
    ensures Computes(t, Effects(p, [x, y], t), d, w)
  {
    hide Effect;
    EffectsTwo(p, x, y, t);
  }

  lemma SetpRegister<M>(p: Platform<M>, a: Alloc, cmp: Cmp, signed: bool, d: Reg, ra: Reg, n: Name, t: State<M>)
    requires d != 0 && t.r[0] == 0
    ensures Computes(t, Effects(p, SetpLines(a, cmp, signed, d, ra, Register(n)), t), d,
                     Flag(Compare(cmp, signed, t.r[ra], t.r[Ir(a, n)])))
  {
    hide Effect, Ir, Effects, Flag, Isa.BitXor, Below, Isa.SignedLess, Computes;
    var rb, less := Ir(a, n), Comparator(signed);
    var x, y := t.r[ra], t.r[rb];
    if cmp.LT? || cmp.GE? {
      EffectR(p, less, d, ra, rb, t);
      InvertAfter(p, R(less, d, ra, rb), t, d, Lower(signed, x, y));
    } else if cmp.GT? || cmp.LE? {
      EffectR(p, less, d, rb, ra, t);
      InvertAfter(p, R(less, d, rb, ra), t, d, Lower(signed, y, x));
    } else {
      EffectR(p, XOR, d, ra, rb, t);
      XorZero(x, y);
      ZeroAfter(p, R(XOR, d, ra, rb), t, d, Isa.BitXor(x, y));
    }
  }

  /** A flag, and its inversion by a second instruction. */
  lemma InvertAfter<M>(p: Platform<M>, x: Rv, t: State<M>, d: Reg, b: bool)
    requires d != 0 && Effect(p, x, t) == t.(r := SetReg(t.r, d, Flag(b)))
    ensures Computes(t, Effects(p, [x], t), d, Flag(b))
    ensures Computes(t, Effects(p, [x, Invert(d)], t), d, Flag(!b))
  {
    hide Effect, Flag, Isa.BitXor, Effects, Computes;
    TestOne(p, x, t, d, Flag(b));
    var u := t.(r := SetReg(t.r, d, Flag(b)));
    EffectI(p, XORI, d, d, 1, u);
    Inverted(b);
    TestTwo(p, x, Invert(d), t, d, Flag(b), Flag(!b));
  }

  /** A word, compared with zero by a second instruction. */
  lemma ZeroAfter<M>(p: Platform<M>, x: Rv, t: State<M>, d: Reg, w: Word)
    requires d != 0 && t.r[0] == 0 && Effect(p, x, t) == t.(r := SetReg(t.r, d, w))
    ensures Computes(t, Effects(p, [x, Seqz(d, d)], t), d, Flag(w == 0))
    ensures Computes(t, Effects(p, [x, Snez(d, d)], t), d, Flag(w != 0))
  {
    hide Effect, Flag, Effects, Below, Computes;
    var u := t.(r := SetReg(t.r, d, w));
    ZeroTests(w);
    EffectI(p, SLTIU, d, d, 1, u);
    EffectR(p, SLTU, d, 0, d, u);
    TestTwo(p, x, Seqz(d, d), t, d, w, Flag(w == 0));
    TestTwo(p, x, Snez(d, d), t, d, w, Flag(w != 0));
  }

  lemma SetpBelowLiteral<M>(p: Platform<M>, a: Alloc, cmp: Cmp, signed: bool, d: Reg, ra: Reg, v: int, t: State<M>)
    requires d != 0 && t.r[0] == 0 && SetpImmediate(cmp, signed, v) && (cmp.LT? || cmp.GE?)
    ensures Computes(t, Effects(p, SetpLines(a, cmp, signed, d, ra, Immediate(v)), t), d,
                     Flag(Compare(cmp, signed, t.r[ra], ToWord(v))))
  {
    hide Effect, Effects, Flag, Below, Isa.SignedLess, ToWord, Isa.Difference, Isa.Sum, Computes;
    var less, x, w := ComparatorI(signed), t.r[ra], ToWord(v);
    EffectI(p, less, d, ra, w, t);
    InvertAfter(p, I(less, d, ra, w), t, d, Lower(signed, x, w));
  }

  lemma SetpAboveLiteral<M>(p: Platform<M>, a: Alloc, cmp: Cmp, signed: bool, d: Reg, ra: Reg, v: int, t: State<M>)
    requires d != 0 && t.r[0] == 0 && SetpImmediate(cmp, signed, v) && (cmp.GT? || cmp.LE?)
    ensures Computes(t, Effects(p, SetpLines(a, cmp, signed, d, ra, Immediate(v)), t), d,
                     Flag(Compare(cmp, signed, t.r[ra], ToWord(v))))
  {
    hide Effect, Effects, Flag, Below, Isa.SignedLess, ToWord, Isa.Difference, Isa.Sum, Computes;
    var less, x, next := ComparatorI(signed), t.r[ra], ToWord(v + 1);
    NextLiteral(x, v);
    EffectI(p, less, d, ra, next, t);
    InvertAfter(p, I(less, d, ra, next), t, d, Lower(signed, x, next));
  }

  lemma SetpEqualLiteral<M>(p: Platform<M>, a: Alloc, cmp: Cmp, signed: bool, d: Reg, ra: Reg, v: int, t: State<M>)
    requires d != 0 && t.r[0] == 0 && SetpImmediate(cmp, signed, v) && (cmp.EQ? || cmp.NE?)
    ensures Computes(t, Effects(p, SetpLines(a, cmp, signed, d, ra, Immediate(v)), t), d,
                     Flag(Compare(cmp, signed, t.r[ra], ToWord(v))))
  {
    hide Effect, Effects, Flag, Below, Isa.SignedLess, ToWord, Isa.Difference, Isa.Sum, Computes;
    var x, w, minus := t.r[ra], ToWord(v), ToWord(-v);
    EffectI(p, ADDI, d, ra, minus, t);
    NegatedLiteral(x, v);
    ZeroDifference(x, w);
    NoDifference(x);
    ZeroAfter(p, I(ADDI, d, ra, minus), t, d, Isa.Difference(x, w));
  }

  lemma SetpLiteral<M>(p: Platform<M>, a: Alloc, cmp: Cmp, signed: bool, d: Reg, ra: Reg, v: int, t: State<M>)
    requires d != 0 && t.r[0] == 0 && SetpImmediate(cmp, signed, v)
    ensures Computes(t, Effects(p, SetpLines(a, cmp, signed, d, ra, Immediate(v)), t), d,
                     Flag(Compare(cmp, signed, t.r[ra], ToWord(v))))
  {
    hide Effect, Effects, Computes, SetpLines, Compare, ToWord, Flag, SetpImmediate;
    if cmp.LT? || cmp.GE? {
      SetpBelowLiteral(p, a, cmp, signed, d, ra, v, t);
    } else if cmp.GT? || cmp.LE? {
      SetpAboveLiteral(p, a, cmp, signed, d, ra, v, t);
    } else {
      SetpEqualLiteral(p, a, cmp, signed, d, ra, v, t);
    }
  }

  /** At -1 the unsigned comparisons above and at most are wrong whatever is
      compared: the next literal wraps to 0. */
  lemma SetpMinusOneWrong<M>(p: Platform<M>, a: Alloc, cmp: Cmp, d: Reg, ra: Reg, t: State<M>)
    requires d != 0 && t.r[0] == 0 && (cmp.GT? || cmp.LE?)
    ensures Effects(p, SetpLines(a, cmp, false, d, ra, Immediate(-1)), t).r[d] != Flag(Compare(cmp, false, t.r[ra], ToWord(-1)))
  {
    hide Effect, Effects, Below, ToWord;
    var x := t.r[ra];
    var next := ToWord(-1 + 1);
    MinusOneLiteral(x);
    EffectI(p, SLTIU, d, ra, next, t);
    InvertAfter(p, I(SLTIU, d, ra, next), t, d, Lower(false, x, next));
  }

  lemma MinusOneLiteral(x: Word)
    ensures ToWord(-1) == MINUS_ONE && ToWord(0) == 0
    ensures !Below(ToWord(-1), x) && !Below(x, ToWord(0))
  {
    assert ToWord(0) == 0;
  }

  lemma SetpFloats<M>(p: Platform<M>, cmp: Cmp, d: Reg, fa: Reg, fb: Reg, t: State<M>)
    requires d != 0
    ensures Computes(t, Effects(p, SetpFloatLines(cmp, d, fa, fb), t), d, Flag(CompareFloat(p, cmp, t.f[fa], t.f[fb])))
  {
    hide Effect, Effects, Flag, Computes;
    var x, y := t.f[fa], t.f[fb];
    if cmp.LT? {
      EffectFC(p, FLT, d, fa, fb, t);
      InvertAfter(p, FC(FLT, d, fa, fb), t, d, p.flt(x, y));
    } else if cmp.GT? {
      EffectFC(p, FLT, d, fb, fa, t);
      InvertAfter(p, FC(FLT, d, fb, fa), t, d, p.flt(y, x));
    } else if cmp.LE? {
      EffectFC(p, FLE, d, fa, fb, t);
      InvertAfter(p, FC(FLE, d, fa, fb), t, d, p.fle(x, y));
    } else if cmp.GE? {
      EffectFC(p, FLE, d, fb, fa, t);
      InvertAfter(p, FC(FLE, d, fb, fa), t, d, p.fle(y, x));
    } else {
      EffectFC(p, FEQ, d, fa, fb, t);
      InvertAfter(p, FC(FEQ, d, fa, fb), t, d, p.feq(x, y));
    }
  }

  lemma EffectFC<M>(p: Platform<M>, cmp: FCmp, rd: Reg, x: Reg, y: Reg, t: State<M>)
    ensures Effect(p, FC(cmp, rd, x, y), t) == t.(r := SetReg(t.r, rd, Flag(FTest(p, cmp, t.f[x], t.f[y]))))
  {
    hide Flag, FTest, SetReg;
  }

  // ----- Arithmetic -----

  /** Where the machine's shift and division agree with the source's. */
  predicate SafeOperands(op: AluOp, signed: bool, x: Word, y: Word) {
    if op.ALU_SHL? || op.ALU_SHR? then Below(y, 32)
    else if op.ALU_DIV? || op.ALU_REM? then y != 0 && !(signed && x == 0x8000_0000 && y == MINUS_ONE)
    else true
  }

  lemma RegisterOpMeans(op: AluOp, signed: bool, x: Word, y: Word)
    requires SafeOperands(op, signed, x, y)
    ensures RValue(RegisterOp(op, signed), x, y) == Arithmetic(op, signed, x, y)
  {
    hide Below, Isa.SignedLess, Count, ShiftLeft, ShiftRight, ShiftArith;
  }

  /** Literals an arithmetic line may carry: shift counts below 32, factors the
      compiler can take the logarithm of. */
  predicate AluAssembles(op: AluOp, v: int) {
    if op.ALU_SHL? || op.ALU_SHR? then 0 <= v < 32
    else if op.ALU_MUL? then v <= 0x4000_0000 || !IsPower(v)
    else true
  }

  predicate Divides(op: AluOp) { op.ALU_DIV? || op.ALU_REM? }

  predicate AluImmediate(op: AluOp, v: int) { AluAssembles(op, v) && !Divides(op) }

  /** What the block computes from x and y: a literal first source reads as 0, and so
      does a literal divisor. */
  function AluValue(op: AluOp, signed: bool, a: Operand, b: Operand, x: Word, y: Word): Word {
    var first := if a.Immediate? then 0 else x;
    if b.Immediate? && op.ALU_DIV? then MINUS_ONE
    else if b.Immediate? && op.ALU_REM? then first
    else Arithmetic(op, signed, first, y)
  }

  /** When that is what the source computes, whatever the registers hold. */
  predicate AluExact(op: AluOp, signed: bool, a: Operand, b: Operand) {
    if a.Register? then (b.Immediate? && Divides(op) ==> ToWord(b.v) == 0)
    else if b.Register? then ToWord(a.v) == 0
    else SafeOperands(op, signed, ToWord(a.v), ToWord(b.v))
         ==> AluValue(op, signed, a, b, ToWord(a.v), ToWord(b.v)) == Arithmetic(op, signed, ToWord(a.v), ToWord(b.v))
  }

  /** A literal in t6, then one instruction. */
  lemma ThroughT6<M>(p: Platform<M>, op: ROp, rd: Reg, ra: Reg, v: int, t: State<M>)
    requires rd != 0 && rd != T6 && ra != T6 && t.r[0] == 0
    ensures Computes(t, Effects(p, Li(T6, v) + [R(op, rd, ra, T6)], t), rd, RValue(op, t.r[ra], ToWord(v)))
  {
    hide Effect, Li, RValue, Effects;
    var u := t.(r := t.r[T6 := ToWord(v)]);
    LiLoads(p, T6, v, t);
    EffectsAppend(p, Li(T6, v), [R(op, rd, ra, T6)], t);
    EffectsOne(p, R(op, rd, ra, T6), u);
    EffectR(p, op, rd, ra, T6, u);
  }

  lemma CountNext(w: Word)
    requires w < 32 && Count(w) < 31
    ensures Isa.Sum(w, 1) < 32 && Count(Isa.Sum(w, 1)) == Count(w) + 1
  {
  }

  lemma CountZero()
    ensures Count(0) == 0 && ToWord(0) == 0
  {
  }

  lemma {:induction false} SmallCount(v: nat)
    requires v < 32
    ensures ToWord(v) < 32 && Count(ToWord(v)) == v
  {
    hide Count, Isa.Sum, ToWord;
    if v == 0 {
      CountZero();
    } else {
      SmallCount(v - 1);
      Successor(v - 1);
      CountNext(ToWord(v - 1));
    }
  }

  lemma AddLiteral<M>(p: Platform<M>, op: AluOp, signed: bool, rd: Reg, ra: Reg, v: int, t: State<M>)
    requires rd != 0 && rd != T6 && ra != T6 && t.r[0] == 0 && (op.ALU_ADD? || op.ALU_SUB?)
    ensures Computes(t, Effects(p, ImmediateLines(op, signed, rd, ra, v), t), rd, Arithmetic(op, signed, t.r[ra], ToWord(v)))
  {
    hide Effect, Effects, Li, ToWord, Computes;
    var w := if op.ALU_ADD? then v else -v;
    NegatedLiteral(t.r[ra], v);
    EffectI(p, ADDI, rd, ra, ToWord(w), t);
    if Fits(w) {
      TestOne(p, I(ADDI, rd, ra, ToWord(w)), t, rd, Isa.Sum(t.r[ra], ToWord(w)));
    } else {
      ThroughT6(p, ADD, rd, ra, w, t);
    }
  }

  lemma LogicLiteral<M>(p: Platform<M>, op: AluOp, signed: bool, rd: Reg, ra: Reg, v: int, t: State<M>)
    requires rd != 0 && rd != T6 && ra != T6 && t.r[0] == 0 && (op.ALU_AND? || op.ALU_OR? || op.ALU_XOR?)
    ensures Computes(t, Effects(p, ImmediateLines(op, signed, rd, ra, v), t), rd, Arithmetic(op, signed, t.r[ra], ToWord(v)))
  {
    hide Effect, Effects, Li, ToWord, Computes;
    ThroughT6(p, RegisterOp(op, signed), rd, ra, v, t);
  }

  lemma MulLiteral<M>(p: Platform<M>, op: AluOp, signed: bool, rd: Reg, ra: Reg, v: int, t: State<M>)
    requires rd != 0 && rd != T6 && ra != T6 && t.r[0] == 0 && op.ALU_MUL? && AluImmediate(op, v)
    ensures Computes(t, Effects(p, ImmediateLines(op, signed, rd, ra, v), t), rd, Arithmetic(op, signed, t.r[ra], ToWord(v)))
  {
    hide Effect, Effects, Li, ToWord, Computes, Product, ShiftLeft, Count;
    if IsPower(v) {
      var k := Log2(v, 0);
      SmallCount(k);
      MultiplyByPower(t.r[ra], k);
      EffectI(p, SLLI, rd, ra, ToWord(k), t);
      TestOne(p, I(SLLI, rd, ra, ToWord(k)), t, rd, ShiftLeft(t.r[ra], k));
    } else {
      ThroughT6(p, MUL, rd, ra, v, t);
    }
  }

  lemma ShiftLiteral<M>(p: Platform<M>, op: AluOp, signed: bool, rd: Reg, ra: Reg, v: int, t: State<M>)
    requires rd != 0 && rd != T6 && ra != T6 && t.r[0] == 0 && (op.ALU_SHL? || op.ALU_SHR?) && 0 <= v < 32
    ensures Computes(t, Effects(p, ImmediateLines(op, signed, rd, ra, v), t), rd, Arithmetic(op, signed, t.r[ra], ToWord(v)))
  {
    hide Effect, Effects, ToWord, Computes, ShiftLeft, ShiftRight, ShiftArith, Count, Below;
    SmallCount(v);
    BelowIs(ToWord(v), 32);
    var iop := if op.ALU_SHL? then SLLI else if signed then SRAI else SRLI;
    EffectI(p, iop, rd, ra, ToWord(v), t);
    TestOne(p, I(iop, rd, ra, ToWord(v)), t, rd, IValue(iop, t.r[ra], ToWord(v)));
  }

  lemma AluLiteral<M>(p: Platform<M>, op: AluOp, signed: bool, rd: Reg, ra: Reg, v: int, t: State<M>)
    requires rd != 0 && rd != T6 && ra != T6 && t.r[0] == 0 && AluImmediate(op, v)
    ensures Computes(t, Effects(p, ImmediateLines(op, signed, rd, ra, v), t), rd, Arithmetic(op, signed, t.r[ra], ToWord(v)))
  {
    hide Effect, Effects, ToWord, Computes, ImmediateLines, Arithmetic, IsPower;
    if op.ALU_ADD? || op.ALU_SUB? {
      AddLiteral(p, op, signed, rd, ra, v, t);
    } else if op.ALU_MUL? {
      MulLiteral(p, op, signed, rd, ra, v, t);
    } else if op.ALU_AND? || op.ALU_OR? || op.ALU_XOR? {
      LogicLiteral(p, op, signed, rd, ra, v, t);
    } else {
      ShiftLiteral(p, op, signed, rd, ra, v, t);
    }
  }

  /** `mad.lo` is right exactly when its destination is not its addend's register:
      the product overwrites the addend before it is added. */
  lemma MadExact<M>(p: Platform<M>, d: Reg, ra: Reg, rb: Reg, rc: Reg, t: State<M>)
    requires d != 0
    ensures var t' := Effects(p, [R(MUL, d, ra, rb), R(ADD, d, d, rc)], t);
            var product := Product(t.r[ra], t.r[rb]);
            && (d != rc ==> Computes(t, t', d, Isa.Sum(product, t.r[rc])))
            && (d == rc ==> Computes(t, t', d, Isa.Sum(product, product)))
  {
    hide Effect, Effects, Computes, Product, Isa.Sum;
    var product := Product(t.r[ra], t.r[rb]);
    var u := t.(r := SetReg(t.r, d, product));
    EffectR(p, MUL, d, ra, rb, t);
    EffectR(p, ADD, d, d, rc, u);
    TestTwo(p, R(MUL, d, ra, rb), R(ADD, d, d, rc), t, d, product, Isa.Sum(product, u.r[rc]));
  }

  // ----- Memory -----

  lemma SharedAddress<M>(p: Platform<M>, a: Alloc, base: Name, t: State<M>)
    requires t.r[0] == 0 && (base != "" ==> Ir(a, base) != T6)
    ensures Effects(p, SharedBase(a, base), t)
            == t.(r := t.r[T6 := Isa.Sum(ToWord(SHARED_BASE), if base == "" then 0 else t.r[Ir(a, base)])])
  {
    hide Effect, Effects, Li, ToWord, Isa.Sum, Ir;
    var w := ToWord(SHARED_BASE);
    var u := t.(r := t.r[T6 := w]);
    LiLoads(p, T6, SHARED_BASE, t);
    if base == "" {
      SumZero(w);
      assert Li(T6, SHARED_BASE) + [] == Li(T6, SHARED_BASE);
    } else {
      EffectsAppend(p, Li(T6, SHARED_BASE), [R(ADD, T6, T6, Ir(a, base))], t);
      EffectsOne(p, R(ADD, T6, T6, Ir(a, base)), u);
      EffectR(p, ADD, T6, T6, Ir(a, base), u);
      assert t.r[T6 := w][T6 := Isa.Sum(w, t.r[Ir(a, base)])] == t.r[T6 := Isa.Sum(w, t.r[Ir(a, base)])];
    }
  }

  /** The state before the access itself: t6 may hold the shared address. */
  lemma BaseLoaded<M>(p: Platform<M>, a: Alloc, s: Thread<M>, shared: bool, base: Name, offset: int, t: State<M>)
    requires t.r[0] == 0 && (shared || base != "")
    requires base != "" ==> Ir(a, base) != T6 && t.r[Ir(a, base)] == s.i(base)
    ensures var u := Effects(p, if shared then SharedBase(a, base) else [], t);
            && u == t.(r := u.r) && (forall k :: 0 <= k < 32 && k != T6 ==> u.r[k] == t.r[k])
            && Address(u.r[if shared then T6 else Ir(a, base)], ToWord(offset)) == PtxAddress(s.i, shared, base, offset)
  {
    hide Effect, ToWord, Isa.Sum, Ir, Address, SharedBase;
    if shared {
      SharedAddress(p, a, base, t);
    }
  }

  // ----- One line -----

  /** `reject`: parameters beyond a7, barrier ids beyond 15, no base for global memory. */
  predicate Accepted(n: Instr) {
    && (n.LdParam? ==> n.index < 8) && (n.BarSync? ==> n.id < 16)
    && ((n.Ld? || n.St?) && !n.shared ==> n.base != "")
  }

  /** Literals fit the instructions they end up in. */
  predicate Assembles(n: Instr) {
    if n.Ld? || n.St? then Fits(n.offset)
    else if n.Setp? && n.b.Immediate? then SetpAssembles(n.cmp, n.b.v)
    else if n.Alu? && n.b.Immediate? then AluAssembles(n.op, n.b.v)
    else true
  }

  /** Lines whose block means the same for every state, among those that assemble. */
  predicate Exact(n: Instr) {
    if n.MovSpecial? then n.special < SPECIALS
    else if n.MovFloat? then n.d == n.fa
    else if n.Setp? && n.b.Immediate? then SetpRight(n.cmp, n.signed, n.b.v)
    else if n.Alu? then AluExact(n.op, n.signed, n.a, n.b)
    else if n.Mad? then n.d != n.rc
    else true
  }

  /** What the compiler handles. */
  predicate InFragment(n: Instr) { Accepted(n) && Assembles(n) && Exact(n) }

  /** Register operands of shifts and divisions in range. */
  predicate Safe<M>(n: Instr, s: Thread<M>) {
    n.Alu? ==> SafeOperands(n.op, n.signed, ValueOf(s.i, n.a), ValueOf(s.i, n.b))
  }

  lemma NameHas(a: Alloc, n: Instr, k: nat)
    requires Has(a, n)
    ensures k < |IntNames(n)| ==> IntNames(n)[k] in a.i
    ensures k < |FloatNames(n)| ==> FloatNames(n)[k] in a.f
  {
    hide IntNames, FloatNames;
  }

  /** The names a line uses, by role. */
  lemma Names(a: Alloc, n: Instr)
    requires Has(a, n)
    ensures ((n.MovSpecial? && n.special < SPECIALS) || n.Mov? || n.Cvt? || n.Setp? || n.SetpFloat? || n.Alu? || n.Mad? || n.Not? || n.Neg? || n.FloatToInt?) ==> n.d in a.i
    ensures (n.LdParam? || n.Ld?) ==> if n.float then n.d in a.f else n.d in a.i
    ensures n.St? ==> if n.float then n.v in a.f else n.v in a.i
    ensures (n.Ld? || n.St?) && n.base != "" ==> n.base in a.i
    ensures (n.Mov? || n.Alu?) && n.a.Register? ==> n.a.name in a.i
    ensures (n.Setp? || n.Alu?) && n.b.Register? ==> n.b.name in a.i
    ensures (n.Cvt? || n.Setp? || n.Mad? || n.Not? || n.Neg? || n.IntToFloat?) ==> n.ra in a.i
    ensures n.Mad? ==> n.rb in a.i && n.rc in a.i
    ensures n.BraIf? ==> n.pred in a.i
    ensures (n.MovFloat? || n.Float? || n.Fma? || n.IntToFloat?) ==> n.d in a.f
    ensures (n.MovFloat? || n.SetpFloat? || n.Float? || n.Fma? || n.FloatToInt?) ==> n.fa in a.f
    ensures (n.SetpFloat? || n.Float? || n.Fma?) ==> n.fb in a.f
    ensures n.Fma? ==> n.fc in a.f
  {
    NameHas(a, n, 0);
    NameHas(a, n, 1);
    NameHas(a, n, 2);
    NameHas(a, n, 3);
  }

  lemma FlagIs(b: bool)
    ensures Flag(b) == if b then 1 else 0
  {
  }

  lemma CompareSimulated<M(!new)>(p: Platform<M>, a: Alloc, l: Launch, gp: Word, n: Instr, s: Thread<M>, t: State<M>)
    requires Sound(a) && Fitting(a) && Has(a, n) && Holds(a, l, gp, s, t) && InFragment(n)
    requires n.Setp? || n.SetpFloat?
    ensures Holds(a, l, gp, PtxEffect(p, l, n, s), Effects(p, Lines(a, n, 0), t))
  {
    hide Effect, Effects, SetpLines, SetpFloatLines, Compare, CompareFloat, Computes, Ir, Fr, Flag, ToWord, Has, Holds;
    Names(a, n);
    Allocated(a, n.d);
    HoldsBasics(a, l, gp, s, t);
    if n.SetpFloat? {
      HoldsFloat(a, l, gp, s, t, n.fa);
      HoldsFloat(a, l, gp, s, t, n.fb);
      SetpFloats(p, n.cmp, Ir(a, n.d), Fr(a, n.fa), Fr(a, n.fb), t);
      FlagIs(CompareFloat(p, n.cmp, s.f(n.fa), s.f(n.fb)));
      Assigned(a, l, gp, s, t, Effects(p, Lines(a, n, 0), t), n.d, Flag(CompareFloat(p, n.cmp, s.f(n.fa), s.f(n.fb))));
    } else {
      HoldsInt(a, l, gp, s, t, n.ra);
      if n.b.Register? {
        HoldsInt(a, l, gp, s, t, n.b.name);
        SetpRegister(p, a, n.cmp, n.signed, Ir(a, n.d), Ir(a, n.ra), n.b.name, t);
      } else {
        SetpLiteral(p, a, n.cmp, n.signed, Ir(a, n.d), Ir(a, n.ra), n.b.v, t);
      }
      FlagIs(Compare(n.cmp, n.signed, s.i(n.ra), ValueOf(s.i, n.b)));
      Assigned(a, l, gp, s, t, Effects(p, Lines(a, n, 0), t), n.d, Flag(Compare(n.cmp, n.signed, s.i(n.ra), ValueOf(s.i, n.b))));
    }
  }

  lemma HoldsBasics<M>(a: Alloc, l: Launch, gp: Word, s: Thread<M>, t: State<M>)
    requires Holds(a, l, gp, s, t)
    ensures t.r[0] == 0 && t.r[GP] == gp && t.mem == s.mem && t.barriers == s.barriers && t.halted == s.halted
    ensures forall k :: 0 <= k < 8 ==> t.r[10 + k] == ParamOf(l, k)
  {
    hide Ir, Fr;
  }

  lemma HoldsInt<M>(a: Alloc, l: Launch, gp: Word, s: Thread<M>, t: State<M>, n: Name)
    requires Holds(a, l, gp, s, t) && n in a.i
    ensures t.r[Ir(a, n)] == s.i(n)
  {
    hide Ir, Fr;
  }

  lemma HoldsFloat<M>(a: Alloc, l: Launch, gp: Word, s: Thread<M>, t: State<M>, n: Name)
    requires Holds(a, l, gp, s, t) && n in a.f
    ensures t.f[Fr(a, n)] == s.f(n)
  {
    hide Ir, Fr;
  }

  /** An arithmetic block computes its value, right or not. */
  lemma AluComputes<M(!new)>(p: Platform<M>, a: Alloc, n: Instr, s: Thread<M>, t: State<M>, l: Launch, gp: Word)
    requires Sound(a) && Fitting(a) && Has(a, n) && Holds(a, l, gp, s, t) && Assembles(n) && n.Alu? && Safe(n, s)
    ensures Computes(t, Effects(p, Lines(a, n, 0), t), Ir(a, n.d),
                     AluValue(n.op, n.signed, n.a, n.b, ValueOf(s.i, n.a), ValueOf(s.i, n.b)))
  {
    hide Effect, Effects, ImmediateLines, Arithmetic, RValue, Computes, Ir, ToWord, Has, Holds, SafeOperands, RegisterOp, AluAssembles;
    Names(a, n);
    Allocated(a, n.d);
    HoldsBasics(a, l, gp, s, t);
    if n.a.Register? {
      Allocated(a, n.a.name);
      HoldsInt(a, l, gp, s, t, n.a.name);
    }
    var rd, ra := Ir(a, n.d), Source(a, n.a);
    if n.b.Register? {
      HoldsInt(a, l, gp, s, t, n.b.name);
      RegisterComputes(p, n.op, n.signed, rd, ra, Ir(a, n.b.name), ValueOf(s.i, n.a), t);
    } else if Divides(n.op) {
      LiteralDivision(p, n.op, n.signed, rd, ra, n.b.v, t);
    } else {
      AluLiteral(p, n.op, n.signed, rd, ra, n.b.v, t);
    }
  }

  lemma RegisterComputes<M>(p: Platform<M>, op: AluOp, signed: bool, rd: Reg, ra: Reg, rb: Reg, x: Word, t: State<M>)
    requires rd != 0 && SafeOperands(op, signed, x, t.r[rb]) && (t.r[ra] == x || t.r[ra] == 0)
    ensures Computes(t, Effects(p, [R(RegisterOp(op, signed), rd, ra, rb)], t), rd, Arithmetic(op, signed, t.r[ra], t.r[rb]))
  {
    hide Effect, Effects, Arithmetic, RValue, Computes, RegisterOp, SafeOperands;
    var rop := RegisterOp(op, signed);
    SafeZero(op, signed, x, t.r[rb]);
    RegisterOpMeans(op, signed, t.r[ra], t.r[rb]);
    EffectR(p, rop, rd, ra, rb, t);
    TestOne(p, R(rop, rd, ra, rb), t, rd, RValue(rop, t.r[ra], t.r[rb]));
  }

  lemma SafeZero(op: AluOp, signed: bool, x: Word, y: Word)
    requires SafeOperands(op, signed, x, y)
    ensures SafeOperands(op, signed, 0, y)
  {
    hide Below;
  }

  /** Division by a literal divides by x0. */
  lemma LiteralDivision<M>(p: Platform<M>, op: AluOp, signed: bool, rd: Reg, ra: Reg, v: int, t: State<M>)
    requires rd != 0 && t.r[0] == 0 && Divides(op)
    ensures Computes(t, Effects(p, ImmediateLines(op, signed, rd, ra, v), t), rd, if op.ALU_DIV? then MINUS_ONE else t.r[ra])
  {
    hide Effect, Effects, Computes;
    var rop := RegisterOp(op, signed);
    EffectR(p, rop, rd, ra, 0, t);
    TestOne(p, R(rop, rd, ra, 0), t, rd, RValue(rop, t.r[ra], 0));
  }

  lemma ExactValue(op: AluOp, signed: bool, a: Operand, b: Operand, x: Word, y: Word)
    requires AluExact(op, signed, a, b) && SafeOperands(op, signed, x, y)
    requires (a.Immediate? ==> x == ToWord(a.v)) && (b.Immediate? ==> y == ToWord(b.v))
    ensures AluValue(op, signed, a, b, x, y) == Arithmetic(op, signed, x, y)
  {
    hide ToWord, Arithmetic, Below;
  }

  lemma AluSimulated<M(!new)>(p: Platform<M>, a: Alloc, l: Launch, gp: Word, n: Instr, s: Thread<M>, t: State<M>)
    requires Sound(a) && Fitting(a) && Has(a, n) && Holds(a, l, gp, s, t) && InFragment(n)
    requires n.Alu? && Safe(n, s)
    ensures Holds(a, l, gp, PtxEffect(p, l, n, s), Effects(p, Lines(a, n, 0), t))
  {
    hide Effects, Lines, Arithmetic, Computes, ToWord, Has, Holds, SafeOperands, AluValue, AluExact;
    Names(a, n);
    AluComputes(p, a, n, s, t, l, gp);
    ExactValue(n.op, n.signed, n.a, n.b, ValueOf(s.i, n.a), ValueOf(s.i, n.b));
    Assigned(a, l, gp, s, t, Effects(p, Lines(a, n, 0), t), n.d, Arithmetic(n.op, n.signed, ValueOf(s.i, n.a), ValueOf(s.i, n.b)));
  }

  lemma WordSimulated<M(!new)>(p: Platform<M>, a: Alloc, l: Launch, gp: Word, n: Instr, s: Thread<M>, t: State<M>)
    requires Sound(a) && Fitting(a) && Has(a, n) && Holds(a, l, gp, s, t) && InFragment(n)
    requires n.Mad? || n.Not? || n.Neg?
    ensures Holds(a, l, gp, PtxEffect(p, l, n, s), Effects(p, Lines(a, n, 0), t))
  {
    hide Effect, Effects, Computes, Ir, Has, Holds, Sound, Product, Isa.Sum, Isa.Difference, Isa.BitXor;
    Names(a, n);
    Allocated(a, n.d);
    HoldsBasics(a, l, gp, s, t);
    HoldsInt(a, l, gp, s, t, n.ra);
    var rd, ra := Ir(a, n.d), Ir(a, n.ra);
    var t' := Effects(p, Lines(a, n, 0), t);
    if n.Mad? {
      HoldsInt(a, l, gp, s, t, n.rb);
      HoldsInt(a, l, gp, s, t, n.rc);
      MadExact(p, rd, ra, Ir(a, n.rb), Ir(a, n.rc), t);
      Assigned(a, l, gp, s, t, t', n.d, Isa.Sum(Product(s.i(n.ra), s.i(n.rb)), s.i(n.rc)));
    } else if n.Not? {
      EffectI(p, XORI, rd, ra, MINUS_ONE, t);
      TestOne(p, I(XORI, rd, ra, MINUS_ONE), t, rd, Isa.BitXor(s.i(n.ra), MINUS_ONE));
      Assigned(a, l, gp, s, t, t', n.d, Isa.BitXor(s.i(n.ra), MINUS_ONE));
    } else {
      EffectR(p, SUB, rd, 0, ra, t);
      TestOne(p, R(SUB, rd, 0, ra), t, rd, Isa.Difference(0, s.i(n.ra)));
      Assigned(a, l, gp, s, t, t', n.d, Isa.Difference(0, s.i(n.ra)));
    }
  }

  lemma MoveSimulated<M(!new)>(p: Platform<M>, a: Alloc, l: Launch, gp: Word, n: Instr, s: Thread<M>, t: State<M>)
    requires Sound(a) && Fitting(a) && Has(a, n) && Holds(a, l, gp, s, t) && InFragment(n)
    requires n.LdParam? || n.MovSpecial? || n.Mov? || n.Cvt? || n.MovFloat?
    requires Context(p, l, gp, s.mem)
    ensures Holds(a, l, gp, PtxEffect(p, l, n, s), Effects(p, Lines(a, n, 0), t))
  {
    hide Effect, Effects, Computes, Ir, Fr, Has, Holds, Sound, Context, ToWord, Li, Address, MoveLines;
    Names(a, n);
    HoldsBasics(a, l, gp, s, t);
    var t' := Effects(p, Lines(a, n, 0), t);
    if n.LdParam? {
      ParamSimulated(p, a, l, gp, n, s, t);
    } else if n.MovSpecial? {
      Allocated(a, n.d);
      SpecialLoaded(p, l, gp, s.mem, n.special);
      EffectLw(p, Ir(a, n.d), GP, ToWord(4 * n.special), t);
      TestOne(p, LW(Ir(a, n.d), GP, ToWord(4 * n.special)), t, Ir(a, n.d), l.special(n.special));
      Assigned(a, l, gp, s, t, t', n.d, l.special(n.special));
    } else if n.Mov? {
      Allocated(a, n.d);
      if n.a.Register? {
        HoldsInt(a, l, gp, s, t, n.a.name);
      }
      MoveComputes(p, a, n.d, n.a, t);
      Assigned(a, l, gp, s, t, t', n.d, ValueOf(s.i, n.a));
    } else if n.Cvt? {
      Allocated(a, n.d);
      HoldsInt(a, l, gp, s, t, n.ra);
      MoveComputes(p, a, n.d, Register(n.ra), t);
      Assigned(a, l, gp, s, t, t', n.d, s.i(n.ra));
    } else {
      EffectsOne(p, UNKNOWN, t);
      assert t' == t by { EffectUnknown(p, t); }
      SameValues(a, l, gp, s, t, n.d);
    }
  }

  lemma EffectUnknown<M>(p: Platform<M>, t: State<M>)
    ensures Effect(p, UNKNOWN, t) == t && Effect(p, FENCE, t) == t
  {
  }

  lemma EffectLw<M>(p: Platform<M>, rd: Reg, rs1: Reg, imm: Word, t: State<M>)
    ensures Effect(p, LW(rd, rs1, imm), t) == t.(r := SetReg(t.r, rd, p.load(t.mem, Address(t.r[rs1], imm))))
  {
    hide Address, SetReg;
  }

  lemma SpecialLoaded<M(!new)>(p: Platform<M>, l: Launch, gp: Word, mem: M, k: nat)
    requires Context(p, l, gp, mem) && k < 9
    ensures p.load(mem, Address(gp, ToWord(4 * k))) == l.special(k)
  {
    hide Address, ToWord;
  }

  lemma SameValues<M>(a: Alloc, l: Launch, gp: Word, s: Thread<M>, t: State<M>, d: Name)
    requires Holds(a, l, gp, s, t)
    ensures Holds(a, l, gp, s.(f := Assign(s.f, d, s.f(d))), t)
  {
    hide Ir, Fr;
  }

  lemma MoveComputes<M>(p: Platform<M>, a: Alloc, d: Name, o: Operand, t: State<M>)
    requires t.r[0] == 0 && Ir(a, d) != 0
    ensures Computes(t, Effects(p, MoveLines(a, d, o), t), Ir(a, d), if o.Register? then t.r[Ir(a, o.name)] else ToWord(o.v))
  {
    hide Effect, Effects, Ir, ToWord, Li, Isa.Sum;
    var rd := Ir(a, d);
    if o.Immediate? {
      LiLoads(p, rd, o.v, t);
    } else if rd == Ir(a, o.name) {
      assert Effects(p, [], t) == t by { NoEffects(p, t); }
    } else {
      var rs := Ir(a, o.name);
      SumZero(t.r[rs]);
      EffectI(p, ADDI, rd, rs, 0, t);
      TestOne(p, Mv(rd, rs), t, rd, t.r[rs]);
    }
  }

  lemma NoEffects<M>(p: Platform<M>, t: State<M>)
    ensures Effects(p, [], t) == t
  {
  }

  lemma ParamSimulated<M(!new)>(p: Platform<M>, a: Alloc, l: Launch, gp: Word, n: Instr, s: Thread<M>, t: State<M>)
    requires Sound(a) && Fitting(a) && Has(a, n) && Holds(a, l, gp, s, t) && InFragment(n)
    requires n.LdParam?
    ensures Holds(a, l, gp, PtxEffect(p, l, n, s), Effects(p, Lines(a, n, 0), t))
  {
    hide Effect, Effects, Computes, Ir, Fr, Has, Holds, Sound, Isa.Sum, ParamOf;
    Names(a, n);
    HoldsBasics(a, l, gp, s, t);
    var x, t' := 10 + n.index, Effects(p, Lines(a, n, 0), t);
    var w := ParamOf(l, n.index);
    assert t.r[x] == w;
    if n.float {
      EffectsOne(p, FMV_W_X(Fr(a, n.d), x), t);
      EffectFmv(p, Fr(a, n.d), x, t);
      AssignedFloat(a, l, gp, s, t, t', n.d, w);
    } else {
      Allocated(a, n.d);
      SumZero(w);
      EffectI(p, ADDI, Ir(a, n.d), x, 0, t);
      TestOne(p, Mv(Ir(a, n.d), x), t, Ir(a, n.d), w);
      Assigned(a, l, gp, s, t, t', n.d, w);
    }
  }

  lemma EffectFmv<M>(p: Platform<M>, fd: Reg, rs1: Reg, t: State<M>)
    ensures Effect(p, FMV_W_X(fd, rs1), t) == t.(f := t.f[fd := t.r[rs1]])
  {
  }

  lemma FloatSimulated<M(!new)>(p: Platform<M>, a: Alloc, l: Launch, gp: Word, n: Instr, s: Thread<M>, t: State<M>)
    requires Sound(a) && Fitting(a) && Has(a, n) && Holds(a, l, gp, s, t) && InFragment(n)
    requires n.Float? || n.Fma? || n.IntToFloat? || n.FloatToInt?
    ensures Holds(a, l, gp, PtxEffect(p, l, n, s), Effects(p, Lines(a, n, 0), t))
  {
    hide Effect, Effects, Computes, Ir, Fr, Has, Holds, Sound, FValue, FloatOp;
    Names(a, n);
    var x := Lines(a, n, 0)[0];
    EffectsOne(p, x, t);
    if n.FloatToInt? {
      Allocated(a, n.d);
      HoldsFloat(a, l, gp, s, t, n.fa);
      EffectToInt(p, Ir(a, n.d), Fr(a, n.fa), t);
      TestOne(p, x, t, Ir(a, n.d), p.toInt(s.f(n.fa)));
      Assigned(a, l, gp, s, t, Effects(p, [x], t), n.d, p.toInt(s.f(n.fa)));
    } else {
      FloatWritten(p, a, l, gp, n, s, t, x);
    }
  }

  lemma EffectToInt<M>(p: Platform<M>, rd: Reg, fs1: Reg, t: State<M>)
    ensures Effect(p, FCVT_W_S(rd, fs1), t) == t.(r := SetReg(t.r, rd, p.toInt(t.f[fs1])))
  {
    hide SetReg;
  }

  lemma FloatOps<M>(p: Platform<M>, op: FOp, a: Word, b: Word)
    ensures FValue(p, op, a, b) == FloatOp(p, op, a, b)
  {
  }

  lemma FloatWritten<M(!new)>(p: Platform<M>, a: Alloc, l: Launch, gp: Word, n: Instr, s: Thread<M>, t: State<M>, x: Rv)
    requires Sound(a) && Fitting(a) && Has(a, n) && Holds(a, l, gp, s, t)
    requires n.Float? || n.Fma? || n.IntToFloat?
    requires Lines(a, n, 0) == [x]
    ensures Holds(a, l, gp, PtxEffect(p, l, n, s), Effect(p, x, t))
  {
    hide Computes, Ir, Fr, Has, Holds, Sound, FValue, FloatOp;
    Names(a, n);
    var t' := Effect(p, x, t);
    if n.IntToFloat? {
      HoldsInt(a, l, gp, s, t, n.ra);
      AssignedFloat(a, l, gp, s, t, t', n.d, p.toFloat(s.i(n.ra)));
    } else {
      HoldsFloat(a, l, gp, s, t, n.fa);
      HoldsFloat(a, l, gp, s, t, n.fb);
      if n.Fma? {
        HoldsFloat(a, l, gp, s, t, n.fc);
        AssignedFloat(a, l, gp, s, t, t', n.d, p.fmadd(s.f(n.fa), s.f(n.fb), s.f(n.fc)));
      } else {
        FloatOps(p, n.fop, s.f(n.fa), s.f(n.fb));
        AssignedFloat(a, l, gp, s, t, t', n.d, FValue(p, n.fop, s.f(n.fa), s.f(n.fb)));
      }
    }
  }

  /** The instruction that makes a memory line's access. */
  function Access(a: Alloc, n: Instr): Rv
    requires n.Ld? || n.St?
  {
    var base := if n.shared then T6 else Ir(a, n.base);
    if n.Ld? then
      if n.float then FLW(Fr(a, n.d), base, ToWord(n.offset)) else LW(Ir(a, n.d), base, ToWord(n.offset))
    else
      if n.float then FSW(Fr(a, n.v), base, ToWord(n.offset)) else SW(Ir(a, n.v), base, ToWord(n.offset))
  }

  lemma AccessLines(a: Alloc, n: Instr)
    requires n.Ld? || n.St?
    ensures Lines(a, n, 0) == (if n.shared then SharedBase(a, n.base) else []) + [Access(a, n)]
  {
    hide SharedBase, Ir, Fr, ToWord;
  }

  lemma MemorySimulated<M(!new)>(p: Platform<M>, a: Alloc, l: Launch, gp: Word, n: Instr, s: Thread<M>, t: State<M>)
    requires Sound(a) && Fitting(a) && Has(a, n) && Holds(a, l, gp, s, t) && InFragment(n)
    requires n.Ld? || n.St?
    ensures Holds(a, l, gp, PtxEffect(p, l, n, s), Effects(p, Lines(a, n, 0), t))
  {
    hide Effect, Effects, Ir, Fr, Has, Holds, Sound, Address, PtxAddress, SharedBase, Lines, ToWord;
    Names(a, n);
    HoldsBasics(a, l, gp, s, t);
    if n.base != "" {
      Allocated(a, n.base);
      HoldsInt(a, l, gp, s, t, n.base);
    }
    AccessLines(a, n);
    var before := if n.shared then SharedBase(a, n.base) else [];
    var u := Effects(p, before, t);
    BaseLoaded(p, a, s, n.shared, n.base, n.offset, t);
    EffectsAppend(p, before, [Access(a, n)], t);
    EffectsOne(p, Access(a, n), u);
    AccessSimulated(p, a, l, gp, n, s, t, u);
  }

  lemma AccessSimulated<M>(p: Platform<M>, a: Alloc, l: Launch, gp: Word, n: Instr, s: Thread<M>, t: State<M>, u: State<M>)
    requires Sound(a) && Fitting(a) && Has(a, n) && Holds(a, l, gp, s, t) && (n.Ld? || n.St?)
    requires u == t.(r := u.r) && forall k :: 0 <= k < 32 && k != T6 ==> u.r[k] == t.r[k]
    requires Address(u.r[if n.shared then T6 else Ir(a, n.base)], ToWord(n.offset)) == PtxAddress(s.i, n.shared, n.base, n.offset)
    ensures Holds(a, l, gp, PtxEffect(p, l, n, s), Effect(p, Access(a, n), u))
  {
    hide Ir, Fr, Has, Holds, Sound, Address, PtxAddress, ToWord, Effect, PtxEffect, Access;
    if n.Ld? {
      LoadSimulated(p, a, l, gp, n, s, t, u);
    } else {
      StoreSimulated(p, a, l, gp, n, s, t, u);
    }
  }

  lemma StoreEffects<M>(p: Platform<M>, a: Alloc, l: Launch, n: Instr, s: Thread<M>, u: State<M>)
    requires n.St?
    ensures var base := if n.shared then T6 else Ir(a, n.base);
            Effect(p, Access(a, n), u)
            == u.(mem := p.store(u.mem, Address(u.r[base], ToWord(n.offset)), if n.float then u.f[Fr(a, n.v)] else u.r[Ir(a, n.v)]))
    ensures PtxEffect(p, l, n, s)
            == s.(mem := p.store(s.mem, PtxAddress(s.i, n.shared, n.base, n.offset), if n.float then s.f(n.v) else s.i(n.v)))
  {
    hide Ir, Fr, Address, PtxAddress, ToWord;
  }

  lemma LoadSimulated<M>(p: Platform<M>, a: Alloc, l: Launch, gp: Word, n: Instr, s: Thread<M>, t: State<M>, u: State<M>)
    requires Sound(a) && Fitting(a) && Has(a, n) && Holds(a, l, gp, s, t) && n.Ld?
    requires u == t.(r := u.r) && forall k :: 0 <= k < 32 && k != T6 ==> u.r[k] == t.r[k]
    requires Address(u.r[if n.shared then T6 else Ir(a, n.base)], ToWord(n.offset)) == PtxAddress(s.i, n.shared, n.base, n.offset)
    ensures Holds(a, l, gp, PtxEffect(p, l, n, s), Effect(p, Access(a, n), u))
  {
    hide Ir, Fr, Has, Holds, Sound, Address, PtxAddress, ToWord, Computes, Fitting, SetReg;
    Names(a, n);
    HoldsBasics(a, l, gp, s, t);
    var where := PtxAddress(s.i, n.shared, n.base, n.offset);
    var t' := Effect(p, Access(a, n), u);
    var w := p.load(s.mem, where);
    if n.float {
      AssignedFloat(a, l, gp, s, t, t', n.d, w);
    } else {
      Allocated(a, n.d);
      SetComputes(t, u, t', Ir(a, n.d), w);
      Assigned(a, l, gp, s, t, t', n.d, w);
    }
  }

  lemma StoreSimulated<M>(p: Platform<M>, a: Alloc, l: Launch, gp: Word, n: Instr, s: Thread<M>, t: State<M>, u: State<M>)
    requires Sound(a) && Fitting(a) && Has(a, n) && Holds(a, l, gp, s, t) && n.St?
    requires u == t.(r := u.r) && forall k :: 0 <= k < 32 && k != T6 ==> u.r[k] == t.r[k]
    requires Address(u.r[if n.shared then T6 else Ir(a, n.base)], ToWord(n.offset)) == PtxAddress(s.i, n.shared, n.base, n.offset)
    ensures Holds(a, l, gp, PtxEffect(p, l, n, s), Effect(p, Access(a, n), u))
  {
    hide Ir, Fr, Has, Holds, Sound, Address, PtxAddress, ToWord, Fitting, Effect, PtxEffect, Access;
    StoreEffects(p, a, l, n, s, u);
    Names(a, n);
    HoldsBasics(a, l, gp, s, t);
    var where := PtxAddress(s.i, n.shared, n.base, n.offset);
    var t' := Effect(p, Access(a, n), u);
    var w := if n.float then s.f(n.v) else s.i(n.v);
    if n.float {
      HoldsFloat(a, l, gp, s, t, n.v);
    } else {
      Allocated(a, n.v);
      HoldsInt(a, l, gp, s, t, n.v);
    }
    Stored(a, l, gp, s, t, t', p.store(s.mem, where, w));
  }

  lemma SetComputes<M>(t: State<M>, u: State<M>, t': State<M>, d: Reg, w: Word)
    requires d != 0 && t' == t.(r := SetReg(u.r, d, w)) && forall k :: 0 <= k < 32 && k != T6 ==> u.r[k] == t.r[k]
    ensures Computes(t, t', d, w)
  {
  }

  predicate Control(n: Instr) { n.Bra? || n.BraIf? || n.Ret? }

  /** The block of a line does what the line does. */
  lemma LineSimulated<M(!new)>(p: Platform<M>, a: Alloc, l: Launch, gp: Word, n: Instr, s: Thread<M>, t: State<M>)
    requires Sound(a) && Fitting(a) && Has(a, n) && Holds(a, l, gp, s, t) && InFragment(n)
    requires !Control(n) && Safe(n, s) && Context(p, l, gp, s.mem)
    ensures Holds(a, l, gp, PtxEffect(p, l, n, s), Effects(p, Lines(a, n, 0), t))
  {
    hide Effects, Lines, PtxEffect, Has, Holds, Sound, Context, InFragment, Safe;
    if n.Setp? || n.SetpFloat? {
      CompareSimulated(p, a, l, gp, n, s, t);
    } else if n.Alu? {
      AluSimulated(p, a, l, gp, n, s, t);
    } else if n.Mad? || n.Not? || n.Neg? {
      WordSimulated(p, a, l, gp, n, s, t);
    } else if n.LdParam? || n.MovSpecial? || n.Mov? || n.Cvt? || n.MovFloat? {
      MoveSimulated(p, a, l, gp, n, s, t);
    } else if n.Ld? || n.St? {
      MemorySimulated(p, a, l, gp, n, s, t);
    } else if n.Float? || n.Fma? || n.IntToFloat? || n.FloatToInt? {
      FloatSimulated(p, a, l, gp, n, s, t);
    } else {
      QuietSimulated(p, a, l, gp, n, s, t);
    }
  }

  lemma QuietSimulated<M(!new)>(p: Platform<M>, a: Alloc, l: Launch, gp: Word, n: Instr, s: Thread<M>, t: State<M>)
    requires Sound(a) && Fitting(a) && Has(a, n) && Holds(a, l, gp, s, t) && InFragment(n)
    requires n.LabelDef? || n.Membar? || n.BarSync?
    ensures Holds(a, l, gp, PtxEffect(p, l, n, s), Effects(p, Lines(a, n, 0), t))
  {
    hide Has, Sound, Ir, Fr, Holds, Effect;
    if n.LabelDef? {
      NoEffects(p, t);
    } else if n.Membar? {
      EffectsOne(p, FENCE, t);
      EffectUnknown(p, t);
    } else {
      EffectsOne(p, BAR_SYNC(n.id), t);
      BarrierNoted(p, a, l, gp, n.id, s, t);
    }
  }

  lemma BarrierNoted<M>(p: Platform<M>, a: Alloc, l: Launch, gp: Word, id: nat, s: Thread<M>, t: State<M>)
    requires Holds(a, l, gp, s, t)
    ensures Holds(a, l, gp, s.(barriers := s.barriers + [id]), Effect(p, BAR_SYNC(id), t))
  {
    hide Ir, Fr;
  }

  // ----- Whole kernels -----

  /** Where line k's block starts. */
  function Pos(a: Alloc, body: seq<Instr>, k: nat): nat
    requires k <= |body|
  {
    if k == 0 then 0 else Pos(a, body, k - 1) + |Lines(a, body[k - 1], 0)|
  }

  function Target(a: Alloc, body: seq<Instr>, n: Instr): nat {
    if n.Bra? || n.BraIf? then Pos(a, body, LabelIndex(body, n.mark)) else 0
  }

  /** The blocks of the first k lines. */
  function CodeTo(a: Alloc, body: seq<Instr>, k: nat): (code: seq<Rv>)
    requires k <= |body|
  {
    if k == 0 then [] else CodeTo(a, body, k - 1) + Lines(a, body[k - 1], Target(a, body, body[k - 1]))
  }

  function Code(a: Alloc, body: seq<Instr>): seq<Rv> { CodeTo(a, body, |body|) }

  datatype Emitted = Emitted(code: seq<Rv>) | Failed

  function Allocation(body: seq<Instr>): Alloc { AllocAll(NO_REGISTERS, body) }

  function Emit(body: seq<Instr>): Emitted {
    if Fitting(Allocation(body)) && forall k :: 0 <= k < |body| ==> Accepted(body[k]) then Emitted(Code(Allocation(body), body)) else Failed
  }

  lemma LinesTarget(a: Alloc, n: Instr, x: nat)
    ensures |Lines(a, n, x)| == |Lines(a, n, 0)| && (!Control(n) ==> Lines(a, n, x) == Lines(a, n, 0))
  {
    hide Ir, Fr, ToWord, SetpLines, SetpFloatLines, AluLines, SharedBase, MoveLines, Source;
  }

  lemma {:induction false} CodeLength(a: Alloc, body: seq<Instr>, k: nat)
    requires k <= |body|
    ensures |CodeTo(a, body, k)| == Pos(a, body, k)
  {
    hide Lines;
    if k > 0 {
      CodeLength(a, body, k - 1);
      LinesTarget(a, body[k - 1], Target(a, body, body[k - 1]));
    }
  }

  lemma {:induction false} CodePrefix(a: Alloc, body: seq<Instr>, j: nat, k: nat)
    requires j <= k <= |body|
    ensures |CodeTo(a, body, j)| <= |CodeTo(a, body, k)| && CodeTo(a, body, k)[..|CodeTo(a, body, j)|] == CodeTo(a, body, j)
    decreases k - j
  {
    hide Lines;
    if j < k {
      CodePrefix(a, body, j, k - 1);
    }
  }

  lemma BlockInPlace(a: Alloc, body: seq<Instr>, k: nat)
    requires k < |body|
    ensures var x, size := Pos(a, body, k), |Lines(a, body[k], 0)|;
            Pos(a, body, k + 1) == x + size <= |Code(a, body)|
            && Code(a, body)[x..x + size] == Lines(a, body[k], Target(a, body, body[k]))
  {
    hide Lines, Target;
    var block := Lines(a, body[k], Target(a, body, body[k]));
    LinesTarget(a, body[k], Target(a, body, body[k]));
    CodeLength(a, body, k);
    CodeLength(a, body, k + 1);
    CodePrefix(a, body, k + 1, |body|);
    var prefix, x := CodeTo(a, body, k), Pos(a, body, k);
    assert CodeTo(a, body, k + 1) == prefix + block;
    assert Code(a, body)[x..x + |block|] == (prefix + block)[x..x + |block|] == block;
  }

  /** Thread and machine at the same line, in the same state. */
  ghost predicate Related<M>(a: Alloc, l: Launch, gp: Word, body: seq<Instr>, s: Thread<M>, t: State<M>) {
    Holds(a, l, gp, s, t) && s.pc <= |body| && t.pc == Pos(a, body, s.pc)
  }

  /** The line about to run is in the fragment, its branch target exists, its
      operands are in range, and the context block is intact. */
  ghost predicate Fine<M(!new)>(p: Platform<M>, l: Launch, gp: Word, body: seq<Instr>, s: Thread<M>) {
    && s.pc < |body| && InFragment(body[s.pc]) && Safe(body[s.pc], s) && Context(p, l, gp, s.mem)
    && (body[s.pc].Bra? || body[s.pc].BraIf? ==> LabelDef(body[s.pc].mark) in body)
  }

  predicate AllStraight(block: seq<Rv>) { forall k :: 0 <= k < |block| ==> Straight(block[k]) }

  lemma LinesStraight(a: Alloc, n: Instr)
    requires !Control(n)
    ensures AllStraight(Lines(a, n, 0))
  {
    hide Ir, Fr, ToWord, ImmediateLines, SetpLines, SetpFloatLines, SharedBase, Source;
    if n.Alu? && n.b.Immediate? {
      ImmediateStraight(n.op, n.signed, Ir(a, n.d), Source(a, n.a), n.b.v);
    } else if n.Ld? || n.St? {
      SharedStraight(a, n.base);
    } else if n.Setp? {
      SetpStraight(a, n.cmp, n.signed, Ir(a, n.d), Ir(a, n.ra), n.b);
    } else if n.SetpFloat? {
      SetpFloatStraight(n.cmp, Ir(a, n.d), Fr(a, n.fa), Fr(a, n.fb));
    }
  }

  lemma SetpStraight(a: Alloc, cmp: Cmp, signed: bool, d: Reg, ra: Reg, b: Operand)
    ensures AllStraight(SetpLines(a, cmp, signed, d, ra, b))
  {
    hide ToWord, Ir;
  }

  lemma SetpFloatStraight(cmp: Cmp, d: Reg, fa: Reg, fb: Reg)
    ensures AllStraight(SetpFloatLines(cmp, d, fa, fb))
  {
  }

  lemma ImmediateStraight(op: AluOp, signed: bool, rd: Reg, ra: Reg, v: int)
    ensures AllStraight(ImmediateLines(op, signed, rd, ra, v))
  {
    hide ToWord, Log2, IsPower;
  }

  lemma SharedStraight(a: Alloc, base: Name)
    ensures AllStraight(SharedBase(a, base))
  {
    hide ToWord, Ir;
  }

  /** Machine steps a line takes. */
  function Cost<M>(a: Alloc, body: seq<Instr>, s: Thread<M>): nat {
    if s.halted || s.pc >= |body| then 0 else |Lines(a, body[s.pc], 0)|
  }

  /** One source step is matched by the steps of its block. */
  lemma StepSimulated<M(!new)>(p: Platform<M>, a: Alloc, l: Launch, gp: Word, body: seq<Instr>, s: Thread<M>, t: State<M>)
    requires Sound(a) && Fitting(a) && (forall k :: 0 <= k < |body| ==> Has(a, body[k]))
    requires Related(a, l, gp, body, s, t) && (s.halted || Fine(p, l, gp, body, s))
    ensures Related(a, l, gp, body, PtxStep(p, l, body, s), Steps(p, Code(a, body), t, Cost(a, body, s)))
  {
    hide Sound, Fitting, Has, Holds, Lines, Code, Effects, PtxEffect, InFragment, Safe, Context, Step;
    if !s.halted {
      HoldsBasics(a, l, gp, s, t);
      if Control(body[s.pc]) {
        ControlSimulated(p, a, l, gp, body, s, t);
      } else {
        StraightSimulated(p, a, l, gp, body, s, t);
      }
    }
  }

  lemma StraightSimulated<M(!new)>(p: Platform<M>, a: Alloc, l: Launch, gp: Word, body: seq<Instr>, s: Thread<M>, t: State<M>)
    requires Sound(a) && Fitting(a) && (forall k :: 0 <= k < |body| ==> Has(a, body[k]))
    requires Related(a, l, gp, body, s, t) && !s.halted && !t.halted && Fine(p, l, gp, body, s) && !Control(body[s.pc])
    ensures Related(a, l, gp, body, PtxEffect(p, l, body[s.pc], s).(pc := s.pc + 1), Steps(p, Code(a, body), t, |Lines(a, body[s.pc], 0)|))
  {
    hide Sound, Fitting, Has, Holds, Lines, Code, Effects, PtxEffect, InFragment, Safe, Context;
    var n := body[s.pc];
    var block := Lines(a, n, 0);
    BlockInPlace(a, body, s.pc);
    LinesTarget(a, n, Target(a, body, n));
    LinesStraight(a, n);
    RunStraight(p, Code(a, body), t, block);
    LineSimulated(p, a, l, gp, n, s, t);
    HoldsAnywhere(a, l, gp, PtxEffect(p, l, n, s), Effects(p, block, t), s.pc + 1, t.pc + |block|);
  }

  lemma HoldsAnywhere<M>(a: Alloc, l: Launch, gp: Word, s: Thread<M>, t: State<M>, x: nat, y: nat)
    requires Holds(a, l, gp, s, t)
    ensures Holds(a, l, gp, s.(pc := x), t.(pc := y))
  {
    hide Ir, Fr;
  }

  lemma ControlSimulated<M(!new)>(p: Platform<M>, a: Alloc, l: Launch, gp: Word, body: seq<Instr>, s: Thread<M>, t: State<M>)
    requires Sound(a) && Fitting(a) && (forall k :: 0 <= k < |body| ==> Has(a, body[k]))
    requires Related(a, l, gp, body, s, t) && !s.halted && !t.halted && Fine(p, l, gp, body, s) && Control(body[s.pc])
    ensures Related(a, l, gp, body, PtxStep(p, l, body, s), Steps(p, Code(a, body), t, |Lines(a, body[s.pc], 0)|))
  {
    hide Sound, Fitting, Has, Holds, Code, Ir, Fr, InFragment, Safe, Context, Step, PtxStep, Lines;
    var n, code := body[s.pc], Code(a, body);
    BlockInPlace(a, body, s.pc);
    OneInstruction(a, n, Target(a, body, n));
    LinesTarget(a, n, Target(a, body, n));
    assert code[t.pc] == code[t.pc..t.pc + 1][0];
    assert Steps(p, code, t, 1) == Step(p, code, t);
    if n.Ret? {
      ReturnSimulated(p, a, l, gp, body, code, s, t);
    } else {
      BranchSimulated(p, a, l, gp, body, code, s, t);
    }
  }

  /** A control line is one instruction. */
  lemma OneInstruction(a: Alloc, n: Instr, x: nat)
    requires Control(n)
    ensures Lines(a, n, x) == [if n.Bra? then JAL(x) else if n.Ret? then RET
                               else if n.negated then BEQZ(Ir(a, n.pred), x) else BNEZ(Ir(a, n.pred), x)]
  {
    hide Ir, Fr;
  }

  lemma ReturnSimulated<M(!new)>(p: Platform<M>, a: Alloc, l: Launch, gp: Word, body: seq<Instr>, code: seq<Rv>, s: Thread<M>, t: State<M>)
    requires Related(a, l, gp, body, s, t) && !s.halted && !t.halted && s.pc < |body| && body[s.pc].Ret?
    requires t.pc < |code| && code[t.pc] == RET
    ensures Related(a, l, gp, body, PtxStep(p, l, body, s), Step(p, code, t))
  {
    hide Holds, Effect, PtxEffect;
    ReturnHalts(a, l, gp, s, t);
  }

  lemma BranchSimulated<M(!new)>(p: Platform<M>, a: Alloc, l: Launch, gp: Word, body: seq<Instr>, code: seq<Rv>, s: Thread<M>, t: State<M>)
    requires Related(a, l, gp, body, s, t) && !s.halted && !t.halted && s.pc < |body| && Has(a, body[s.pc])
    requires body[s.pc].Bra? || body[s.pc].BraIf?
    requires LabelDef(body[s.pc].mark) in body
    requires var n, x := body[s.pc], Target(a, body, body[s.pc]);
             t.pc < |code| && code[t.pc] == (if n.Bra? then JAL(x) else if n.negated then BEQZ(Ir(a, n.pred), x) else BNEZ(Ir(a, n.pred), x))
    requires Pos(a, body, s.pc + 1) == t.pc + 1
    ensures Related(a, l, gp, body, PtxStep(p, l, body, s), Step(p, code, t))
  {
    hide Holds, Effect, PtxEffect, Ir, Fr, Pos, LabelIndex, Has;
    var n := body[s.pc];
    if n.BraIf? {
      Names(a, n);
      HoldsInt(a, l, gp, s, t, n.pred);
    }
    HoldsAnywhere(a, l, gp, s, t, PtxStep(p, l, body, s).pc, Step(p, code, t).pc);
  }

  lemma ReturnHalts<M>(a: Alloc, l: Launch, gp: Word, s: Thread<M>, t: State<M>)
    requires Holds(a, l, gp, s, t)
    ensures t.r[RA] == SENTINEL && Holds(a, l, gp, s.(halted := true), t.(halted := true))
  {
    hide Ir, Fr;
  }

  function RunFor<M>(p: Platform<M>, l: Launch, body: seq<Instr>, s: Thread<M>, k: nat): Thread<M>
    decreases k
  {
    if k == 0 then s else RunFor(p, l, body, PtxStep(p, l, body, s), k - 1)
  }

  function CostFor<M>(p: Platform<M>, a: Alloc, l: Launch, body: seq<Instr>, s: Thread<M>, k: nat): nat
    decreases k
  {
    if k == 0 then 0 else Cost(a, body, s) + CostFor(p, a, l, body, PtxStep(p, l, body, s), k - 1)
  }

  /** Every line of the run is fine until the thread returns. */
  ghost predicate FineFor<M(!new)>(p: Platform<M>, l: Launch, gp: Word, body: seq<Instr>, s: Thread<M>, k: nat)
    decreases k
  {
    k == 0 || ((s.halted || Fine(p, l, gp, body, s)) && FineFor(p, l, gp, body, PtxStep(p, l, body, s), k - 1))
  }

  lemma {:induction false} StepsAdd<M>(p: Platform<M>, code: seq<Rv>, t: State<M>, m: nat, n: nat)
    ensures Steps(p, code, t, m + n) == Steps(p, code, Steps(p, code, t, m), n)
    decreases m
  {
    hide Step;
    if m > 0 {
      StepsAdd(p, code, Step(p, code, t), m - 1, n);
    }
  }

  lemma {:induction false} RunSimulated<M(!new)>(p: Platform<M>, a: Alloc, l: Launch, gp: Word, body: seq<Instr>, s: Thread<M>, t: State<M>, k: nat)
    requires Sound(a) && Fitting(a) && (forall k :: 0 <= k < |body| ==> Has(a, body[k]))
    requires Related(a, l, gp, body, s, t) && FineFor(p, l, gp, body, s, k)
    ensures Related(a, l, gp, body, RunFor(p, l, body, s, k), Steps(p, Code(a, body), t, CostFor(p, a, l, body, s, k)))
    decreases k
  {
    hide Sound, Fitting, Has, Related, Code, Step, PtxStep, Cost, Fine;
    if k > 0 {
      var c := Cost(a, body, s);
      StepSimulated(p, a, l, gp, body, s, t);
      var s', t' := PtxStep(p, l, body, s), Steps(p, Code(a, body), t, c);
      RunSimulated(p, a, l, gp, body, s', t', k - 1);
      StepsAdd(p, Code(a, body), t, c, CostFor(p, a, l, body, s', k - 1));
    }
  }

  /** The source takes the branch it is at. */
  predicate Taken<M>(n: Instr, s: Thread<M>) {
    n.Bra? || (n.BraIf? && if n.negated then s.i(n.pred) == 0 else s.i(n.pred) != 0)
  }

  /** A branch that is taken leads the machine to the code of the line that defines its
      label, and one that is not to the code of the next line. */
  lemma BranchLands<M(!new)>(p: Platform<M>, l: Launch, gp: Word, body: seq<Instr>, s: Thread<M>, t: State<M>)
    requires Emit(body).Emitted? && Related(Allocation(body), l, gp, body, s, t) && !s.halted
    requires Fine(p, l, gp, body, s) && (body[s.pc].Bra? || body[s.pc].BraIf?)
    ensures var a, n, t' := Allocation(body), body[s.pc], Step(p, Emit(body).code, t);
            if Taken(n, s) then exists k :: 0 <= k < |body| && body[k] == LabelDef(n.mark) && t'.pc == |CodeTo(a, body, k)|
            else t'.pc == |CodeTo(a, body, s.pc + 1)|
  {
    hide Related, Has, Code, AllocAll, CodeTo, Context, Step, InFragment, Safe, PtxStep, LabelIndex, Taken, Cost;
    AllocationGrows(NO_REGISTERS, body);
    var a, n := Allocation(body), body[s.pc];
    StepSimulated(p, a, l, gp, body, s, t);
    OneStep(p, a, l, gp, body, s, t);
    BranchGoes(p, l, body, s);
    AtLine(a, l, gp, body, PtxStep(p, l, body, s), Step(p, Code(a, body), t));
  }

  lemma BranchGoes<M>(p: Platform<M>, l: Launch, body: seq<Instr>, s: Thread<M>)
    requires s.pc < |body| && (body[s.pc].Bra? || body[s.pc].BraIf?) && !s.halted && LabelDef(body[s.pc].mark) in body
    ensures var n, x := body[s.pc], PtxStep(p, l, body, s).pc;
            if Taken(n, s) then x < |body| && body[x] == LabelDef(n.mark) else x == s.pc + 1
  {
  }

  lemma AtLine<M>(a: Alloc, l: Launch, gp: Word, body: seq<Instr>, s: Thread<M>, t: State<M>)
    requires Related(a, l, gp, body, s, t)
    ensures s.pc <= |body| && t.pc == |CodeTo(a, body, s.pc)|
  {
    hide Holds;
    CodeLength(a, body, s.pc);
  }

  lemma OneStep<M(!new)>(p: Platform<M>, a: Alloc, l: Launch, gp: Word, body: seq<Instr>, s: Thread<M>, t: State<M>)
    requires s.pc < |body| && (body[s.pc].Bra? || body[s.pc].BraIf?) && !s.halted
    ensures Steps(p, Code(a, body), t, Cost(a, body, s)) == Step(p, Code(a, body), t)
  {
    hide Code, Step;
    var code, u := Code(a, body), Step(p, Code(a, body), t);
    assert Steps(p, code, u, 0) == u;
    assert Steps(p, code, t, 1) == Steps(p, code, u, 0);
  }

  /** Compiler correctness: whenever emission succeeds and every line the run meets
      is in the fragment, the emitted code reaches the same memory, barrier
      sequence, branch decisions and return as the source, register for register. */
  lemma CompilerCorrect<M(!new)>(p: Platform<M>, l: Launch, gp: Word, body: seq<Instr>, s: Thread<M>, t: State<M>, k: nat)
    requires Emit(body).Emitted? && Related(Allocation(body), l, gp, body, s, t) && FineFor(p, l, gp, body, s, k)
    ensures var s', t' := RunFor(p, l, body, s, k), Steps(p, Emit(body).code, t, CostFor(p, Allocation(body), l, body, s, k));
            && Related(Allocation(body), l, gp, body, s', t')
            && t'.mem == s'.mem && t'.barriers == s'.barriers && t'.halted == s'.halted
            && s'.pc <= |body| && t'.pc == |CodeTo(Allocation(body), body, s'.pc)|
  {
    hide Holds, Has, Code, RunFor, CostFor, FineFor, Steps, AllocAll, CodeTo;
    AllocationGrows(NO_REGISTERS, body);
    var a := Allocation(body);
    RunSimulated(p, a, l, gp, body, s, t, k);
    AtLine(a, l, gp, body, RunFor(p, l, body, s, k), Steps(p, Emit(body).code, t, CostFor(p, a, l, body, s, k)));
    HoldsBasics(a, l, gp, RunFor(p, l, body, s, k), Steps(p, Emit(body).code, t, CostFor(p, a, l, body, s, k)));
  }

  /** Some machine state starts any thread: relatedness asks nothing of the source. */
  lemma StartExists<M(!new)>(body: seq<Instr>, l: Launch, gp: Word, t: State<M>)
    requires Emit(body).Emitted? && t.r[0] == 0 && t.r[RA] == SENTINEL && t.r[GP] == gp && t.pc == 0
    requires forall k :: 0 <= k < 8 ==> t.r[10 + k] == ParamOf(l, k)
    ensures var a := Allocation(body);
            var s := Thread((n: Name) => t.r[Ir(a, n)], (n: Name) => t.f[Fr(a, n)], t.mem, t.barriers, 0, t.halted);
            Related(a, l, gp, body, s, t)
  {
    hide Ir, Fr, AllocAll;
  }
}
