// For which lines the compiled block is right, exactly: what each failure of the
// compiler computes, and a state that shows it.

module Exactness {
  import Isa
  import opened Integers
  import opened Division
  import opened Rv32
  import opened Ptx
  import opened Emitter
  import opened Compiled

  type Word = Isa.Word

  // ----- Arithmetic with literals -----

  /** x is a value operand o can have. */
  predicate Valued(o: Operand, x: Word) { o.Immediate? ==> x == ToWord(o.v) }

  /** Dividing by a literal yields all ones, and a remainder the dividend: right
      exactly when the quotient or remainder happens to be that. */
  lemma LiteralDivisionRight(op: AluOp, signed: bool, a: Operand, v: int, x: Word)
    requires Compiled.Divides(op) && a.Register? && ToWord(v) != 0
    ensures AluValue(op, signed, a, Immediate(v), x, ToWord(v)) == Arithmetic(op, signed, x, ToWord(v))
            <==> if op.ALU_DIV? then GivesOnes(signed, x, ToWord(v)) else StaysWhole(signed, x, ToWord(v))
  {
    hide ToWord, UQuotient, SQuotient, URemainder, SRemainder, GivesOnes, StaysWhole;
    if op.ALU_DIV? {
      UnsignedOnes(x, ToWord(v));
      SignedOnes(x, ToWord(v));
    } else {
      UnsignedWhole(x, ToWord(v));
      SignedWhole(x, ToWord(v));
    }
  }

  /** A literal first source is read as 0. */
  lemma FirstSourceReadsZero(op: AluOp, signed: bool, v: int, b: Operand, x: Word, y: Word)
    ensures AluValue(op, signed, Immediate(v), b, x, y) == AluValue(op, signed, Immediate(0), b, 0, y)
    ensures b.Register? ==> AluValue(op, signed, Immediate(v), b, x, y) == Arithmetic(op, signed, 0, y)
  {
    hide Arithmetic;
  }

  /** For a literal that is not 0 some second operand tells. */
  lemma FirstSourceTells(op: AluOp, signed: bool, v: Word) returns (y: Word)
    requires v != 0
    ensures SafeOperands(op, signed, v, y) && Arithmetic(op, signed, 0, y) != Arithmetic(op, signed, v, y)
  {
    hide DivideWords, ModuloWords;
    if op.ALU_DIV? {
      y := v;
      OfNothing(signed, v);
      ByItself(signed, v);
    } else if op.ALU_REM? {
      y := SomeRest(signed, v);
      OfNothing(signed, y);
    } else if op.ALU_MUL? {
      y := 1;
      ByOneWord(v);
    } else if op.ALU_AND? {
      y := MINUS_ONE;
      WithOnes(v);
    } else {
      y := 0;
      WithZero(v);
      BelowIs(0, 32);
      CountZero();
    }
  }

  lemma ByOneWord(v: Word)
    ensures Product(v, 1) == v && Product(0, 1) == 0
  {
  }

  lemma WithOnes(v: Word)
    ensures Isa.BitAnd(v, MINUS_ONE) == v && Isa.BitAnd(0, MINUS_ONE) == 0
  {
  }

  lemma WithZero(v: Word)
    ensures Isa.Sum(v, 0) == v == Isa.Difference(v, 0) && Isa.BitOr(v, 0) == v == Isa.BitXor(v, 0)
  {
  }

  /** Operand values for which an arithmetic block that is not exact is wrong. */
  lemma AluWrong(op: AluOp, signed: bool, a: Operand, b: Operand) returns (x: Word, y: Word)
    requires !AluExact(op, signed, a, b)
    ensures Valued(a, x) && Valued(b, y) && SafeOperands(op, signed, x, y)
    ensures AluValue(op, signed, a, b, x, y) != Arithmetic(op, signed, x, y)
  {
    hide ToWord, DivideWords, ModuloWords, Shift;
    if a.Register? {
      y := ToWord(b.v);
      x := if op.ALU_DIV? then 0 else y;
      OfNothing(signed, y);
      ByItself(signed, y);
    } else {
      x := ToWord(a.v);
      if b.Register? {
        hide Arithmetic, SafeOperands;
        y := FirstSourceTells(op, signed, x);
      } else {
        hide Arithmetic, SafeOperands;
        y := ToWord(b.v);
      }
    }
  }

  /** An arithmetic block computes its operation for all operands exactly when: the
      divisor is not a literal, and a literal first source is 0 or makes no difference. */
  lemma AluExactIff(op: AluOp, signed: bool, a: Operand, b: Operand)
    ensures (forall x, y :: Valued(a, x) && Valued(b, y) && SafeOperands(op, signed, x, y)
               ==> AluValue(op, signed, a, b, x, y) == Arithmetic(op, signed, x, y))
            <==> AluExact(op, signed, a, b)
  {
    hide ToWord, Arithmetic, SafeOperands, AluValue, AluExact;
    if AluExact(op, signed, a, b) {
      forall x, y | Valued(a, x) && Valued(b, y) && SafeOperands(op, signed, x, y)
        ensures AluValue(op, signed, a, b, x, y) == Arithmetic(op, signed, x, y)
      {
        ExactValue(op, signed, a, b, x, y);
      }
    } else {
      var x, y := AluWrong(op, signed, a, b);
    }
  }

  // ----- Comparisons with literals -----

  /** For every literal that assembles, the compiled comparison is right exactly if it
      is not an unsigned greater-than or at-most with -1, whatever is compared. */
  lemma SetpExact<M>(p: Platform<M>, a: Alloc, cmp: Cmp, signed: bool, d: Reg, ra: Reg, v: int, t: State<M>)
    requires d != 0 && t.r[0] == 0 && SetpAssembles(cmp, v)
    ensures Effects(p, SetpLines(a, cmp, signed, d, ra, Immediate(v)), t).r[d] == Flag(Compare(cmp, signed, t.r[ra], ToWord(v)))
            <==> SetpRight(cmp, signed, v)
  {
    hide Effects, SetpLines, Flag, Compare, ToWord;
    if SetpRight(cmp, signed, v) {
      SetpLiteral(p, a, cmp, signed, d, ra, v, t);
    } else {
      SetpMinusOneWrong(p, a, cmp, d, ra, t);
    }
  }

  // ----- Moves between float registers -----

  /** A move between float registers does nothing: right exactly when the values agree. */
  lemma MovFloatExact<M(!new)>(p: Platform<M>, a: Alloc, l: Launch, gp: Word, d: Name, fa: Name, s: Thread<M>, t: State<M>)
    requires Has(a, MovFloat(d, fa)) && Holds(a, l, gp, s, t)
    ensures Effects(p, Lines(a, MovFloat(d, fa), 0), t) == t
    ensures Holds(a, l, gp, PtxEffect(p, l, MovFloat(d, fa), s), t) <==> s.f(d) == s.f(fa)
  {
    hide Effect, Effects, Ir, Fr;
    Names(a, MovFloat(d, fa));
    EffectsOne(p, UNKNOWN, t);
    EffectUnknown(p, t);
    HoldsFloat(a, l, gp, s, t, d);
  }

  // ----- States that tell -----

  function BaseFile(): File { seq(32, _ => 0)[RA := SENTINEL] }
  function ZeroFile(): File { seq(32, _ => 0) }

  /** A host that plants zero parameters; its context block is what memory holds. */
  function Host<M>(p: Platform<M>, mem: M): Launch {
    Launch([], (k: nat) => if k < SPECIALS then p.load(mem, Address(0, ToWord(4 * k))) else 1)
  }

  function ThreadIn<M>(a: Alloc, t: State<M>): Thread<M> {
    Thread((n: Name) => t.r[Ir(a, n)], (n: Name) => t.f[Fr(a, n)], t.mem, t.barriers, 0, t.halted)
  }

  function Machine<M>(mem: M, r: File, f: File): State<M> { State(r, f, mem, [], 0, false) }

  // Registers no name is allocated to are as the host left them.
  predicate Planted(r: File) {
    r[0] == 0 && r[RA] == SENTINEL && r[GP] == 0 && forall k :: 10 <= k < 18 ==> r[k] == 0
  }

  lemma Made<M(!new)>(p: Platform<M>, a: Alloc, mem: M, r: File, f: File)
    requires Planted(r)
    ensures var l, t := Host(p, mem), Machine(mem, r, f);
            Holds(a, l, 0, ThreadIn(a, t), t) && Context(p, l, 0, mem)
  {
    hide Ir, Fr, ToWord, Address;
  }

  lemma PlantedBase()
    ensures Planted(BaseFile())
  {
  }

  lemma PlantedWith(a: Alloc, n: Name, v: Word, r: File)
    requires Sound(a) && Fitting(a) && n in a.i && Planted(r)
    ensures Planted(r[Ir(a, n) := v]) && r[Ir(a, n) := v][Ir(a, n)] == v
    ensures forall m :: m in a.i && m != n ==> r[Ir(a, n) := v][Ir(a, m)] == r[Ir(a, m)]
  {
    hide Ir, Sound;
    Allocated(a, n);
  }

  lemma BaseZero(a: Alloc, n: Name)
    requires Sound(a) && Fitting(a) && n in a.i
    ensures BaseFile()[Ir(a, n)] == 0
  {
    hide Ir, Sound;
    Allocated(a, n);
  }

  /** The block of a line does what the line does, from every state that holds and is safe. */
  ghost predicate LineRight<M(!new)>(p: Platform<M>, a: Alloc, n: Instr) {
    forall l, gp, s: Thread<M>, t: State<M> {:trigger Holds(a, l, gp, s, t)} ::
      Holds(a, l, gp, s, t) && Safe(n, s) && Context(p, l, gp, s.mem)
      ==> Holds(a, l, gp, PtxEffect(p, l, n, s), Effects(p, Lines(a, n, 0), t))
  }

  // A name whose register differs from its value.
  lemma Unequal<M>(a: Alloc, l: Launch, gp: Word, s: Thread<M>, t: State<M>, d: Name)
    requires d in a.i && t.r[Ir(a, d)] != s.i(d)
    ensures !Holds(a, l, gp, s, t)
  {
  }

  lemma ThreadHas<M>(a: Alloc, t: State<M>, n: Name)
    ensures ThreadIn(a, t).i(n) == t.r[Ir(a, n)]
  {
    hide Ir;
  }

  lemma SpecialDropped<M(!new)>(p: Platform<M>, a: Alloc, n: Instr, mem: M)
    requires Sound(a) && Fitting(a) && n.MovSpecial? && n.special >= SPECIALS && n.d in a.i
    ensures !LineRight(p, a, n)
  {
    hide Ir, Fr, Sound, Context, Holds, BaseFile;
    var l, t := Host(p, mem), Machine(mem, BaseFile(), ZeroFile());
    var s := ThreadIn(a, t);
    PlantedBase();
    Made(p, a, mem, BaseFile(), ZeroFile());
    BaseZero(a, n.d);
    ThreadHas(a, t, n.d);
    NoEffects(p, t);
    Unequal(a, l, 0, PtxEffect(p, l, n, s), t, n.d);
  }

  lemma FloatMoveWrong<M(!new)>(p: Platform<M>, a: Alloc, n: Instr, mem: M)
    requires Sound(a) && Fitting(a) && Has(a, n) && n.MovFloat? && n.d != n.fa
    ensures !LineRight(p, a, n)
  {
    hide Ir, Sound, Context, Holds, BaseFile, Effects, Lines, PtxEffect;
    Names(a, n);
    AllocatedFloat(a, n.fa);
    var f := ZeroFile()[Fr(a, n.fa) := 1];
    var l, t := Host(p, mem), Machine(mem, BaseFile(), f);
    var s := ThreadIn(a, t);
    PlantedBase();
    Made(p, a, mem, BaseFile(), f);
    MovFloatExact(p, a, l, 0, n.d, n.fa, s, t);
  }

  lemma CompareWrong<M(!new)>(p: Platform<M>, a: Alloc, n: Instr, mem: M)
    requires Sound(a) && Fitting(a) && Has(a, n) && n.Setp? && n.b.Immediate? && !SetpRight(n.cmp, n.signed, n.b.v)
    ensures !LineRight(p, a, n)
  {
    hide Ir, Fr, Sound, Context, Holds, BaseFile, Effects, Compare, ToWord, SetpLines, Flag;
    Names(a, n);
    Allocated(a, n.d);
    var l, t := Host(p, mem), Machine(mem, BaseFile(), ZeroFile());
    var s := ThreadIn(a, t);
    PlantedBase();
    Made(p, a, mem, BaseFile(), ZeroFile());
    HoldsBasics(a, l, 0, s, t);
    ThreadHas(a, t, n.ra);
    SetpMinusOneWrong(p, a, n.cmp, Ir(a, n.d), Ir(a, n.ra), t);
    FlagIs(Compare(n.cmp, n.signed, s.i(n.ra), ValueOf(s.i, n.b)));
    Unequal(a, l, 0, PtxEffect(p, l, n, s), Effects(p, Lines(a, n, 0), t), n.d);
  }

  /** The file in which the one register operand of an arithmetic line has its telling value. */
  function OperandFile(a: Alloc, n: Instr, x: Word, y: Word): File
    requires n.Alu?
  {
    if n.a.Register? then BaseFile()[Ir(a, n.a.name) := x] else if n.b.Register? then BaseFile()[Ir(a, n.b.name) := y] else BaseFile()
  }

  lemma OperandsIn<M>(a: Alloc, n: Instr, x: Word, y: Word, mem: M)
    requires Sound(a) && Fitting(a) && Has(a, n) && n.Alu? && Valued(n.a, x) && Valued(n.b, y)
    requires n.a.Register? ==> n.b.Immediate?
    ensures var r := OperandFile(a, n, x, y);
            var s := ThreadIn(a, Machine(mem, r, ZeroFile()));
            Planted(r) && ValueOf(s.i, n.a) == x && ValueOf(s.i, n.b) == y
  {
    hide Ir, Fr, Sound, ToWord, BaseFile, Has;
    Names(a, n);
    PlantedBase();
    if n.a.Register? {
      PlantedWith(a, n.a.name, x, BaseFile());
    } else if n.b.Register? {
      PlantedWith(a, n.b.name, y, BaseFile());
    }
  }

  lemma ArithmeticWrong<M(!new)>(p: Platform<M>, a: Alloc, n: Instr, mem: M)
    requires Sound(a) && Fitting(a) && Has(a, n) && n.Alu? && Assembles(n) && !AluExact(n.op, n.signed, n.a, n.b)
    ensures !LineRight(p, a, n)
  {
    hide Ir, Fr, Sound, Context, Holds, BaseFile, Effects, Lines, Has, ToWord, Arithmetic, AluValue, SafeOperands, OperandFile,
         AluAssembles, Valued;
    Names(a, n);
    var x, y := AluWrong(n.op, n.signed, n.a, n.b);
    var r := OperandFile(a, n, x, y);
    var l, t := Host(p, mem), Machine(mem, r, ZeroFile());
    var s := ThreadIn(a, t);
    OneRegister(n);
    OperandsIn(a, n, x, y, mem);
    Made(p, a, mem, r, ZeroFile());
    AluComputes(p, a, n, s, t, l, 0);
    Unequal(a, l, 0, PtxEffect(p, l, n, s), Effects(p, Lines(a, n, 0), t), n.d);
  }

  lemma OneRegister(n: Instr)
    requires n.Alu? && !AluExact(n.op, n.signed, n.a, n.b)
    ensures n.a.Register? ==> n.b.Immediate?
  {
    hide ToWord, SafeOperands, AluValue, Arithmetic;
  }

  lemma MultiplyAddWrong<M(!new)>(p: Platform<M>, a: Alloc, n: Instr, mem: M)
    requires Sound(a) && Fitting(a) && Has(a, n) && n.Mad? && n.d == n.rc
    ensures !LineRight(p, a, n)
  {
    hide Ir, Fr, Sound, Context, Holds, BaseFile, Effects, Has, Product, Isa.Sum;
    Names(a, n);
    Allocated(a, n.d);
    var k: Word := if n.ra == n.d && n.rb == n.d then 2 else 1;
    var r := BaseFile()[Ir(a, n.d) := k];
    var l, t := Host(p, mem), Machine(mem, r, ZeroFile());
    var s := ThreadIn(a, t);
    PlantedBase();
    PlantedWith(a, n.d, k, BaseFile());
    BaseZero(a, n.ra);
    BaseZero(a, n.rb);
    Made(p, a, mem, r, ZeroFile());
    MadExact(p, Ir(a, n.d), Ir(a, n.ra), Ir(a, n.rb), Ir(a, n.rc), t);
    ThreadHas(a, t, n.d);
    ThreadHas(a, t, n.ra);
    ThreadHas(a, t, n.rb);
    SmallProducts();
    Unequal(a, l, 0, PtxEffect(p, l, n, s), Effects(p, Lines(a, n, 0), t), n.d);
  }

  lemma SmallProducts()
    ensures Product(2, 2) == 4 && Product(0, 0) == Product(1, 0) == Product(0, 1) == 0
    ensures Isa.Sum(4, 4) == 8 && Isa.Sum(4, 2) == 6 && Isa.Sum(0, 0) == 0 && Isa.Sum(0, 1) == 1
  {
  }

  /** Among the lines that are accepted and assemble, the compiled block is right for
      every state exactly for the fragment: `mov` of one of the nine special registers,
      `mov.f32` of a register to itself, no unsigned greater-than or at-most with -1, no
      literal divisor, no literal first source that matters, no `mad` onto its addend. */
  lemma LineExact<M(!new)>(p: Platform<M>, a: Alloc, n: Instr, mem: M)
    requires Sound(a) && Fitting(a) && Has(a, n) && Accepted(n) && Assembles(n) && !Control(n)
    requires n.MovSpecial? ==> n.d in a.i
    ensures LineRight(p, a, n) <==> Exact(n)
  {
    hide Sound, Fitting, Has, Holds, Context, PtxEffect, Effects, Lines, Accepted, Assembles, AluExact, SetpRight, Safe;
    if Exact(n) {
      forall l, gp, s: Thread<M>, t: State<M> | Holds(a, l, gp, s, t) && Safe(n, s) && Context(p, l, gp, s.mem)
        ensures Holds(a, l, gp, PtxEffect(p, l, n, s), Effects(p, Lines(a, n, 0), t))
      {
        LineSimulated(p, a, l, gp, n, s, t);
      }
    } else if n.MovSpecial? {
      SpecialDropped(p, a, n, mem);
    } else if n.MovFloat? {
      FloatMoveWrong(p, a, n, mem);
    } else if n.Setp? {
      CompareWrong(p, a, n, mem);
    } else if n.Alu? {
      ArithmeticWrong(p, a, n, mem);
    } else {
      MultiplyAddWrong(p, a, n, mem);
    }
  }
}
