// Shifts by a register: the machine masks the count to five bits, the source
// language clamps it at 32.

module Shifts {
  import opened Isa
  import opened Integers
  import Division
  import opened Rv32
  import opened Codec
  import opened Ptx
  import opened Emitter
  import opened Compiled

  lemma LeftOfOne()
    ensures ShiftLeft(1, 31) == 0x8000_0000
  {
    assert ShiftLeft(1, 2) == 0x4; assert ShiftLeft(1, 4) == 0x10; assert ShiftLeft(1, 6) == 0x40;
    assert ShiftLeft(1, 8) == 0x100; assert ShiftLeft(1, 10) == 0x400;
    assert ShiftLeft(1, 12) == 0x1000; assert ShiftLeft(1, 14) == 0x4000;
    assert ShiftLeft(1, 16) == 0x10000; assert ShiftLeft(1, 18) == 0x40000;
    assert ShiftLeft(1, 20) == 0x100000; assert ShiftLeft(1, 22) == 0x400000;
    assert ShiftLeft(1, 24) == 0x1000000; assert ShiftLeft(1, 26) == 0x4000000;
    assert ShiftLeft(1, 28) == 0x10000000; assert ShiftLeft(1, 30) == 0x40000000;
  }

  lemma RightOfTop()
    ensures ShiftRight(0x8000_0000, 31) == 1 && ShiftRight(0x8000_0000, 32) == 0
  {
    assert ShiftRight(0x8000_0000, 2) == 0x20000000; assert ShiftRight(0x8000_0000, 4) == 0x8000000;
    assert ShiftRight(0x8000_0000, 6) == 0x2000000; assert ShiftRight(0x8000_0000, 8) == 0x800000;
    assert ShiftRight(0x8000_0000, 10) == 0x200000; assert ShiftRight(0x8000_0000, 12) == 0x80000;
    assert ShiftRight(0x8000_0000, 14) == 0x20000; assert ShiftRight(0x8000_0000, 16) == 0x8000;
    assert ShiftRight(0x8000_0000, 18) == 0x2000; assert ShiftRight(0x8000_0000, 20) == 0x800;
    assert ShiftRight(0x8000_0000, 22) == 0x200; assert ShiftRight(0x8000_0000, 24) == 0x80;
    assert ShiftRight(0x8000_0000, 26) == 0x20; assert ShiftRight(0x8000_0000, 28) == 0x8;
    assert ShiftRight(0x8000_0000, 30) == 0x2;
  }

  lemma ArithOfNext()
    ensures ShiftArith(0x4000_0000, 30) == 1 && ShiftArith(0x4000_0000, 31) == 0
  {
    assert ShiftArith(0x4000_0000, 2) == 0x10000000; assert ShiftArith(0x4000_0000, 4) == 0x4000000;
    assert ShiftArith(0x4000_0000, 6) == 0x1000000; assert ShiftArith(0x4000_0000, 8) == 0x400000;
    assert ShiftArith(0x4000_0000, 10) == 0x100000; assert ShiftArith(0x4000_0000, 12) == 0x40000;
    assert ShiftArith(0x4000_0000, 14) == 0x10000; assert ShiftArith(0x4000_0000, 16) == 0x4000;
    assert ShiftArith(0x4000_0000, 18) == 0x1000; assert ShiftArith(0x4000_0000, 20) == 0x400;
    assert ShiftArith(0x4000_0000, 22) == 0x100; assert ShiftArith(0x4000_0000, 24) == 0x40;
    assert ShiftArith(0x4000_0000, 26) == 0x10; assert ShiftArith(0x4000_0000, 28) == 0x4;
    assert ShiftArith(0x4000_0000, 30) == 0x1;
  }

  lemma RightOfLargest()
    ensures ShiftRight(0x7FFF_FFFF, 31) == 0
  {
    assert ShiftRight(0x7FFF_FFFF, 2) == 0x1fffffff; assert ShiftRight(0x7FFF_FFFF, 4) == 0x7ffffff;
    assert ShiftRight(0x7FFF_FFFF, 6) == 0x1ffffff; assert ShiftRight(0x7FFF_FFFF, 8) == 0x7fffff;
    assert ShiftRight(0x7FFF_FFFF, 10) == 0x1fffff; assert ShiftRight(0x7FFF_FFFF, 12) == 0x7ffff;
    assert ShiftRight(0x7FFF_FFFF, 14) == 0x1ffff; assert ShiftRight(0x7FFF_FFFF, 16) == 0x7fff;
    assert ShiftRight(0x7FFF_FFFF, 18) == 0x1fff; assert ShiftRight(0x7FFF_FFFF, 20) == 0x7ff;
    assert ShiftRight(0x7FFF_FFFF, 22) == 0x1ff; assert ShiftRight(0x7FFF_FFFF, 24) == 0x7f;
    assert ShiftRight(0x7FFF_FFFF, 26) == 0x1f; assert ShiftRight(0x7FFF_FFFF, 28) == 0x7;
    assert ShiftRight(0x7FFF_FFFF, 30) == 0x1;
  }

  lemma {:induction false} LeftNotYet(k: nat)
    requires k <= 31
    ensures ShiftLeft(1, k) != 0
    decreases 31 - k
  {
    if k == 31 {
      LeftOfOne();
    } else {
      LeftNotYet(k + 1);
    }
  }

  lemma {:induction false} RightNotYet(k: nat)
    requires k <= 31
    ensures ShiftRight(0x8000_0000, k) != 0
    decreases 31 - k
  {
    if k == 31 {
      RightOfTop();
    } else {
      RightNotYet(k + 1);
    }
  }

  lemma {:induction false} ArithNotYet(k: nat)
    requires k <= 30
    ensures ShiftArith(0x4000_0000, k) != 0
    decreases 30 - k
  {
    if k == 30 {
      ArithOfNext();
    } else {
      ArithNotYet(k + 1);
    }
  }

  /** Everything is shifted out after 32 places to the left. */
  lemma LeftAllOut(a: Word)
    ensures ShiftLeft(a, 32) == 0
  {
    Division.PowerWraps();
    ProductPower(a, 32);
    NoProduct(a);
  }

  lemma NoProduct(a: Word)
    ensures Product(a, 0) == 0
  {
  }

  lemma {:induction false} RightWithin(a: Word, b: Word, k: nat)
    requires a <= b
    ensures ShiftRight(a, k) <= ShiftRight(b, k)
  {
    hide ShiftRightOne;
    if k > 0 {
      RightWithin(a, b, k - 1);
      HalfWithin(ShiftRight(a, k - 1), ShiftRight(b, k - 1));
    }
  }

  lemma HalfWithin(a: Word, b: Word)
    requires a <= b
    ensures ShiftRightOne(a) <= ShiftRightOne(b)
  {
  }

  predicate Negative(a: Word) { a & 0x8000_0000 != 0 }
  function Inverse(a: Word): Word { BitXor(a, MINUS_ONE) }

  lemma SignStays(a: Word)
    requires !Negative(a)
    ensures ShiftArithOne(a) == ShiftRightOne(a) && !Negative(ShiftRightOne(a)) && a <= 0x7FFF_FFFF
  {
  }

  lemma InverseShifts(a: Word)
    ensures ShiftArithOne(Inverse(a)) == Inverse(ShiftArithOne(a))
  {
  }

  lemma InverseTwice(a: Word)
    ensures Inverse(Inverse(a)) == a && (Negative(a) ==> !Negative(Inverse(a)))
  {
  }

  lemma {:induction false} ArithIsRight(a: Word, k: nat)
    requires !Negative(a)
    ensures ShiftArith(a, k) == ShiftRight(a, k) && !Negative(ShiftRight(a, k))
  {
    if k > 0 {
      ArithIsRight(a, k - 1);
      SignStays(ShiftRight(a, k - 1));
    }
  }

  lemma {:induction false} ArithOfInverse(a: Word, k: nat)
    ensures ShiftArith(Inverse(a), k) == Inverse(ShiftArith(a, k))
  {
    hide ShiftArithOne, Inverse;
    if k > 0 {
      ArithOfInverse(a, k - 1);
      InverseShifts(ShiftArith(a, k - 1));
    }
  }

  /** Only copies of the sign are left after 31 places: one more changes nothing. */
  lemma SignOnly(a: Word)
    ensures ShiftArith(a, 31) == ShiftArith(a, 32)
  {
    hide ShiftRight, Inverse, Negative, ShiftArithOne;
    InverseTwice(a);
    var x := if Negative(a) then Inverse(a) else a;
    ArithIsRight(x, 31);
    SignStays(x);
    RightWithin(x, 0x7FFF_FFFF, 31);
    RightOfLargest();
    assert ShiftArith(x, 31) == 0;
    ZeroStays();
    assert ShiftArith(x, 32) == 0;
    ArithOfInverse(a, 31);
    ArithOfInverse(a, 32);
    InverseTwice(ShiftArith(a, 31));
    InverseTwice(ShiftArith(a, 32));
  }

  lemma ZeroStays()
    ensures ShiftArithOne(0) == 0
  {
  }

  /** A count of 32 or more is masked where it should be clamped. The compiled shift
      is right for every value exactly below 32; of the arithmetic right shift, also
      where the masked count is 31. */
  lemma ShiftExact(op: AluOp, signed: bool, y: Word)
    requires op.ALU_SHL? || op.ALU_SHR?
    ensures (forall x :: RValue(RegisterOp(op, signed), x, y) == Arithmetic(op, signed, x, y))
            <==> Below(y, 32) || (op.ALU_SHR? && signed && Count(y) == 31)
  {
    hide Below, ShiftLeft, ShiftRight, ShiftArith, Count;
    if Below(y, 32) {
      forall x ensures RValue(RegisterOp(op, signed), x, y) == Arithmetic(op, signed, x, y) {
        RegisterOpMeans(op, signed, x, y);
      }
    } else if op.ALU_SHL? {
      LeftAllOut(1);
      LeftNotYet(Count(y));
      assert RValue(RegisterOp(op, signed), 1, y) != Arithmetic(op, signed, 1, y);
    } else if !signed {
      RightOfTop();
      RightNotYet(Count(y));
      assert RValue(RegisterOp(op, signed), 0x8000_0000, y) != Arithmetic(op, signed, 0x8000_0000, y);
    } else if Count(y) == 31 {
      forall x ensures RValue(RegisterOp(op, signed), x, y) == Arithmetic(op, signed, x, y) {
        SignOnly(x);
      }
    } else {
      ArithOfNext();
      SignOnly(0x4000_0000);
      ArithNotYet(Count(y));
      assert RValue(RegisterOp(op, signed), 0x4000_0000, y) != Arithmetic(op, signed, 0x4000_0000, y);
    }
  }

  // ----- What one place is -----

  /** One place to the right drops the lowest bit: logically with the top bit clear, */
  lemma RightDropsLowest(a: Word)
    ensures (ShiftRightOne(a) << 1) | (a & 1) == a && ShiftRightOne(a) & 0x8000_0000 == 0
  {
  }

  /** and arithmetically with the top bit kept. */
  lemma ArithDropsLowest(a: Word)
    ensures (ShiftArithOne(a) << 1) | (a & 1) == a && ShiftArithOne(a) & 0x8000_0000 == a & 0x8000_0000
  {
  }

  /** The count is the word's low five bits. */
  lemma CountIsLow(w: Word)
    ensures Bits5(Count(w)) == w & 0x1F
  {
  }
}
