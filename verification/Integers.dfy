// Two's complement: the word an integer literal stands for.

module Integers {
  import opened Isa

  /** The integer taken modulo 2^32. */
  function ToWord(v: int): Word
    decreases if v < 0 then -v else v
  {
    if v == 0 then 0 else if v > 0 then Sum(ToWord(v - 1), 1) else Difference(ToWord(v + 1), 1)
  }

  lemma SumDifference(a: Word, b: Word, c: Word)
    ensures Sum(Difference(a, 1), 1) == a && Difference(Sum(a, 1), 1) == a
    ensures Sum(Sum(a, b), c) == Sum(a, Sum(b, c))
    ensures Sum(a, Difference(b, c)) == Difference(Sum(a, b), c)
    ensures Sum(a, 0) == a && Difference(a, 0) == a && Sum(a, b) == Sum(b, a)
  {
  }

  lemma Successor(v: int)
    ensures ToWord(v + 1) == Sum(ToWord(v), 1)
  {
    hide Sum, Difference;
    SumDifference(ToWord(v + 1), 0, 0);
  }

  /** Literals add as words do. */
  lemma {:induction false} ToWordAdds(a: int, b: int)
    ensures ToWord(a + b) == Sum(ToWord(a), ToWord(b))
    decreases if b < 0 then -b else b
  {
    hide Sum, Difference;
    SumDifference(ToWord(a), ToWord(b - 1), 1);
    SumDifference(ToWord(a), ToWord(b + 1), 1);
    if b > 0 {
      ToWordAdds(a, b - 1);
      Successor(a + b - 1);
      assert a + b - 1 + 1 == a + b;
    } else if b < 0 {
      ToWordAdds(a, b + 1);
      Successor(a + b);
      SumDifference(ToWord(a + b), 0, 0);
    }
  }

  /** Adding the negated literal subtracts. */
  lemma NegatedLiteral(a: Word, v: int)
    ensures Sum(a, ToWord(-v)) == Difference(a, ToWord(v))
  {
    hide ToWord, Sum, Difference;
    ToWordAdds(v, -v);
    assert ToWord(0) == 0 by { Zero(); }
    var w, n := ToWord(v), ToWord(-v);
    NoDifference(w);
    SumDifference(n, w, w);
    assert n == Difference(0, w);
    SumDifference(a, 0, w);
  }

  lemma Zero()
    ensures ToWord(0) == 0
  {
  }

  lemma NoDifference(w: Word)
    ensures Difference(w, w) == 0
  {
  }

  // ----- Powers of two -----

  function Power(k: nat): nat { if k == 0 then 1 else 2 * Power(k - 1) }

  function PowerWord(k: nat): Word { if k == 0 then 1 else Sum(PowerWord(k - 1), PowerWord(k - 1)) }

  lemma {:induction false} PowerLiteral(k: nat)
    ensures ToWord(Power(k)) == PowerWord(k)
  {
    hide Sum;
    if k == 0 {
      assert ToWord(1) == 1 by { OneLiteral(); }
    } else {
      PowerLiteral(k - 1);
      ToWordAdds(Power(k - 1), Power(k - 1));
    }
  }

  lemma OneLiteral()
    ensures ToWord(1) == 1
  {
    assert ToWord(0) == 0;
  }

  function Product(a: Word, b: Word): Word { a * b }

  function ShiftOne(a: Word): Word { a << 1 }

  /** `a << k`, one place at a time. */
  function ShiftLeft(a: Word, k: nat): Word { if k == 0 then a else ShiftOne(ShiftLeft(a, k - 1)) }

  lemma ShiftDoubles(a: Word)
    ensures ShiftOne(a) == Sum(a, a)
  {
  }

  lemma ProductDoubles(a: Word, p: Word)
    ensures Product(a, Sum(p, p)) == Sum(Product(a, p), Product(a, p)) && Product(a, 1) == a
  {
  }

  /** Multiplying by 2^k shifts by k. */
  lemma MultiplyByPower(a: Word, k: nat)
    ensures Product(a, ToWord(Power(k))) == ShiftLeft(a, k)
  {
    PowerLiteral(k);
    ProductPower(a, k);
  }

  lemma {:induction false} ProductPower(a: Word, k: nat)
    ensures Product(a, PowerWord(k)) == ShiftLeft(a, k)
  {
    hide Sum, Product, ShiftOne;
    if k == 0 {
      ProductDoubles(a, 0);
    } else {
      ProductPower(a, k - 1);
      ProductDoubles(a, PowerWord(k - 1));
      ShiftDoubles(ShiftLeft(a, k - 1));
    }
  }

  // ----- Comparisons with the next literal -----

  lemma {:induction false} SmallLiteral(k: nat, v: nat)
    requires k <= 12 && v < Power(k)
    ensures ToWord(v) < PowerWord(k) && PowerWord(k) <= 0x1000
  {
    hide Sum, Difference;
    if k == 0 {
      Zero();
    } else {
      TableOfPowers(k);
      if v < Power(k - 1) {
        SmallLiteral(k - 1, v);
      } else {
        SmallLiteral(k - 1, v - Power(k - 1));
        ToWordAdds(Power(k - 1), v - Power(k - 1));
        PowerLiteral(k - 1);
        UpperHalf(PowerWord(k - 1), ToWord(v - Power(k - 1)));
      }
    }
  }

  lemma UpperHalf(p: Word, w: Word)
    requires p <= 0x800 && w < p
    ensures Sum(p, w) < Sum(p, p) && p < Sum(p, p) <= 0x1000
  {
  }

  lemma TableOfPowers(k: nat)
    requires 0 < k <= 12
    ensures 0 < PowerWord(k - 1) <= 0x800 && PowerWord(k) <= 0x1000
    ensures PowerWord(k - 1) < PowerWord(k)
  {
    assert PowerWord(0) == 0x1;
    assert PowerWord(1) == 0x2;
    assert PowerWord(2) == 0x4;
    assert PowerWord(3) == 0x8;
    assert PowerWord(4) == 0x10;
    assert PowerWord(5) == 0x20;
    assert PowerWord(6) == 0x40;
    assert PowerWord(7) == 0x80;
    assert PowerWord(8) == 0x100;
    assert PowerWord(9) == 0x200;
    assert PowerWord(10) == 0x400;
    assert PowerWord(11) == 0x800;
    assert PowerWord(12) == 0x1000;
  }

  lemma LowLiteral(v: nat)
    requires v < 4096
    ensures ToWord(v) < 0x1000 && ToWord(v + 1) != 0
  {
    hide Sum, Difference, ToWord;
    assert Power(12) == 4096;
    SmallLiteral(12, v);
    TableOfPowers(12);
    Successor(v);
    NoWrap(ToWord(v));
  }

  lemma NoWrap(w: Word)
    requires w < 0x1000
    ensures Sum(w, 1) != 0
  {
  }

  predicate Below(a: Word, b: Word) { a < b }

  /** The words of small literals of either sign. */
  predicate Small(w: Word) { w < 0x1000 || w >= 0xFFFF_F000 }

  lemma BelowIs(a: Word, b: Word)
    ensures Below(a, b) == (a < b)
  {
  }

  lemma SignedIs(a: Word, b: Word)
    ensures SignedLess(a, b) == (a ^ 0x8000_0000 < b ^ 0x8000_0000)
  {
  }

  lemma SumIs(w: Word)
    ensures Sum(w, 1) == w + 1
  {
  }

  lemma NoneBetweenHigh(a: Word, w: Word)
    requires w >= 0xFFFF_F000 && w < a
    ensures !(a < w + 1)
  {
  }

  lemma NoneBetweenSignedHigh(a: Word, w: Word)
    requires w >= 0xFFFF_F000 && w ^ 0x8000_0000 < a ^ 0x8000_0000
    ensures !(a ^ 0x8000_0000 < (w + 1) ^ 0x8000_0000)
  {
  }

  lemma NotBelowNext(a: Word, w: Word)
    requires Small(w) && Below(w, a)
    ensures !Below(a, Sum(w, 1))
  {
    hide Below, Sum;
    SumIs(w);
    BelowIs(w, a);
    BelowIs(a, w + 1);
    if w < 0x1000 {
    } else {
      NoneBetweenHigh(a, w);
    }
  }

  lemma NotSignedNext(a: Word, w: Word)
    requires Small(w) && SignedLess(w, a)
    ensures !SignedLess(a, Sum(w, 1))
  {
    hide SignedLess, Sum;
    SumIs(w);
    SignedIs(w, a);
    SignedIs(a, w + 1);
    if w < 0x1000 {
    } else {
      NoneBetweenSignedHigh(a, w);
    }
  }

  lemma BelowOwnNext(w: Word)
    ensures w != 0xFFFF_FFFF ==> Below(w, Sum(w, 1))
    ensures w != 0x7FFF_FFFF ==> SignedLess(w, Sum(w, 1))
  {
  }

  lemma BelowThrough(a: Word, w: Word, s: Word)
    ensures Below(w, s) && !Below(w, a) ==> Below(a, s)
    ensures SignedLess(w, s) && !SignedLess(w, a) ==> SignedLess(a, s)
  {
  }

  lemma NextWord(a: Word, w: Word)
    requires Small(w)
    ensures w != 0xFFFF_FFFF ==> (Below(w, a) <==> !Below(a, Sum(w, 1)))
    ensures SignedLess(w, a) <==> !SignedLess(a, Sum(w, 1))
  {
    hide Below, SignedLess, Sum;
    BelowOwnNext(w);
    BelowThrough(a, w, Sum(w, 1));
    if Below(w, a) {
      NotBelowNext(a, w);
    }
    if SignedLess(w, a) {
      NotSignedNext(a, w);
    }
  }

  lemma SmallWords(v: int)
    requires -4096 < v < 4096
    ensures Small(ToWord(v)) && (v != -1 ==> ToWord(v) != 0xFFFF_FFFF)
  {
    hide Sum, Difference, ToWord;
    if v >= 0 {
      LowLiteral(v);
    } else {
      LowLiteral(-v);
      LowLiteral(-v - 1);
      if v < -1 {
        NotOne(-v);
      }
      NegatedLiteral(0, -v);
      SumDifference(ToWord(v), 0, 0);
      Negated(ToWord(-v));
    }
  }

  lemma Negated(w: Word)
    requires 0 < w < 0x1000
    ensures Small(Difference(0, w)) && (w != 1 ==> Difference(0, w) != 0xFFFF_FFFF)
  {
  }

  lemma NotOne(u: nat)
    requires 2 <= u < 4096
    ensures ToWord(u) != 1
  {
    hide Sum, Difference, ToWord;
    LowLiteral(u - 2);
    Successor(u - 1);
    OnePlus(ToWord(u - 1));
  }

  lemma OnePlus(w: Word)
    ensures w != 0 ==> Sum(w, 1) != 1
  {
  }

  /** Above a literal means not below the next one; for the unsigned order, except at -1. */
  lemma NextLiteral(a: Word, v: int)
    requires -2049 <= v <= 2046
    ensures SignedLess(ToWord(v), a) <==> !SignedLess(a, ToWord(v + 1))
    ensures v != -1 ==> (Below(ToWord(v), a) <==> !Below(a, ToWord(v + 1)))
  {
    hide *;
    Successor(v);
    SmallWords(v);
    NextWord(a, ToWord(v));
  }
}
