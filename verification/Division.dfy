// Words as numbers, and the machine's divide instructions on them
// (models/systemc/src/compute_unit/compute_unit.cpp:341-344).

module Division {
  import opened Isa
  import opened Numbers
  import opened Integers

  const WORDS := 0x1_0000_0000
  const HALF := 0x8000_0000

  // ----- Words as numbers -----

  /** The number a word stands for, unsigned. */
  function Nat(w: Word): nat
    decreases w
  {
    if w == 0 then 0 else 1 + Nat(w - 1)
  }

  lemma Next(w: Word)
    requires w != 0xFFFF_FFFF
    ensures Nat(w + 1) == Nat(w) + 1
  {
  }

  function Before(w: Word): Word { w - 1 }

  lemma Counts(w: Word)
    requires w != 0
    ensures Nat(w) == 1 + Nat(Before(w)) && Sum(Before(w), 1) == w
  {
  }

  lemma {:induction false} WordOfNat(w: Word)
    ensures ToWord(Nat(w)) == w
    decreases Nat(w)
  {
    if w == 0 {
      Zero();
    } else {
      hide ToWord, Nat, Sum, Before;
      Counts(w);
      WordOfNat(Before(w));
      Successor(Nat(Before(w)));
    }
  }

  lemma RawSuccessor(w: Word)
    ensures Sum(w, 1) == w + 1
  {
  }

  /** Up to the largest word, numbers and words correspond. */
  lemma {:induction false} NatOfSmall(v: nat)
    requires v <= Nat(0xFFFF_FFFF)
    ensures Nat(ToWord(v)) == v
  {
    hide ToWord;
    if v == 0 {
      Zero();
    } else {
      NatOfSmall(v - 1);
      Successor(v - 1);
      RawSuccessor(ToWord(v - 1));
      Next(ToWord(v - 1));
    }
  }

  // ----- The largest word -----

  lemma PowerWraps()
    ensures PowerWord(31) == 0x8000_0000 && PowerWord(32) == 0
  {
    assert PowerWord(2) == 0x4; assert PowerWord(4) == 0x10; assert PowerWord(6) == 0x40;
    assert PowerWord(8) == 0x100; assert PowerWord(10) == 0x400; assert PowerWord(12) == 0x1000;
    assert PowerWord(14) == 0x4000; assert PowerWord(16) == 0x10000; assert PowerWord(18) == 0x40000;
    assert PowerWord(20) == 0x100000; assert PowerWord(22) == 0x400000; assert PowerWord(24) == 0x1000000;
    assert PowerWord(26) == 0x4000000; assert PowerWord(28) == 0x10000000; assert PowerWord(30) == 0x40000000;
  }

  lemma {:induction false} OddFactor(g: nat, m: nat, k: nat)
    requires g * m == Power(k) && m % 2 == 1
    ensures m == 1
    decreases k
  {
    if k == 0 {
      OneProduct(g, m);
    } else if g % 2 == 1 {
      OddProduct(g, m);
    } else {
      Halves(g, m, Power(k - 1));
      OddFactor(g / 2, m, k - 1);
    }
  }

  lemma OneProduct(g: nat, m: nat)
    requires g * m == 1
    ensures m == 1
  {
    if g > 0 {
      Multiples(0, g, m);
    }
  }

  lemma Halves(g: nat, m: nat, p: nat)
    requires g % 2 == 0 && g * m == 2 * p
    ensures (g / 2) * m == p
  {
    var h := g / 2;
    assert g == 2 * h;
    assert 2 * (h * m) == g * m;
  }

  lemma OddProduct(g: nat, m: nat)
    requires g % 2 == 1 && m % 2 == 1
    ensures (g * m) % 2 == 1
  {
    var x, y := g / 2, m / 2;
    assert g * m == 2 * (2 * x * y + x + y) + 1;
  }

  /** Multiples of a number whose word is 0 have word 0. */
  lemma {:induction false} ZeroMultiples(g: nat, m: nat)
    requires ToWord(g) == 0
    ensures ToWord(g * m) == 0
  {
    hide ToWord;
    if m == 0 {
      Zero();
    } else {
      ZeroMultiples(g, m - 1);
      ToWordAdds(g * (m - 1), g);
      assert g * m == g * (m - 1) + g;
      assert Sum(0, 0) == 0;
    }
  }

  lemma PowerOf31()
    ensures Power(31) == HALF && Power(32) == WORDS
  {
    assert Power(2) == 4; assert Power(4) == 16; assert Power(6) == 64; assert Power(8) == 256;
    assert Power(10) == 1024; assert Power(12) == 4096; assert Power(14) == 16384; assert Power(16) == 65536;
    assert Power(18) == 262144; assert Power(20) == 1048576; assert Power(22) == 4194304; assert Power(24) == 16777216;
    assert Power(26) == 67108864; assert Power(28) == 268435456; assert Power(30) == 1073741824;
  }

  lemma WordsOfPowers()
    ensures ToWord(HALF) == 0x8000_0000 && ToWord(WORDS) == 0 && Power(32) == WORDS == 2 * HALF
  {
    hide ToWord, Power, PowerWord;
    PowerWraps();
    PowerLiteral(31);
    PowerLiteral(32);
    PowerOf31();
  }

  /** A number whose word is 0 divides all such numbers, if no smaller one is among them. */
  lemma NoRest(g: nat, all: nat)
    requires 0 < g <= Nat(0xFFFF_FFFF) + 1 && ToWord(g) == 0 && ToWord(all) == 0
    ensures g * (all / g) == all
  {
    hide ToWord, Nat;
    var m, r := all / g, all % g;
    assert all == g * m + r;
    ZeroMultiples(g, m);
    ToWordAdds(g * m, r);
    SumsWithZero();
    NatOfSmall(r);
    NatOfZero();
  }

  lemma OnlyOne(g: nat, m: nat, half: nat)
    requires g * m == Power(32) == 2 * half && ToWord(g) == 0 && ToWord(half) != 0
    ensures m == 1
  {
    hide ToWord, Power;
    if m % 2 == 1 {
      OddFactor(g, m, 32);
    } else {
      Halves(m, g, half);
      ZeroMultiples(g, m / 2);
      assert false;
    }
  }

  /** The largest word is the largest number of 32 bits. */
  lemma LargestWord()
    ensures Nat(0xFFFF_FFFF) == WORDS - 1
  {
    hide ToWord, Nat, Power;
    var g := Nat(0xFFFF_FFFF) + 1;
    WordOfNat(0xFFFF_FFFF);
    Successor(g - 1);
    RawSuccessor(0xFFFF_FFFF);
    WordsOfPowers();
    NoRest(g, WORDS);
    OnlyOne(g, WORDS / g, HALF);
  }

  lemma SumsWithZero()
    ensures forall w :: Sum(0, w) == w
  {
  }

  lemma NatOfZero()
    ensures Nat(0) == 0
  {
  }

  lemma {:induction false} NatBelow(w: Word)
    ensures Nat(w) < WORDS
    decreases Nat(w)
  {
    if w != 0 {
      hide ToWord, Nat, Sum, Before;
      Counts(w);
      NatBelow(Before(w));
      WordOfNat(w);
      WordsOfPowers();
    }
  }

  lemma NatOf(v: nat)
    requires v < WORDS
    ensures Nat(ToWord(v)) == v
  {
    hide ToWord, Nat;
    LargestWord();
    NatOfSmall(v);
  }

  /** Numbers of 32 bits are told apart by their words. */
  lemma SameWord(u: nat, v: nat)
    requires u < WORDS && v < WORDS && ToWord(u) == ToWord(v)
    ensures u == v
  {
    hide ToWord, Nat;
    NatOf(u);
    NatOf(v);
  }

  // ----- Signed -----

  /** The number a word stands for in two's complement. */
  function SNat(w: Word): int { if Nat(w) < HALF then Nat(w) else Nat(w) - WORDS }

  lemma WordOfSNat(w: Word)
    ensures -HALF <= SNat(w) < HALF && ToWord(SNat(w)) == w
  {
    hide ToWord, Nat, Sum;
    NatBelow(w);
    WordOfNat(w);
    Wraps(SNat(w));
  }

  lemma Wraps(v: int)
    ensures ToWord(v + WORDS) == ToWord(v)
  {
    hide ToWord, Sum;
    ToWordAdds(v, WORDS);
    WordsOfPowers();
    ZeroRight(ToWord(v));
  }

  lemma ZeroRight(w: Word)
    ensures Sum(w, 0) == w
  {
  }

  predicate Small(v: int) { -HALF <= v <= HALF }

  /** Numbers of at most 31 bits are told apart by their words, the two extremes aside. */
  lemma SameSigned(u: int, v: int)
    requires Small(u) && Small(v) && ToWord(u) == ToWord(v)
    ensures u == v || u == v + WORDS || v == u + WORDS
  {
    hide ToWord;
    Wraps(u);
    Wraps(v);
    SameWord(if u < 0 then u + WORDS else u, if v < 0 then v + WORDS else v);
  }

  // ----- Division -----

  function Abs(x: int): nat { if x < 0 then -x else x }

  /** Division that truncates towards zero. */
  function Quotient(x: int, y: int): int
    requires y != 0
  {
    if (x < 0) == (y < 0) then Abs(x) / Abs(y) else -(Abs(x) / Abs(y))
  }

  /** Its remainder has the sign of the dividend. */
  function Remainder(x: int, y: int): int
    requires y != 0
  {
    if x < 0 then -(Abs(x) % Abs(y)) else Abs(x) % Abs(y)
  }

  lemma Truncates(x: int, y: int)
    requires y != 0
    ensures x == Quotient(x, y) * y + Remainder(x, y) && Abs(Remainder(x, y)) < Abs(y)
    ensures Remainder(x, y) != 0 ==> (Remainder(x, y) < 0 <==> x < 0)
  {
    var m: int, n: int := Abs(x), Abs(y);
    var q: int, r: int := m / n, m % n;
    assert m == q * n + r;
    assert (-q) * n == -(q * n) && (-q) * (-n) == q * n && q * (-n) == -(q * n);
  }

  function UQuotient(a: Word, b: Word): Word { if Nat(b) == 0 then 0 else ToWord(Nat(a) / Nat(b)) }
  function URemainder(a: Word, b: Word): Word { if Nat(b) == 0 then a else ToWord(Nat(a) % Nat(b)) }
  function SQuotient(a: Word, b: Word): Word { if SNat(b) == 0 then 0 else ToWord(Quotient(SNat(a), SNat(b))) }
  function SRemainder(a: Word, b: Word): Word { if SNat(b) == 0 then a else ToWord(Remainder(SNat(a), SNat(b))) }

  /** The quotients and remainders a machine with separate signed instructions has. */
  function DivideWords(signed: bool, a: Word, b: Word): Word { if signed then SQuotient(a, b) else UQuotient(a, b) }
  function ModuloWords(signed: bool, a: Word, b: Word): Word { if signed then SRemainder(a, b) else URemainder(a, b) }

  lemma NonZero(b: Word)
    ensures Nat(b) == 0 <==> b == 0
    ensures SNat(b) == 0 <==> b == 0
  {
    hide ToWord, Nat;
    NatOfZero();
    WordOfNat(b);
    WordOfSNat(b);
    Zero();
  }

  lemma Largest(q: nat, x: nat, y: nat)
    requires 0 < y && q == x / y
    ensures q <= x && (q == x && x > 0 ==> y == 1)
  {
    if y > 1 && q > 0 {
      Multiples(1, y, q);
    } else if y == 1 {
      assert q == x;
    }
    assert x == q * y + x % y;
  }

  lemma MinusOneWord()
    ensures ToWord(-1) == 0xFFFF_FFFF && ToWord(WORDS - 1) == 0xFFFF_FFFF && ToWord(1) == 1
  {
    hide Sum;
    assert ToWord(0) == 0 && ToWord(1) == Sum(0, 1) && Sum(0, 1) == 1 by { SumsWithZero(); }
    assert ToWord(-1) == 0xFFFF_FFFF by { BelowZero(); }
    Wraps(-1);
  }

  lemma BelowZero()
    ensures ToWord(-1) == 0xFFFF_FFFF
  {
    assert ToWord(0) == 0;
  }

  /** When dividing gives the word of all ones. */
  predicate GivesOnes(signed: bool, a: Word, b: Word) {
    if signed then (SNat(a) < 0) != (SNat(b) < 0) && Abs(SNat(b)) <= Abs(SNat(a)) < 2 * Abs(SNat(b))
    else Nat(a) == WORDS - 1 && Nat(b) == 1
  }

  lemma UnsignedOnes(a: Word, b: Word)
    requires b != 0
    ensures UQuotient(a, b) == 0xFFFF_FFFF <==> GivesOnes(false, a, b)
  {
    hide ToWord, Nat;
    NonZero(b);
    NatBelow(a);
    MinusOneWord();
    var x, y := Nat(a), Nat(b);
    var q := x / y;
    Largest(q, x, y);
    if q == WORDS - 1 {
      assert x == WORDS - 1;
    }
    if ToWord(q) == 0xFFFF_FFFF {
      SameWord(q, WORDS - 1);
    }
  }

  lemma OnceIn(x: int, y: int)
    requires y != 0
    ensures Quotient(x, y) == -1 <==> (x < 0) != (y < 0) && Abs(y) <= Abs(x) < 2 * Abs(y)
    ensures Abs(Quotient(x, y)) <= Abs(x)
  {
    var m, n := Abs(x), Abs(y);
    Largest(m / n, m, n);
    OneTime(m, n);
  }

  lemma OneTime(m: nat, n: nat)
    requires 0 < n
    ensures m / n == 1 <==> n <= m < 2 * n
  {
  }

  lemma SignedOnes(a: Word, b: Word)
    requires b != 0
    ensures SQuotient(a, b) == 0xFFFF_FFFF <==> GivesOnes(true, a, b)
  {
    hide ToWord, SNat, Quotient;
    NonZero(b);
    WordOfSNat(a);
    MinusOneWord();
    var q := Quotient(SNat(a), SNat(b));
    OnceIn(SNat(a), SNat(b));
    if ToWord(q) == 0xFFFF_FFFF {
      SameSigned(q, -1);
    }
  }

  /** When a dividend is its own remainder. */
  predicate StaysWhole(signed: bool, a: Word, b: Word) {
    if signed then Abs(SNat(a)) < Abs(SNat(b)) else Nat(a) < Nat(b)
  }

  lemma RestOf(m: nat, n: nat)
    requires 0 < n
    ensures m % n <= m && (m % n == m <==> m < n)
  {
    if m < n {
      assert m / n == 0;
    }
  }

  lemma UnsignedWhole(a: Word, b: Word)
    requires b != 0
    ensures URemainder(a, b) == a <==> StaysWhole(false, a, b)
  {
    hide ToWord, Nat;
    NonZero(b);
    NatBelow(a);
    WordOfNat(a);
    RestOf(Nat(a), Nat(b));
    if URemainder(a, b) == a {
      SameWord(Nat(a) % Nat(b), Nat(a));
    }
  }

  lemma SignedWhole(a: Word, b: Word)
    requires b != 0
    ensures SRemainder(a, b) == a <==> StaysWhole(true, a, b)
  {
    hide ToWord, SNat;
    NonZero(b);
    WordOfSNat(a);
    RestOf(Abs(SNat(a)), Abs(SNat(b)));
    if SRemainder(a, b) == a {
      SameSigned(Remainder(SNat(a), SNat(b)), SNat(a));
    }
  }

  // ----- Dividing by itself, and of nothing -----

  lemma OfNothing(signed: bool, b: Word)
    requires b != 0
    ensures DivideWords(signed, 0, b) == 0 && ModuloWords(signed, 0, b) == 0
  {
    hide ToWord, Nat;
    NonZero(b);
    NonZero(0);
    Zero();
    NoneInto(Nat(b));
    NoneInto(Abs(SNat(b)));
  }

  lemma NoneInto(n: nat)
    requires 0 < n
    ensures 0 / n == 0 && 0 % n == 0
  {
  }

  lemma ByItself(signed: bool, b: Word)
    requires b != 0
    ensures DivideWords(signed, b, b) == 1 && ModuloWords(signed, b, b) == 0
  {
    hide ToWord, Nat;
    NonZero(b);
    MinusOneWord();
    Zero();
    ItselfOnce(Nat(b));
    ItselfOnce(Abs(SNat(b)));
  }

  lemma ItselfOnce(n: nat)
    requires 0 < n
    ensures n / n == 1 && n % n == 0
  {
  }

  /** Something leaves a remainder of any word but 0. */
  lemma SomeRest(signed: bool, a: Word) returns (b: Word)
    requires a != 0
    ensures b != 0 && b != 0xFFFF_FFFF && ModuloWords(signed, a, b) != 0
  {
    hide ToWord, Nat, SNat, ModuloWords;
    NonZero(a);
    NatBelow(a);
    WordOfSNat(a);
    var m := if signed then Abs(SNat(a)) else Nat(a);
    var limit := if signed then HALF else WORDS - 1;
    var n := if m + 1 < limit then m + 1 else m - 1;
    b := ToWord(n);
    WordFor(n);
    RestNextTo(m, n);
    LeavesRest(signed, a, b, n);
  }

  lemma WordFor(n: nat)
    requires 0 < n < WORDS - 1
    ensures Nat(ToWord(n)) == n && ToWord(n) != 0 && ToWord(n) != 0xFFFF_FFFF
  {
    hide ToWord, Nat;
    NatOf(n);
    NonZero(ToWord(n));
    MinusOneWord();
    NatOf(WORDS - 1);
  }

  lemma LeavesRest(signed: bool, a: Word, b: Word, n: nat)
    requires Nat(b) == n && 0 < n && (signed ==> n < HALF)
    requires 0 < (if signed then Abs(SNat(a)) else Nat(a)) % n < n < WORDS
    ensures ModuloWords(signed, a, b) != 0
  {
    hide ToWord, Nat;
    Zero();
    if ModuloWords(signed, a, b) == 0 {
      if signed {
        SameSigned(Remainder(SNat(a), n), 0);
      } else {
        SameWord(Nat(a) % n, 0);
      }
    }
  }

  lemma RestNextTo(m: nat, n: nat)
    requires m > 0 && (n == m + 1 || (n == m - 1 && n > 1))
    ensures 0 < m % n < n
  {
    if n == m - 1 {
      assert m == 1 * n + 1;
      assert m / n == 1;
    } else {
      assert m / n == 0;
    }
  }
}
