// Sums over sequences: how the global counters relate to what each part holds.

module Sums {
  function Total<T>(xs: seq<T>, f: T -> int): int {
    if xs == [] then 0 else f(xs[0]) + Total(xs[1..], f)
  }

  function Itself(x: int): int { x }

  lemma {:induction false} TotalUpdate<T>(xs: seq<T>, i: nat, x: T, f: T -> int)
    requires i < |xs|
    ensures Total(xs[i := x], f) == Total(xs, f) - f(xs[i]) + f(x)
  {
    if i == 0 {
      assert xs[i := x][1..] == xs[1..];
    } else {
      assert xs[i := x][1..] == xs[1..][i - 1 := x];
      TotalUpdate(xs[1..], i - 1, x, f);
    }
  }

  lemma {:induction false} TotalAppend<T>(xs: seq<T>, x: T, f: T -> int)
    ensures Total(xs + [x], f) == Total(xs, f) + f(x)
  {
    if xs != [] {
      assert (xs + [x])[1..] == xs[1..] + [x];
      TotalAppend(xs[1..], x, f);
    }
  }

  lemma TotalTake<T>(xs: seq<T>, i: nat, f: T -> int)
    requires i < |xs|
    ensures Total(xs[..i + 1], f) == Total(xs[..i], f) + f(xs[i])
  {
    assert xs[..i + 1] == xs[..i] + [xs[i]];
    TotalAppend(xs[..i], xs[i], f);
  }

  /** Each term grows by d of the element it came from. */
  lemma {:induction false} TotalGains<T>(xs: seq<T>, ys: seq<T>, f: T -> int, d: T -> int)
    requires |xs| == |ys|
    requires forall i :: 0 <= i < |xs| ==> f(ys[i]) == f(xs[i]) + d(xs[i])
    ensures Total(ys, f) == Total(xs, f) + Total(xs, d)
  {
    if xs != [] {
      TotalGains(xs[1..], ys[1..], f, d);
    }
  }

  /** Sums of two measures of the same size agree. */
  lemma {:induction false} TotalSame<S, T>(xs: seq<S>, ys: seq<T>, f: S -> int, g: T -> int)
    requires |xs| == |ys|
    requires forall i :: 0 <= i < |xs| ==> f(xs[i]) == g(ys[i])
    ensures Total(xs, f) == Total(ys, g)
  {
    if xs != [] {
      TotalSame(xs[1..], ys[1..], f, g);
    }
  }

  /** A sum stays within the bounds of its terms. */
  lemma {:induction false} TotalWithin<S, T>(xs: seq<S>, ys: seq<T>, f: S -> int, g: T -> int)
    requires |xs| == |ys|
    requires forall i :: 0 <= i < |xs| ==> f(xs[i]) <= g(ys[i])
    ensures Total(xs, f) <= Total(ys, g)
  {
    if xs != [] {
      TotalWithin(xs[1..], ys[1..], f, g);
    }
  }

  /** and reaches them only when every term does. */
  lemma {:induction false} TotalTight<S, T>(xs: seq<S>, ys: seq<T>, f: S -> int, g: T -> int)
    requires |xs| == |ys|
    requires forall i :: 0 <= i < |xs| ==> f(xs[i]) <= g(ys[i])
    requires Total(xs, f) >= Total(ys, g)
    ensures forall i :: 0 <= i < |xs| ==> f(xs[i]) == g(ys[i])
  {
    if xs != [] {
      TotalWithin(xs[1..], ys[1..], f, g);
      TotalTight(xs[1..], ys[1..], f, g);
      forall i | 0 <= i < |xs| ensures f(xs[i]) == g(ys[i]) {
        if i > 0 {
          assert f(xs[1..][i - 1]) == g(ys[1..][i - 1]);
        }
      }
    }
  }

  lemma {:induction false} TotalZero<T>(xs: seq<T>, f: T -> int)
    requires forall i :: 0 <= i < |xs| ==> f(xs[i]) == 0
    ensures Total(xs, f) == 0
  {
    if xs != [] {
      TotalZero(xs[1..], f);
    }
  }

  lemma {:induction false} NotNegative<T>(xs: seq<T>, f: T -> int)
    requires forall i :: 0 <= i < |xs| ==> f(xs[i]) >= 0
    ensures Total(xs, f) >= 0
  {
    if xs != [] {
      NotNegative(xs[1..], f);
    }
  }
}
