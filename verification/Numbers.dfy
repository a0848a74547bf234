// Quotients and remainders of products.

module Numbers {
  lemma Multiples(a: nat, b: nat, n: nat)
    requires a < b
    ensures a * n + n <= b * n
  {
    assert b * n == a * n + n + (b - a - 1) * n;
  }

  /** Splitting a number by n is unique. */
  lemma Placement(n: nat, c: nat, j: nat, w: nat)
    requires 0 < n && c < n
    ensures c + j * n == w <==> c == w % n && j == w / n
  {
    var q := w / n;
    if j < q {
      Multiples(j, q, n);
    } else if q < j {
      Multiples(q, j, n);
    }
  }
}
