/** Sums of reals over a square grid, and what the cursor measures need of them. */
module RealSums {
  type Field = (int, int) -> real

  /** f(0, y) + ... + f(n - 1, y) */
  function Row(f: Field, y: int, n: nat): real {
    if n == 0 then 0.0 else Row(f, y, n - 1) + f(n - 1, y)
  }

  /** The first n rows of width columns. */
  function Total(f: Field, width: nat, n: nat): real {
    if n == 0 then 0.0 else Total(f, width, n - 1) + Row(f, n - 1, width)
  }

  function Shift(f: Field): Field {
    (x, y) => f(x + 1, y)
  }

  lemma {:induction false} RowSame(f: Field, g: Field, y: int, n: nat)
    requires forall x :: 0 <= x < n ==> f(x, y) == g(x, y)
    ensures Row(f, y, n) == Row(g, y, n)
  {
    if n > 0 {
      RowSame(f, g, y, n - 1);
    }
  }

  lemma {:induction false} TotalSame(f: Field, g: Field, width: nat, n: nat)
    requires forall x, y :: 0 <= x < width && 0 <= y < n ==> f(x, y) == g(x, y)
    ensures Total(f, width, n) == Total(g, width, n)
  {
    if n > 0 {
      TotalSame(f, g, width, n - 1);
      RowSame(f, g, n - 1, width);
    }
  }

  lemma {:induction false} RowFirst(f: Field, y: int, n: nat)
    requires n > 0
    ensures Row(f, y, n) == f(0, y) + Row(Shift(f), y, n - 1)
  {
    if n > 1 {
      RowFirst(f, y, n - 1);
    }
  }

  /** A row summed from the other end. */
  lemma {:induction false} RowMirrored(f: Field, g: Field, y: int, n: nat)
    requires forall x :: 0 <= x < n ==> g(x, y) == f(n - 1 - x, y)
    ensures Row(g, y, n) == Row(f, y, n)
  {
    if n > 0 {
      RowMirrored(Shift(f), g, y, n - 1);
      RowFirst(f, y, n);
    }
  }

  lemma {:induction false} TotalMirrored(f: Field, g: Field, width: nat, n: nat)
    requires forall x, y :: 0 <= x < width && 0 <= y < n ==> g(x, y) == f(width - 1 - x, y)
    ensures Total(g, width, n) == Total(f, width, n)
  {
    if n > 0 {
      TotalMirrored(f, g, width, n - 1);
      RowMirrored(f, g, n - 1, width);
    }
  }

  /** b is a with its columns in the opposite order. */
  ghost predicate Flipped(a: Field, b: Field, n: nat) {
    forall x, y :: 0 <= x < n && 0 <= y < n ==> b(x, y) == a(n - 1 - x, y)
  }

  lemma TotalFlipped(a: Field, b: Field, n: nat)
    requires Flipped(a, b, n)
    ensures Total(b, n, n) == Total(a, n, n)
  {
    TotalMirrored(a, b, n, n);
  }

  lemma Distribute(a: real, p: real, q: real)
    ensures a * (p + q) == a * p + a * q
  {
  }

  lemma {:induction false} RowLinear(f: Field, g: Field, h: Field, a: real, b: real, y: int, n: nat)
    requires forall x :: 0 <= x < n ==> h(x, y) == a * f(x, y) + b * g(x, y)
    ensures Row(h, y, n) == a * Row(f, y, n) + b * Row(g, y, n)
  {
    if n > 0 {
      RowLinear(f, g, h, a, b, y, n - 1);
      var p, q, u, v := Row(f, y, n - 1), f(n - 1, y), Row(g, y, n - 1), g(n - 1, y);
      Distribute(a, p, q);
      Distribute(b, u, v);
      assert h(n - 1, y) == a * q + b * v;
    }
  }

  lemma {:induction false} TotalLinear(f: Field, g: Field, h: Field, a: real, b: real, width: nat, n: nat)
    requires forall x, y :: 0 <= x < width && 0 <= y < n ==> h(x, y) == a * f(x, y) + b * g(x, y)
    ensures Total(h, width, n) == a * Total(f, width, n) + b * Total(g, width, n)
  {
    if n > 0 {
      TotalLinear(f, g, h, a, b, width, n - 1);
      RowLinear(f, g, h, a, b, n - 1, width);
      Distribute(a, Total(f, width, n - 1), Row(f, n - 1, width));
      Distribute(b, Total(g, width, n - 1), Row(g, n - 1, width));
    }
  }

  lemma {:induction false} RowNonNegative(f: Field, y: int, n: nat)
    requires forall x :: 0 <= x < n ==> f(x, y) >= 0.0
    ensures Row(f, y, n) >= 0.0
    ensures Row(f, y, n) == 0.0 <==> forall x :: 0 <= x < n ==> f(x, y) == 0.0
  {
    if n > 0 {
      RowNonNegative(f, y, n - 1);
    }
  }

  /** A sum of non-negative terms is zero only when they all are. */
  lemma {:induction false} TotalNonNegative(f: Field, width: nat, n: nat)
    requires forall x, y :: 0 <= x < width && 0 <= y < n ==> f(x, y) >= 0.0
    ensures Total(f, width, n) >= 0.0
    ensures Total(f, width, n) == 0.0 <==> forall x, y :: 0 <= x < width && 0 <= y < n ==> f(x, y) == 0.0
  {
    if n > 0 {
      TotalNonNegative(f, width, n - 1);
      RowNonNegative(f, n - 1, width);
    }
  }

  /** The order of two sums follows the order of their terms. */
  lemma TotalOrdered(f: Field, g: Field, width: nat, n: nat)
    requires forall x, y :: 0 <= x < width && 0 <= y < n ==> f(x, y) <= g(x, y)
    ensures Total(f, width, n) <= Total(g, width, n)
  {
    var d := Gap(f, g);
    TotalNonNegative(d, width, n);
    TotalLinear(g, f, d, 1.0, -1.0, width, n);
  }

  function Gap(f: Field, g: Field): Field {
    (x, y) => g(x, y) - f(x, y)
  }

  // ------------------------------------------------------- Cauchy-Schwarz

  lemma PositiveProduct(a: real, b: real)
    requires 0.0 < a && 0.0 < b
    ensures 0.0 < a * b
  {
  }

  lemma SquareGrows(a: real, b: real)
    requires 0.0 <= b < a
    ensures b * b < a * a
  {
    PositiveProduct(a - b, a + b);
    assert (a - b) * (a + b) == a * a - b * b;
  }

  lemma SquareOrder(a: real, b: real)
    requires 0.0 <= b && a * a <= b * b
    ensures a <= b
  {
    if a > b {
      SquareGrows(a, b);
    }
  }

  predicate Dominated(a: real, b: real, c: real) {
    0.0 <= a && 0.0 <= b && c * c <= a * b
  }

  /** Two pairs of sums that satisfy the inequality satisfy it together. */
  lemma CauchySchwarzAdds(a: real, b: real, c: real, d: real, e: real, f: real)
    requires Dominated(a, b, c) && Dominated(d, e, f)
    ensures Dominated(a + d, b + e, c + f)
  {
    var p, q, r := a * e, d * b, c * f;
    assert 0.0 <= p && 0.0 <= q;
    ProductOrder(c * c, a * b, f * f, d * e);
    assert r * r == (c * c) * (f * f);
    assert p * q == (a * b) * (d * e);
    assert (p + q) * (p + q) - 4.0 * (p * q) == (p - q) * (p - q);
    assert (2.0 * r) * (2.0 * r) == 4.0 * (r * r);
    SquareOrder(2.0 * r, p + q);
    assert (a + d) * (b + e) == a * b + p + q + d * e;
    assert (c + f) * (c + f) == c * c + 2.0 * r + f * f;
  }

  lemma ProductOrder(a: real, b: real, c: real, d: real)
    requires 0.0 <= a <= b && 0.0 <= c <= d
    ensures a * c <= b * d
  {
    assert b * d - a * c == b * (d - c) + (b - a) * c;
  }

  /** Fields of weighted squares and products: w, a*a*w, b*b*w and a*b*w at each point. */
  ghost predicate Weighted(aa: Field, bb: Field, ab: Field, width: nat, n: nat) {
    forall x, y :: 0 <= x < width && 0 <= y < n ==>
      Dominated(aa(x, y), bb(x, y), ab(x, y))
  }

  lemma {:induction false} RowCauchySchwarz(aa: Field, bb: Field, ab: Field, width: nat, n: nat, y: int, k: nat)
    requires Weighted(aa, bb, ab, width, n) && 0 <= y < n && k <= width
    ensures Dominated(Row(aa, y, k), Row(bb, y, k), Row(ab, y, k))
  {
    if k > 0 {
      RowCauchySchwarz(aa, bb, ab, width, n, y, k - 1);
      var a, b, c := Row(aa, y, k - 1), Row(bb, y, k - 1), Row(ab, y, k - 1);
      CauchySchwarzAdds(a, b, c, aa(k - 1, y), bb(k - 1, y), ab(k - 1, y));
    }
  }

  lemma {:induction false} CauchySchwarz(aa: Field, bb: Field, ab: Field, width: nat, n: nat, k: nat)
    requires Weighted(aa, bb, ab, width, n) && k <= n
    ensures Dominated(Total(aa, width, k), Total(bb, width, k), Total(ab, width, k))
  {
    if k > 0 {
      CauchySchwarz(aa, bb, ab, width, n, k - 1);
      RowCauchySchwarz(aa, bb, ab, width, n, k - 1, width);
      var a, b, c := Total(aa, width, k - 1), Total(bb, width, k - 1), Total(ab, width, k - 1);
      var d, e, f := Row(aa, k - 1, width), Row(bb, k - 1, width), Row(ab, k - 1, width);
      CauchySchwarzAdds(a, b, c, d, e, f);
    }
  }
}
