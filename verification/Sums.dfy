/** Sums of real sequences, and the sum over a grid of products. */
module Sums {
  function Sum(s: seq<real>): real {
    if s == [] then 0.0 else Sum(s[..|s| - 1]) + s[|s| - 1]
  }

  lemma {:induction false} SumConcat(a: seq<real>, b: seq<real>)
    ensures Sum(a + b) == Sum(a) + Sum(b)
  {
    if b == [] {
      assert a + b == a;
    } else {
      var n := |b| - 1;
      assert (a + b)[..|a| + n] == a + b[..n];
      SumConcat(a, b[..n]);
    }
  }

  /** Where cell `k` of column `i` stands, in columns of `m`. */
  function Index(i: int, k: int, m: int): int { i * m + k }

  lemma Multiples(k: int, m: int, f: nat)
    requires k <= m
    ensures k * f <= m * f
  {
  }

  lemma IndexZero(n: nat, m: nat)
    ensures 0 <= Index(n, 0, m) && (n == 0 || m == 0 ==> Index(n, 0, m) == 0)
  {
    Multiples(0, n, m);
  }

  predicate Adds(mul: (real, real) -> real, x: real, y: real, f: real) {
    mul(x + y, f) == mul(x, f) + mul(y, f) && mul(f, x + y) == mul(f, x) + mul(f, y)
  }

  /** Multiplication, as far as the sums need it. */
  ghost predicate Bilinear(mul: (real, real) -> real) {
    (forall y :: mul(0.0, y) == 0.0 && mul(y, 0.0) == 0.0) && forall x, y, f :: Adds(mul, x, y, f)
  }

  lemma {:induction false} SumScaled(mul: (real, real) -> real, f: real, h: seq<real>, column: seq<real>)
    requires Bilinear(mul) && |column| == |h| && forall k | 0 <= k < |h| :: column[k] == mul(f, h[k])
    ensures Sum(column) == mul(f, Sum(h))
  {
    if h != [] {
      var n := |h| - 1;
      SumScaled(mul, f, h[..n], column[..n]);
      assert Adds(mul, Sum(h[..n]), h[n], f);
    }
  }

  /** Column `i`, from `start(i)` on, holds the products of `f` with each of `h`; the next follows it. */
  ghost predicate IsColumn(mul: (real, real) -> real, start: int -> int, areas: seq<real>, i: int, f: real, h: seq<real>) {
    var q := start(i);
    && 0 <= q && start(i + 1) == q + |h| <= |areas|
    && forall k | 0 <= k < |h| :: areas[q..q + |h|][k] == mul(f, h[k])
  }

  /** Columns of products, one after the other, sum to the product of the sums. */
  lemma {:induction false} GridSum(mul: (real, real) -> real, start: int -> int, areas: seq<real>, w: seq<real>, h: seq<real>, n: nat)
    requires Bilinear(mul) && n <= |w| && start(0) == 0
    requires forall i | 0 <= i < n :: IsColumn(mul, start, areas, i, w[i], h)
    ensures 0 <= start(n) <= |areas| && Sum(areas[..start(n)]) == mul(Sum(w[..n]), Sum(h))
  {
    if n == 0 {
      assert areas[..0] == [] && w[..0] == [];
    } else {
      var q := start(n - 1);
      assert IsColumn(mul, start, areas, n - 1, w[n - 1], h);
      GridSum(mul, start, areas, w, h, n - 1);
      SumScaled(mul, w[n - 1], h, areas[q..q + |h|]);
      assert areas[..q + |h|] == areas[..q] + areas[q..q + |h|];
      SumConcat(areas[..q], areas[q..q + |h|]);
      assert w[..n][..n - 1] == w[..n - 1];
      assert Adds(mul, Sum(w[..n - 1]), w[n - 1], Sum(h));
    }
  }

  function Times(x: real, y: real): real { x * y }

  lemma TimesBilinear()
    ensures Bilinear(Times)
  {
  }

  lemma ColumnStart(i: int, m: nat)
    ensures Index(i + 1, 0, m) == Index(i, 0, m) + m
  {
    assert (i + 1) * m == i * m + m;
  }

  lemma ColumnCell(i: int, k: int, m: nat)
    ensures Index(i, k, m) == Index(i, 0, m) + k
  {
  }
}
