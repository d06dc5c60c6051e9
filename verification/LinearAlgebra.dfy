/** Inner products and quadratic forms over the reals, and their factored forms. */
module LinearAlgebra {

  type Vec = seq<real>
  type Mat = seq<seq<real>>

  ghost predicate Square(a: Mat, k: nat) {
    |a| == k && forall i :: 0 <= i < k ==> |a[i]| == k
  }

  ghost predicate Symmetric(a: Mat, k: nat)
    requires Square(a, k)
  {
    forall i, j :: 0 <= i < k && 0 <= j < k ==> a[i][j] == a[j][i]
  }

  // ---- products --------------------------------------------------------------------

  /** The product, named so that proofs can treat it as a symbol. */
  function Times(a: real, b: real): real { a * b }

  lemma Commutes(a: real, b: real)
    ensures Times(a, b) == Times(b, a)
  {
  }

  lemma Distributes(t: real, p: real, q: real)
    ensures Times(t, p + q) == Times(t, p) + Times(t, q)
    ensures Times(p + q, t) == Times(p, t) + Times(q, t)
  {
  }

  lemma Associates(a: real, b: real, c: real)
    ensures Times(Times(a, b), c) == Times(a, Times(b, c))
  {
  }

  lemma ProductSign(a: real)
    ensures Times(a, a) >= 0.0
    ensures a != 0.0 ==> Times(a, a) > 0.0
    ensures Times(0.0, a) == Times(a, 0.0) == 0.0
    ensures Times(1.0, a) == Times(a, 1.0) == a
  {
    if a > 0.0 {
      PositiveProduct(a, a);
    } else if a < 0.0 {
      PositiveProduct(-a, -a);
    }
  }

  lemma PositiveProduct(a: real, b: real)
    ensures a > 0.0 && b > 0.0 ==> Times(a, b) > 0.0
    ensures Times(-a, -b) == Times(a, b)
    ensures Times(-a, b) == -Times(a, b)
  {
  }

  lemma Quotient(a: real, b: real)
    requires b != 0.0
    ensures Times(a / b, b) == a && Times(b, a / b) == a
  {
  }

  // ---- inner products ----------------------------------------------------------------

  /** The inner product of the first n components. */
  function Dot(u: Vec, v: Vec, n: nat): real
    requires n <= |u| && n <= |v|
  {
    if n == 0 then 0.0 else Dot(u, v, n - 1) + Times(u[n - 1], v[n - 1])
  }

  lemma {:induction false} DotSymmetric(u: Vec, v: Vec, n: nat)
    requires n <= |u| && n <= |v|
    ensures Dot(u, v, n) == Dot(v, u, n)
  {
    hide Times;
    if n > 0 {
      DotSymmetric(u, v, n - 1);
      Commutes(u[n - 1], v[n - 1]);
    }
  }

  /** The inner product depends on the first n components only. */
  lemma {:induction false} DotPrefix(u: Vec, v: Vec, u': Vec, v': Vec, n: nat)
    requires n <= |u| && n <= |v| && n <= |u'| && n <= |v'|
    requires forall i :: 0 <= i < n ==> u[i] == u'[i] && v[i] == v'[i]
    ensures Dot(u, v, n) == Dot(u', v', n)
  {
    hide Times;
    if n > 0 {
      DotPrefix(u, v, u', v', n - 1);
    }
  }

  /** z + t * l on the length of z. */
  function AddScaled(z: Vec, l: Vec, t: real): (r: Vec)
    requires |z| <= |l|
    ensures |r| == |z|
    ensures forall p :: 0 <= p < |z| ==> r[p] == z[p] + Times(t, l[p])
  {
    seq(|z|, p requires 0 <= p < |z| => z[p] + Times(t, l[p]))
  }

  lemma {:induction false} DotAddScaled(z: Vec, l: Vec, t: real, v: Vec, n: nat)
    requires n <= |z| <= |l| && n <= |v|
    ensures Dot(AddScaled(z, l, t), v, n) == Dot(z, v, n) + Times(t, Dot(l, v, n))
  {
    hide Times, AddScaled;
    if n == 0 {
      ProductSign(t);
    } else {
      DotAddScaled(z, l, t, v, n - 1);
      var a, b, c := z[n - 1], l[n - 1], v[n - 1];
      Distributes(c, a, Times(t, b));
      Associates(t, b, c);
      Distributes(t, Dot(l, v, n - 1), Times(b, c));
    }
  }

  /** The squared length of z + t * l. */
  lemma SquareAddScaled(z: Vec, l: Vec, t: real)
    requires |z| <= |l|
    ensures var r, n := AddScaled(z, l, t), |z|;
            Dot(r, r, n) == Dot(z, z, n) + 2.0 * Times(t, Dot(z, l, n)) + Times(t, Times(t, Dot(l, l, n)))
  {
    hide AddScaled, Dot, Times;
    var r, n := AddScaled(z, l, t), |z|;
    DotAddScaled(z, l, t, r, n);
    DotSymmetric(z, r, n);
    DotSymmetric(l, r, n);
    DotAddScaled(z, l, t, z, n);
    DotAddScaled(z, l, t, l, n);
    DotSymmetric(z, l, n);
    Distributes(t, Dot(z, l, n), Times(t, Dot(l, l, n)));
  }

  lemma {:induction false} SquareNonNegative(z: Vec, n: nat)
    requires n <= |z|
    ensures Dot(z, z, n) >= 0.0
    ensures (exists i :: 0 <= i < n && z[i] != 0.0) ==> Dot(z, z, n) > 0.0
  {
    hide Times;
    if n > 0 {
      SquareNonNegative(z, n - 1);
      ProductSign(z[n - 1]);
    }
  }

  // ---- quadratic forms -----------------------------------------------------------------

  /** What a row with product r and diagonal entry d adds to a quadratic form at t. */
  function RowForm(t: real, r: real, d: real): real {
    2.0 * Times(t, r) + Times(d, Times(t, t))
  }

  /** The quadratic form of the leading n rows, reading the lower triangle. */
  function Quad(a: Mat, x: Vec, n: nat): real
    requires n <= |a| && n <= |x| && forall i :: 0 <= i < n ==> i < |a[i]|
  {
    if n == 0 then 0.0
    else Quad(a, x, n - 1) + RowForm(x[n - 1], Dot(a[n - 1], x, n - 1), a[n - 1][n - 1])
  }

  ghost predicate NonZero(x: Vec) {
    exists i :: 0 <= i < |x| && x[i] != 0.0
  }

  ghost predicate PositiveDefinite(a: Mat, k: nat)
    requires Square(a, k)
  {
    forall x :: |x| == k && NonZero(x) ==> Quad(a, x, k) > 0.0
  }

  /** Trailing zeros do not contribute. */
  lemma {:induction false} QuadTrailingZeros(a: Mat, x: Vec, m: nat, n: nat)
    requires m <= n <= |a| && n <= |x| && forall i :: 0 <= i < n ==> i < |a[i]|
    requires forall i :: m <= i < n ==> x[i] == 0.0
    ensures Quad(a, x, n) == Quad(a, x, m)
  {
    hide Times;
    if m < n {
      QuadTrailingZeros(a, x, m, n - 1);
      ProductSign(Dot(a[n - 1], x, n - 1));
      ProductSign(0.0);
      ProductSign(a[n - 1][n - 1]);
    }
  }

  /** Sum of x[i] * (a x)[i] over the first n rows and m columns. */
  function DoubleSum(a: Mat, x: Vec, n: nat, m: nat): real
    requires n <= |a| && n <= |x| && m <= |x| && forall i :: 0 <= i < n ==> m <= |a[i]|
  {
    if n == 0 then 0.0 else DoubleSum(a, x, n - 1, m) + Times(x[n - 1], Dot(a[n - 1], x, m))
  }

  lemma {:induction false} DoubleSumLastColumn(a: Mat, x: Vec, n: nat, m: nat, k: nat)
    requires Square(a, k) && Symmetric(a, k) && |x| == k && n <= k && 0 < m <= k
    ensures DoubleSum(a, x, n, m) == DoubleSum(a, x, n, m - 1) + Times(x[m - 1], Dot(a[m - 1], x, n))
  {
    hide Times;
    if n == 0 {
      ProductSign(x[m - 1]);
    } else {
      DoubleSumLastColumn(a, x, n - 1, m, k);
      var d, e, c := x[n - 1], x[m - 1], a[n - 1][m - 1];
      assert c == a[m - 1][n - 1];
      Distributes(d, Dot(a[n - 1], x, m - 1), Times(c, e));
      Distributes(e, Dot(a[m - 1], x, n - 1), Times(c, d));
      SwapFactors(d, c, e);
    }
  }

  lemma SwapFactors(d: real, c: real, e: real)
    ensures Times(d, Times(c, e)) == Times(e, Times(c, d))
  {
  }

  /** For a symmetric matrix the quadratic form is the whole double sum. */
  lemma {:induction false} QuadIsDoubleSum(a: Mat, x: Vec, n: nat, k: nat)
    requires Square(a, k) && Symmetric(a, k) && |x| == k && n <= k
    ensures Quad(a, x, n) == DoubleSum(a, x, n, n)
  {
    hide Times;
    if n > 0 {
      QuadIsDoubleSum(a, x, n - 1, k);
      DoubleSumLastColumn(a, x, n - 1, n, k);
      var d, c := x[n - 1], a[n - 1][n - 1];
      Distributes(d, Dot(a[n - 1], x, n - 1), Times(c, d));
      DiagonalTerm(d, c);
    }
  }

  lemma DiagonalTerm(d: real, c: real)
    ensures Times(d, Times(c, d)) == Times(c, Times(d, d))
  {
  }

  lemma {:induction false} DotCombine(c: Vec, a: Vec, b: Vec, x: Vec, s: real, n: nat)
    requires n <= |c| && n <= |a| && n <= |b| && n <= |x|
    requires forall i :: 0 <= i < n ==> c[i] == Times(s, a[i]) + b[i]
    ensures Dot(c, x, n) == Times(s, Dot(a, x, n)) + Dot(b, x, n)
  {
    hide Times;
    if n == 0 {
      ProductSign(s);
    } else {
      DotCombine(c, a, b, x, s, n - 1);
      Distributes(x[n - 1], Times(s, a[n - 1]), b[n - 1]);
      Associates(s, a[n - 1], x[n - 1]);
      Distributes(s, Dot(a, x, n - 1), Times(a[n - 1], x[n - 1]));
    }
  }

  /** The form of s * a + b. */
  lemma {:induction false} QuadCombine(c: Mat, a: Mat, b: Mat, x: Vec, s: real, n: nat, k: nat)
    requires Square(c, k) && Square(a, k) && Square(b, k) && |x| == k && n <= k
    requires forall i, j :: 0 <= j <= i < n ==> c[i][j] == Times(s, a[i][j]) + b[i][j]
    ensures Quad(c, x, n) == Times(s, Quad(a, x, n)) + Quad(b, x, n)
  {
    hide Times, RowForm;
    if n == 0 {
      ProductSign(s);
    } else {
      QuadCombine(c, a, b, x, s, n - 1, k);
      DotCombine(c[n - 1], a[n - 1], b[n - 1], x, s, n - 1);
      var t, ra, rb := x[n - 1], Dot(a[n - 1], x, n - 1), Dot(b[n - 1], x, n - 1);
      var da, db := a[n - 1][n - 1], b[n - 1][n - 1];
      CombineRow(s, t, ra, rb, da, db);
      Distributes(s, Quad(a, x, n - 1), RowForm(t, ra, da));
    }
  }

  lemma CombineRow(s: real, t: real, ra: real, rb: real, da: real, db: real)
    ensures RowForm(t, Times(s, ra) + rb, Times(s, da) + db) == Times(s, RowForm(t, ra, da)) + RowForm(t, rb, db)
  {
    hide Times;
    Distributes(t, Times(s, ra), rb);
    SwapOuter(t, s, ra);
    Distributes(Times(t, t), Times(s, da), db);
    Associates(s, da, Times(t, t));
    Distributes(s, Times(t, ra), Times(t, ra));
    Distributes(s, 2.0 * Times(t, ra), Times(da, Times(t, t)));
  }

  lemma SwapOuter(t: real, s: real, r: real)
    ensures Times(t, Times(s, r)) == Times(s, Times(t, r))
  {
  }

  lemma {:induction false} DotScaledRow(r: Vec, d: Vec, x: Vec, s: real, n: nat)
    requires n <= |r| && n <= |d| && n <= |x|
    requires forall j :: 0 <= j < n ==> r[j] == Times(s, d[j])
    ensures Dot(r, x, n) == Times(s, Dot(d, x, n))
  {
    hide Times;
    if n == 0 {
      ProductSign(s);
    } else {
      DotScaledRow(r, d, x, s, n - 1);
      Associates(s, d[n - 1], x[n - 1]);
      Distributes(s, Dot(d, x, n - 1), Times(d[n - 1], x[n - 1]));
    }
  }

  /** The form of an outer product is a square. */
  lemma {:induction false} QuadOuter(a: Mat, d: Vec, x: Vec, n: nat, k: nat)
    requires Square(a, k) && |d| == k && |x| == k && n <= k
    requires forall i, j :: 0 <= j <= i < n ==> a[i][j] == Times(d[i], d[j])
    ensures Quad(a, x, n) == Times(Dot(d, x, n), Dot(d, x, n))
  {
    hide Times, RowForm;
    if n == 0 {
      ProductSign(0.0);
    } else {
      QuadOuter(a, d, x, n - 1, k);
      DotScaledRow(a[n - 1], d, x, d[n - 1], n - 1);
      OuterRow(Dot(d, x, n - 1), d[n - 1], x[n - 1]);
    }
  }

  lemma OuterRow(p: real, d: real, t: real)
    ensures Times(p, p) + RowForm(t, Times(d, p), Times(d, d)) == Times(p + Times(d, t), p + Times(d, t))
  {
    var m := d * t;
    assert (p + m) * (p + m) == p * p + 2.0 * (p * m) + m * m;
    assert p * m == t * (d * p);
    assert m * m == (d * d) * (t * t);
  }

  /** The form of a multiple of the identity. */
  lemma {:induction false} QuadScaledIdentity(a: Mat, r: real, x: Vec, n: nat, k: nat)
    requires Square(a, k) && |x| == k && n <= k
    requires forall i, j :: 0 <= j <= i < n ==> a[i][j] == if i == j then r else 0.0
    ensures Quad(a, x, n) == Times(r, Dot(x, x, n))
  {
    hide Times;
    if n == 0 {
      ProductSign(r);
    } else {
      QuadScaledIdentity(a, r, x, n - 1, k);
      ZeroRow(a[n - 1], x, n - 1);
      ProductSign(x[n - 1]);
      Distributes(r, Dot(x, x, n - 1), Times(x[n - 1], x[n - 1]));
    }
  }

  lemma {:induction false} ZeroRow(r: Vec, x: Vec, n: nat)
    requires n <= |r| && n <= |x| && forall j :: 0 <= j < n ==> r[j] == 0.0
    ensures Dot(r, x, n) == 0.0
  {
    hide Times;
    if n > 0 {
      ZeroRow(r, x, n - 1);
      ProductSign(x[n - 1]);
    }
  }
}
