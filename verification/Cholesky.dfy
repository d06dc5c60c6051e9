/** Cholesky factorisation of a covariance matrix, the triangular solves and the squared
    Mahalanobis distance, over the reals. */
module Cholesky {
  import opened LinearAlgebra

  // ---- factors -----------------------------------------------------------------------

  ghost predicate PositiveDiagonal(L: Mat, n: nat) {
    n <= |L| && forall i :: 0 <= i < n ==> i < |L[i]| && L[i][i] > 0.0
  }

  /** The first n rows of L times its transpose give the lower triangle of a. */
  ghost predicate Factors(L: Mat, a: Mat, n: nat, k: nat)
    requires Square(L, k) && Square(a, k) && n <= k
  {
    forall i, j :: 0 <= j <= i < n ==> Dot(L[i], L[j], j + 1) == a[i][j]
  }

  ghost predicate LowerTriangular(L: Mat, k: nat)
    requires Square(L, k)
  {
    forall i, j :: 0 <= i < j < k ==> L[i][j] == 0.0
  }

  /** The transposed factor applied to x, over the first n rows. */
  function TransposeApply(L: Mat, x: Vec, n: nat): (z: Vec)
    requires n <= |L| && n <= |x| && forall i :: 0 <= i < n ==> i < |L[i]|
    ensures |z| == n
  {
    if n == 0 then []
    else AddScaled(TransposeApply(L, x, n - 1), L[n - 1], x[n - 1]) + [Times(L[n - 1][n - 1], x[n - 1])]
  }

  /** Exchanging the order of summation. */
  lemma {:induction false} SwapSums(L: Mat, x: Vec, l: Vec, r: Vec, m: nat)
    requires m <= |L| && m <= |x| && m <= |l| && m <= |r| && forall i :: 0 <= i < m ==> i < |L[i]|
    requires forall i :: 0 <= i < m ==> r[i] == Dot(L[i], l, i + 1)
    ensures Dot(TransposeApply(L, x, m), l, m) == Dot(r, x, m)
  {
    hide Times, AddScaled;
    if m > 0 {
      SwapSums(L, x, l, r, m - 1);
      var z, row, t := TransposeApply(L, x, m - 1), L[m - 1], x[m - 1];
      var e := Times(row[m - 1], t);
      DotPrefix(AddScaled(z, row, t) + [e], l, AddScaled(z, row, t), l, m - 1);
      DotAddScaled(z, row, t, l, m - 1);
      Commutes(r[m - 1], t);
      Distributes(t, Dot(row, l, m - 1), Times(row[m - 1], l[m - 1]));
      MiddleFactor(row[m - 1], t, l[m - 1]);
    }
  }

  lemma MiddleFactor(a: real, t: real, b: real)
    ensures Times(Times(a, t), b) == Times(t, Times(a, b))
  {
  }

  /** The quadratic form of a factored matrix is a sum of squares. */
  lemma {:induction false} QuadIsSquare(L: Mat, a: Mat, x: Vec, n: nat, k: nat)
    requires Square(L, k) && Square(a, k) && n <= k && n <= |x| && Factors(L, a, n, k)
    ensures var z := TransposeApply(L, x, n); Quad(a, x, n) == Dot(z, z, n)
  {
    hide Times, RowForm, AddScaled;
    if n > 0 {
      QuadIsSquare(L, a, x, n - 1, k);
      var z, row, t := TransposeApply(L, x, n - 1), L[n - 1], x[n - 1];
      var s, e := AddScaled(z, row, t), Times(row[n - 1], t);
      DotPrefix(s + [e], s + [e], s, s, n - 1);
      SquareAddScaled(z, row, t);
      forall i | 0 <= i < n - 1 ensures a[n - 1][i] == Dot(L[i], row, i + 1) {
        DotSymmetric(L[i], row, i + 1);
      }
      SwapSums(L, x, row, a[n - 1], n - 1);
      assert a[n - 1][n - 1] == Dot(row, row, n);
      NewSquare(t, Dot(z, row, n - 1), Dot(row, row, n - 1), row[n - 1]);
    }
  }

  lemma NewSquare(t: real, zl: real, ll: real, d: real)
    ensures RowForm(t, zl, ll + Times(d, d)) ==
            2.0 * Times(t, zl) + Times(t, Times(t, ll)) + Times(Times(d, t), Times(d, t))
  {
    assert (ll + d * d) * (t * t) == t * (t * ll) + (d * t) * (d * t);
  }

  /** The transposed factor has no kernel. */
  lemma {:induction false} TransposeInjective(L: Mat, x: Vec, n: nat)
    requires n <= |L| && n <= |x| && PositiveDiagonal(L, n)
    requires forall i :: 0 <= i < n ==> TransposeApply(L, x, n)[i] == 0.0
    ensures forall i :: 0 <= i < n ==> x[i] == 0.0
  {
    hide Times;
    if n > 0 {
      var z, row, t := TransposeApply(L, x, n - 1), L[n - 1], x[n - 1];
      var whole := TransposeApply(L, x, n);
      assert whole[n - 1] == Times(row[n - 1], t);
      NoZeroProduct(row[n - 1], t);
      forall i | 0 <= i < n - 1 ensures z[i] == 0.0 {
        assert whole[i] == z[i] + Times(t, row[i]);
        ProductSign(row[i]);
      }
      TransposeInjective(L, x, n - 1);
    }
  }

  lemma NoZeroProduct(d: real, t: real)
    requires d > 0.0 && Times(d, t) == 0.0
    ensures t == 0.0
  {
    PositiveProduct(d, t);
    PositiveProduct(t, d);
    PositiveProduct(d, -t);
  }

  /** A factored matrix is positive definite. */
  lemma FactoredIsPositive(L: Mat, a: Mat, k: nat)
    requires Square(L, k) && Square(a, k) && Factors(L, a, k, k) && PositiveDiagonal(L, k)
    ensures PositiveDefinite(a, k)
  {
    forall x | |x| == k && NonZero(x) ensures Quad(a, x, k) > 0.0 {
      var z := TransposeApply(L, x, k);
      QuadIsSquare(L, a, x, k, k);
      SquareNonNegative(z, k);
      if forall i :: 0 <= i < k ==> z[i] == 0.0 {
        TransposeInjective(L, x, k);
      }
    }
  }

  lemma {:induction false} TransposePrefix(L: Mat, x: Vec, y: Vec, n: nat)
    requires n <= |L| && n <= |x| && n <= |y| && forall i :: 0 <= i < n ==> i < |L[i]| && x[i] == y[i]
    ensures TransposeApply(L, x, n) == TransposeApply(L, y, n)
  {
    if n > 0 {
      TransposePrefix(L, x, y, n - 1);
    }
  }

  /** Every target is reached by the transposed factor. */
  lemma {:induction false} TransposeOnto(L: Mat, z: Vec, n: nat) returns (x: Vec)
    requires n <= |L| && |z| == n && PositiveDiagonal(L, n)
    ensures |x| == n && TransposeApply(L, x, n) == z
    decreases n
  {
    hide Times;
    if n == 0 {
      x := [];
    } else {
      var row := L[n - 1];
      var t := z[n - 1] / row[n - 1];
      Quotient(z[n - 1], row[n - 1]);
      var target := AddScaled(z[..n - 1], row, -t);
      var x' := TransposeOnto(L, target, n - 1);
      x := x' + [t];
      TransposePrefix(L, x, x', n - 1);
      forall p | 0 <= p < n - 1 ensures target[p] + Times(t, row[p]) == z[p] {
        PositiveProduct(t, row[p]);
      }
      assert TransposeApply(L, x, n) == z[..n - 1] + [z[n - 1]];
    }
  }

  /** A pivot that is not positive refutes positive definiteness. */
  lemma FailedPivot(L: Mat, a: Mat, i: nat, l: Vec, k: nat)
    requires Square(L, k) && Square(a, k) && i < k && Factors(L, a, i, k) && PositiveDiagonal(L, i) && |l| == k
    requires forall j :: 0 <= j < i ==> Dot(l, L[j], j + 1) == a[i][j]
    requires a[i][i] - Dot(l, l, i) <= 0.0
    ensures !PositiveDefinite(a, k)
  {
    hide Times, Quad, Dot, TransposeApply;
    var z := seq(i, p requires 0 <= p < i => -l[p]);
    var x' := TransposeOnto(L, z, i);
    var x := x' + [1.0] + seq(k - i - 1, _ => 0.0);
    assert forall q :: 0 <= q < i ==> x[q] == x'[q];
    TransposePrefix(L, x, x', i);
    PivotForm(L, a, i, l, x, k);
    QuadTrailingZeros(a, x, i + 1, k);
    assert x[i] == 1.0 && NonZero(x);
  }

  /** On the vector that cancels the row, the form is the pivot. */
  lemma PivotForm(L: Mat, a: Mat, i: nat, l: Vec, x: Vec, k: nat)
    requires Square(L, k) && Square(a, k) && i < k && Factors(L, a, i, k) && |l| == k && |x| == k
    requires forall j :: 0 <= j < i ==> Dot(l, L[j], j + 1) == a[i][j]
    requires x[i] == 1.0 && forall p :: 0 <= p < i ==> TransposeApply(L, x, i)[p] == -l[p]
    ensures Quad(a, x, i + 1) == a[i][i] - Dot(l, l, i)
  {
    hide Times, TransposeApply, Dot, RowForm;
    var z := TransposeApply(L, x, i);
    QuadIsSquare(L, a, x, i, k);
    PivotRow(L, a, i, l, x, k);
    DotNegated(z, l, i);
    UnitRowForm(Dot(a[i], x, i), a[i][i]);
  }

  lemma PivotRow(L: Mat, a: Mat, i: nat, l: Vec, x: Vec, k: nat)
    requires Square(L, k) && Square(a, k) && i < k && |l| == k && |x| == k
    requires forall j :: 0 <= j < i ==> Dot(l, L[j], j + 1) == a[i][j]
    ensures Dot(a[i], x, i) == Dot(TransposeApply(L, x, i), l, i)
  {
    hide Times, TransposeApply, Dot;
    forall j | 0 <= j < i ensures a[i][j] == Dot(L[j], l, j + 1) {
      DotSymmetric(L[j], l, j + 1);
    }
    SwapSums(L, x, l, a[i], i);
  }

  lemma UnitRowForm(r: real, d: real)
    ensures RowForm(1.0, r, d) == 2.0 * r + d
  {
  }

  lemma {:induction false} DotNegated(z: Vec, l: Vec, n: nat)
    requires n <= |z| && n <= |l| && forall p :: 0 <= p < n ==> z[p] == -l[p]
    ensures Dot(z, l, n) == -Dot(l, l, n) && Dot(z, z, n) == Dot(l, l, n)
  {
    hide Times;
    if n > 0 {
      DotNegated(z, l, n - 1);
      PositiveProduct(l[n - 1], l[n - 1]);
    }
  }

  // ---- the factorisation ------------------------------------------------------------

  ghost predicate IsSqrt(sqrt: real -> real) {
    forall s :: s > 0.0 ==> sqrt(s) > 0.0 && Times(sqrt(s), sqrt(s)) == s
  }

  /** Rows below i are done, row i is done up to column j, the rest is zero. */
  ghost predicate Progress(L: Mat, a: Mat, i: nat, j: nat, k: nat) {
    && Square(L, k) && Square(a, k) && i <= k && j <= i + 1
    && Factors(L, a, i, k) && PositiveDiagonal(L, i) && LowerTriangular(L, k)
    && (i < k ==> forall q :: 0 <= q < j ==> Dot(L[i], L[q], q + 1) == a[i][q])
    && (i < k && j == i + 1 ==> L[i][i] > 0.0)
    && (i < k ==> forall q :: j <= q < k ==> L[i][q] == 0.0)
    && (forall p, q :: i < p < k && 0 <= q < k ==> L[p][q] == 0.0)
  }

  lemma SetEntry(L: Mat, a: Mat, i: nat, j: nat, k: nat, v: real)
    requires Progress(L, a, i, j, k) && j <= i < k
    requires var d := if i == j then v else L[j][j];
             Dot(L[i], L[j], j) + Times(v, d) == a[i][j] && (i == j ==> v > 0.0)
    ensures Progress(L[i := L[i][j := v]], a, i, j + 1, k)
  {
    hide Times, Dot;
    var M := L[i := L[i][j := v]];
    forall q | 0 <= q <= j ensures Dot(M[i], M[q], q + 1) == a[i][q] {
      SetEntryProduct(L, a, i, j, k, v, q);
    }
    assert Factors(M, a, i, k);
  }

  lemma SetEntryProduct(L: Mat, a: Mat, i: nat, j: nat, k: nat, v: real, q: nat)
    requires Square(L, k) && Square(a, k) && q <= j <= i < k
    requires q < j ==> Dot(L[i], L[q], q + 1) == a[i][q]
    requires Dot(L[i], L[j], j) + Times(v, if i == j then v else L[j][j]) == a[i][j]
    ensures var M := L[i := L[i][j := v]]; Dot(M[i], M[q], q + 1) == a[i][q]
  {
    hide Times, Dot;
    var M := L[i := L[i][j := v]];
    if q < j {
      DotPrefix(M[i], M[q], L[i], L[q], q + 1);
    } else {
      DotPrefix(M[i], M[j], L[i], L[j], j);
      DotUnfold(M, i, j);
    }
  }

  lemma DotUnfold(M: Mat, i: nat, j: nat)
    requires i < |M| && j < |M| && j < |M[i]| && j < |M[j]|
    ensures Dot(M[i], M[j], j + 1) == Dot(M[i], M[j], j) + Times(M[i][j], M[j][j])
  {
  }

  lemma NextRow(L: Mat, a: Mat, i: nat, k: nat)
    requires Progress(L, a, i, i + 1, k) && i < k
    ensures Progress(L, a, i + 1, 0, k)
  {
  }

  /** Fails exactly on matrices that are not positive definite. */
  method Factor(a: Mat, sqrt: real -> real) returns (ok: bool, L: Mat)
    requires Square(a, |a|) && IsSqrt(sqrt)
    ensures ok <==> PositiveDefinite(a, |a|)
    ensures ok ==> Square(L, |a|) && LowerTriangular(L, |a|) && PositiveDiagonal(L, |a|) && Factors(L, a, |a|, |a|)
  {
    hide Times, PositiveDefinite;
    var k := |a|;
    L := seq(k, _ => seq(k, _ => 0.0));
    for i := 0 to k
      invariant Progress(L, a, i, 0, k)
    {
      for j := 0 to i + 1
        invariant Progress(L, a, i, j, k)
      {
        var sum := a[i][j];
        for p := 0 to j
          invariant sum == a[i][j] - Dot(L[i], L[j], p)
        {
          sum := sum - Times(L[i][p], L[j][p]);
        }
        var v: real;
        if i == j {
          if sum <= 0.0 {
            FailedPivot(L, a, i, L[i], k);
            return false, L;
          }
          v := sqrt(sum);
        } else {
          v := sum / L[j][j];
          Quotient(sum, L[j][j]);
        }
        SetEntry(L, a, i, j, k, v);
        L := L[i := L[i][j := v]];
      }
      NextRow(L, a, i, k);
    }
    FactoredIsPositive(L, a, k);
    ok := true;
  }

  // ---- the triangular solves --------------------------------------------------------

  /** Sum of L[p][i] * x[p] over lo <= p < n. */
  function Column(L: Mat, x: Vec, i: nat, lo: nat, n: nat): real
    requires n <= |L| && n <= |x| && forall p :: lo <= p < n ==> i < |L[p]|
  {
    if n <= lo then 0.0 else Column(L, x, i, lo, n - 1) + Times(L[n - 1][i], x[n - 1])
  }

  lemma {:induction false} ColumnPrefix(L: Mat, x: Vec, y: Vec, i: nat, lo: nat, n: nat)
    requires n <= |L| && n <= |x| && n <= |y| && forall p :: lo <= p < n ==> i < |L[p]| && x[p] == y[p]
    ensures Column(L, x, i, lo, n) == Column(L, y, i, lo, n)
  {
    hide Times;
    if n > lo {
      ColumnPrefix(L, x, y, i, lo, n - 1);
    }
  }

  lemma {:induction false} ColumnFirst(L: Mat, x: Vec, i: nat, n: nat)
    requires i < n <= |L| && n <= |x| && forall p :: i <= p < n ==> i < |L[p]|
    ensures Column(L, x, i, i, n) == Times(L[i][i], x[i]) + Column(L, x, i, i + 1, n)
  {
    hide Times;
    if n > i + 1 {
      ColumnFirst(L, x, i, n - 1);
    }
  }

  /** The transposed factor adds up columns. */
  lemma {:induction false} TransposeIsColumns(L: Mat, x: Vec, n: nat, i: nat)
    requires i < n <= |L| && n <= |x| && forall p :: 0 <= p < n ==> p < |L[p]|
    ensures TransposeApply(L, x, n)[i] == Column(L, x, i, i, n)
  {
    hide Times;
    if i < n - 1 {
      TransposeIsColumns(L, x, n - 1, i);
      Commutes(L[n - 1][i], x[n - 1]);
    }
  }

  ghost predicate ForwardSolved(L: Mat, b: Vec, y: Vec, n: nat)
    requires n <= |L| && n <= |b| && n <= |y| && forall i :: 0 <= i < n ==> i < |L[i]|
  {
    forall i :: 0 <= i < n ==> Dot(L[i], y, i + 1) == b[i]
  }

  ghost predicate BackSolved(L: Mat, y: Vec, x: Vec, from: nat, k: nat)
    requires Square(L, k) && |x| == k && |y| == k
  {
    forall i :: from <= i < k ==> Column(L, x, i, i, k) == y[i]
  }

  method Forward(L: Mat, b: Vec) returns (y: Vec)
    requires Square(L, |L|) && PositiveDiagonal(L, |L|) && |b| == |L|
    ensures |y| == |L| && ForwardSolved(L, b, y, |L|)
  {
    hide Times;
    var k := |L|;
    y := seq(k, _ => 0.0);
    for i := 0 to k
      invariant |y| == k && ForwardSolved(L, b, y, i)
    {
      var sum := b[i];
      for p := 0 to i
        invariant sum == b[i] - Dot(L[i], y, p)
      {
        sum := sum - Times(L[i][p], y[p]);
      }
      Quotient(sum, L[i][i]);
      ForwardStep(L, b, y, i, sum / L[i][i]);
      y := y[i := sum / L[i][i]];
    }
  }

  lemma ForwardStep(L: Mat, b: Vec, y: Vec, i: nat, v: real)
    requires Square(L, |L|) && |b| == |y| == |L| && i < |L| && ForwardSolved(L, b, y, i)
    requires Dot(L[i], y, i) + Times(L[i][i], v) == b[i]
    ensures ForwardSolved(L, b, y[i := v], i + 1)
  {
    hide Times;
    var y' := y[i := v];
    forall q | 0 <= q < i ensures Dot(L[q], y', q + 1) == b[q] {
      DotPrefix(L[q], y', L[q], y, q + 1);
    }
    DotPrefix(L[i], y', L[i], y, i);
  }

  method Backward(L: Mat, y: Vec) returns (x: Vec)
    requires Square(L, |L|) && PositiveDiagonal(L, |L|) && |y| == |L|
    ensures |x| == |L| && BackSolved(L, y, x, 0, |L|)
  {
    hide Times;
    var k := |L|;
    x := seq(k, _ => 0.0);
    for ii := 0 to k
      invariant |x| == k && BackSolved(L, y, x, k - ii, k)
    {
      var i := k - 1 - ii;
      var sum := y[i];
      for p := i + 1 to k
        invariant sum == y[i] - Column(L, x, i, i + 1, p)
      {
        sum := sum - Times(L[p][i], x[p]);
      }
      Quotient(sum, L[i][i]);
      BackStep(L, y, x, i, sum / L[i][i], k);
      x := x[i := sum / L[i][i]];
    }
  }

  lemma BackStep(L: Mat, y: Vec, x: Vec, i: nat, v: real, k: nat)
    requires Square(L, k) && |x| == |y| == k && i < k && BackSolved(L, y, x, i + 1, k)
    requires Times(L[i][i], v) + Column(L, x, i, i + 1, k) == y[i]
    ensures BackSolved(L, y, x[i := v], i, k)
  {
    hide Times, Column;
    var x' := x[i := v];
    BackNewColumn(L, x, i, v, k);
    forall q | i < q < k ensures Column(L, x', q, q, k) == y[q] {
      BackOldColumn(L, x, i, v, q, k);
    }
  }

  lemma BackNewColumn(L: Mat, x: Vec, i: nat, v: real, k: nat)
    requires Square(L, k) && |x| == k && i < k
    ensures Column(L, x[i := v], i, i, k) == Times(L[i][i], v) + Column(L, x, i, i + 1, k)
  {
    hide Times, Column;
    ColumnFirst(L, x[i := v], i, k);
    ColumnPrefix(L, x[i := v], x, i, i + 1, k);
  }

  lemma BackOldColumn(L: Mat, x: Vec, i: nat, v: real, q: nat, k: nat)
    requires Square(L, k) && |x| == k && i < q < k
    ensures Column(L, x[i := v], q, q, k) == Column(L, x, q, q, k)
  {
    hide Times, Column;
    ColumnPrefix(L, x[i := v], x, q, q, k);
  }

  /** `a x = b`, with every entry of the symmetric matrix. */
  ghost predicate Solves(a: Mat, x: Vec, b: Vec, k: nat)
    requires Square(a, k) && |x| == k && |b| == k
  {
    forall i :: 0 <= i < k ==> Dot(a[i], x, k) == b[i]
  }

  ghost predicate FactorOf(L: Mat, a: Mat, k: nat) {
    && Square(L, k) && Square(a, k) && LowerTriangular(L, k)
    && PositiveDiagonal(L, k) && Factors(L, a, k, k)
  }

  lemma {:induction false} DotZeroTail(u: Vec, v: Vec, m: nat, n: nat)
    requires m <= n <= |u| && n <= |v| && forall p :: m <= p < n ==> v[p] == 0.0
    ensures Dot(u, v, n) == Dot(u, v, m)
  {
    hide Times;
    if m < n {
      DotZeroTail(u, v, m, n - 1);
      ProductSign(u[n - 1]);
    }
  }

  lemma BackSolvedTranspose(L: Mat, y: Vec, x: Vec, k: nat)
    requires Square(L, k) && |x| == |y| == k && BackSolved(L, y, x, 0, k)
    ensures TransposeApply(L, x, k) == y
  {
    forall i | 0 <= i < k ensures TransposeApply(L, x, k)[i] == y[i] {
      TransposeIsColumns(L, x, k, i);
    }
  }

  /** Entries on both sides of the diagonal are products of factor rows. */
  lemma RowProducts(L: Mat, a: Mat, row: nat, i: nat, k: nat)
    requires FactorOf(L, a, k) && Symmetric(a, k) && row < k && i < k
    ensures a[row][i] == Dot(L[i], L[row], i + 1)
  {
    if i <= row {
      DotSymmetric(L[i], L[row], i + 1);
    } else {
      DotZeroTail(L[i], L[row], row + 1, i + 1);
    }
  }

  /** The two triangular solves together solve the system. */
  lemma SolveCorrect(L: Mat, a: Mat, b: Vec, y: Vec, x: Vec, k: nat)
    requires FactorOf(L, a, k) && Symmetric(a, k) && |b| == |y| == |x| == k
    requires ForwardSolved(L, b, y, k) && BackSolved(L, y, x, 0, k)
    ensures Solves(a, x, b, k)
  {
    BackSolvedTranspose(L, y, x, k);
    forall row | 0 <= row < k ensures Dot(a[row], x, k) == b[row] {
      forall i | 0 <= i < k ensures a[row][i] == Dot(L[i], L[row], i + 1) {
        RowProducts(L, a, row, i, k);
      }
      SwapSums(L, x, L[row], a[row], k);
      DotZeroTail(y, L[row], row + 1, k);
      DotSymmetric(y, L[row], row + 1);
    }
  }

  lemma {:induction false} SolvedDoubleSum(a: Mat, x: Vec, b: Vec, n: nat, k: nat)
    requires Square(a, k) && |x| == |b| == k && n <= k && Solves(a, x, b, k)
    ensures DoubleSum(a, x, n, k) == Dot(b, x, n)
  {
    hide Times;
    if n > 0 {
      SolvedDoubleSum(a, x, b, n - 1, k);
      Commutes(x[n - 1], b[n - 1]);
    }
  }

  /** The distance is the squared length of the forward solution. */
  lemma DistanceIsSquare(L: Mat, a: Mat, b: Vec, y: Vec, x: Vec, k: nat)
    requires FactorOf(L, a, k) && Symmetric(a, k) && |b| == |y| == |x| == k
    requires ForwardSolved(L, b, y, k) && BackSolved(L, y, x, 0, k)
    ensures Dot(b, x, k) == Dot(y, y, k) >= 0.0
  {
    SolveCorrect(L, a, b, y, x, k);
    SolvedDoubleSum(a, x, b, k, k);
    QuadIsDoubleSum(a, x, k, k);
    BackSolvedTranspose(L, y, x, k);
    QuadIsSquare(L, a, x, k, k);
    SquareNonNegative(y, k);
  }

  method Solve(L: Mat, b: Vec) returns (x: Vec, ghost y: Vec)
    requires Square(L, |L|) && PositiveDiagonal(L, |L|) && |b| == |L|
    ensures |x| == |y| == |L| && ForwardSolved(L, b, y, |L|) && BackSolved(L, y, x, 0, |L|)
    ensures forall a :: FactorOf(L, a, |L|) && Symmetric(a, |L|) ==> Solves(a, x, b, |L|)
  {
    var y' := Forward(L, b);
    y := y';
    x := Backward(L, y');
    forall a | FactorOf(L, a, |L|) && Symmetric(a, |L|) ensures Solves(a, x, b, |L|) {
      SolveCorrect(L, a, b, y, x, |L|);
    }
  }

  function Minus(v: Vec, w: Vec): (d: Vec)
    requires |v| == |w|
    ensures |d| == |v| && forall i :: 0 <= i < |v| ==> d[i] == v[i] - w[i]
  {
    seq(|v|, i requires 0 <= i < |v| => v[i] - w[i])
  }

  /** `d2` is the value of the inverse form at d: d2 = d . x for the solution of cov x = d. */
  ghost predicate IsSquaredDistance(cov: Mat, d: Vec, d2: real, k: nat)
    requires Square(cov, k) && |d| == k
  {
    exists x :: |x| == k && Solves(cov, x, d, k) && d2 == Dot(d, x, k)
  }

  method InnerProduct(u: Vec, v: Vec) returns (sum: real)
    requires |u| == |v|
    ensures sum == Dot(u, v, |u|)
  {
    hide Times;
    sum := 0.0;
    for i := 0 to |u|
      invariant sum == Dot(u, v, i)
    {
      sum := sum + Times(u[i], v[i]);
    }
  }

  method MahalanobisSq(v: Vec, mean: Vec, cov: Mat, sqrt: real -> real) returns (ok: bool, d2: real)
    requires |v| == |mean| == |cov| && Square(cov, |cov|) && Symmetric(cov, |cov|) && IsSqrt(sqrt)
    ensures ok <==> PositiveDefinite(cov, |cov|)
    ensures ok ==> d2 >= 0.0 && IsSquaredDistance(cov, Minus(v, mean), d2, |cov|)
  {
    hide Times, Dot, PositiveDefinite;
    var k := |cov|;
    var L;
    ok, L := Factor(cov, sqrt);
    if !ok { return false, 0.0; }
    var diff := Minus(v, mean);
    ghost var y;
    var x;
    x, y := Solve(L, diff);
    var sum := InnerProduct(diff, x);
    DistanceIsSquare(L, cov, diff, y, x, k);
    assert Solves(cov, x, diff, k);
    d2 := if sum < 0.0 then 0.0 else sum;
  }
}
