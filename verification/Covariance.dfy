/** The ridge-regularised sample covariance, which is always positive definite. */
module Covariance {
  import opened LinearAlgebra
  import Cholesky

  /** Sum over the first n rows of the products of the deviations in columns i and j. */
  function DeviationSum(data: seq<Vec>, mean: Vec, i: nat, j: nat, n: nat): real
    requires n <= |data| && i < |mean| && j < |mean| && forall r :: 0 <= r < n ==> |data[r]| == |mean|
  {
    if n == 0 then 0.0
    else DeviationSum(data, mean, i, j, n - 1) + Times(data[n - 1][i] - mean[i], data[n - 1][j] - mean[j])
  }

  lemma {:induction false} DeviationSumSymmetric(data: seq<Vec>, mean: Vec, i: nat, j: nat, n: nat)
    requires n <= |data| && i < |mean| && j < |mean| && forall r :: 0 <= r < n ==> |data[r]| == |mean|
    ensures DeviationSum(data, mean, i, j, n) == DeviationSum(data, mean, j, i, n)
  {
    hide Times;
    if n > 0 {
      DeviationSumSymmetric(data, mean, i, j, n - 1);
      Commutes(data[n - 1][i] - mean[i], data[n - 1][j] - mean[j]);
    }
  }

  ghost predicate Rows(data: seq<Vec>, mean: Vec) {
    forall r :: 0 <= r < |data| ==> |data[r]| == |mean|
  }

  /** An entry of the covariance matrix; fewer than two rows give the identity. */
  function Entry(data: seq<Vec>, mean: Vec, ridge: real, i: nat, j: nat): real
    requires Rows(data, mean) && i < |mean| && j < |mean|
  {
    if |data| < 2 then (if i == j then 1.0 else 0.0)
    else DeviationSum(data, mean, i, j, |data|) / (|data| - 1) as real + if i == j then ridge else 0.0
  }

  ghost predicate IsCovariance(cov: Mat, data: seq<Vec>, mean: Vec, ridge: real)
    requires Rows(data, mean)
  {
    && Square(cov, |mean|)
    && forall i, j :: 0 <= i < |mean| && 0 <= j < |mean| ==> cov[i][j] == Entry(data, mean, ridge, i, j)
  }

  function Set(m: Mat, i: nat, j: nat, v: real): (r: Mat)
    requires i < |m| && j < |m[i]|
    ensures |r| == |m| && forall p :: 0 <= p < |m| ==> |r[p]| == |m[p]|
    ensures forall p, q :: 0 <= p < |m| && 0 <= q < |m[p]| ==> r[p][q] == if p == i && q == j then v else m[p][q]
  {
    m[i := m[i][j := v]]
  }

  /** Position (p, q) comes before (i, j) in the order in which the loops fill the matrix. */
  predicate Before(p: int, q: int, i: int, j: int) {
    p < i || (p == i && q < j)
  }

  /** The upper triangle holds the sums of n rows, and of one more before (i, j). */
  ghost predicate Summed(cov: Mat, data: seq<Vec>, mean: Vec, n: nat, i: nat, j: nat) {
    && Rows(data, mean) && Square(cov, |mean|) && n <= |data| && (n == |data| ==> i == 0 && j == 0)
    && forall p, q :: 0 <= p <= q < |mean| ==>
         cov[p][q] == DeviationSum(data, mean, p, q, if Before(p, q, i, j) then n + 1 else n)
  }

  /** Before (i, j) the matrix is final, except that the ridge of row i is still missing;
      from there on the upper triangle holds the sums. */
  ghost predicate Scaled(cov: Mat, data: seq<Vec>, mean: Vec, ridge: real, i: nat, j: nat) {
    && Rows(data, mean) && Square(cov, |mean|) && |data| >= 2
    && forall p, q :: 0 <= p <= q < |mean| ==>
         if Before(p, q, i, j) then
           && (if p == i && q == i then cov[p][q] == DeviationSum(data, mean, p, q, |data|) / (|data| - 1) as real
               else cov[p][q] == Entry(data, mean, ridge, p, q))
           && cov[q][p] == cov[p][q]
         else cov[p][q] == DeviationSum(data, mean, p, q, |data|)
  }

  method CovarianceMatrix(data: seq<Vec>, mean: Vec, ridge: real) returns (cov: Mat)
    requires Rows(data, mean)
    ensures IsCovariance(cov, data, mean, ridge)
  {
    hide Times, DeviationSum;
    var k := |mean|;
    cov := seq(k, _ => seq(k, _ => 0.0));
    if |data| < 2 {
      for i := 0 to k
        invariant Square(cov, k)
        invariant forall p, q :: 0 <= p < k && 0 <= q < k ==> cov[p][q] == if p == q && p < i then 1.0 else 0.0
      {
        cov := Set(cov, i, i, 1.0);
      }
      return;
    }
    cov := SumDeviations(data, mean, cov);
    var denom := (|data| - 1) as real;
    for i := 0 to k
      invariant Scaled(cov, data, mean, ridge, i, i)
    {
      for j := i to k
        invariant Scaled(cov, data, mean, ridge, i, j)
      {
        ScaleEntry(cov, data, mean, ridge, i, j);
        cov := Set(cov, i, j, cov[i][j] / denom);
        cov := Set(cov, j, i, cov[i][j]);
      }
      AddRidge(cov, data, mean, ridge, i);
      cov := Set(cov, i, i, cov[i][i] + ridge);
    }
    SymmetricEntries(cov, data, mean, ridge);
  }

  method SumDeviations(data: seq<Vec>, mean: Vec, zero: Mat) returns (cov: Mat)
    requires Rows(data, mean) && Square(zero, |mean|)
    requires forall p, q :: 0 <= p < |mean| && 0 <= q < |mean| ==> zero[p][q] == 0.0
    ensures Summed(cov, data, mean, |data|, 0, 0)
  {
    hide Times;
    var k := |mean|;
    cov := zero;
    for r := 0 to |data|
      invariant Summed(cov, data, mean, r, 0, 0)
    {
      var row := data[r];
      for i := 0 to k
        invariant Summed(cov, data, mean, r, i, i)
      {
        var di := row[i] - mean[i];
        for j := i to k
          invariant Summed(cov, data, mean, r, i, j)
        {
          cov := Set(cov, i, j, cov[i][j] + Times(di, row[j] - mean[j]));
        }
      }
    }
  }

  lemma ScaleEntry(cov: Mat, data: seq<Vec>, mean: Vec, ridge: real, i: nat, j: nat)
    requires Scaled(cov, data, mean, ridge, i, j) && i <= j < |mean|
    ensures var c := Set(cov, i, j, cov[i][j] / (|data| - 1) as real);
            Scaled(Set(c, j, i, c[i][j]), data, mean, ridge, i, j + 1)
  {
    hide DeviationSum, Times;
    var c := Set(cov, i, j, cov[i][j] / (|data| - 1) as real);
    var d := Set(c, j, i, c[i][j]);
    forall p, q | 0 <= p <= q < |mean| && !(p == i && q == j) ensures d[p][q] == cov[p][q] && d[q][p] == cov[q][p] {
    }
    assert d[i][j] == d[j][i] == DeviationSum(data, mean, i, j, |data|) / (|data| - 1) as real;
  }

  lemma AddRidge(cov: Mat, data: seq<Vec>, mean: Vec, ridge: real, i: nat)
    requires i < |mean| && Scaled(cov, data, mean, ridge, i, |mean|)
    ensures Scaled(Set(cov, i, i, cov[i][i] + ridge), data, mean, ridge, i + 1, i + 1)
  {
    hide DeviationSum, Times;
  }

  lemma SymmetricEntries(cov: Mat, data: seq<Vec>, mean: Vec, ridge: real)
    requires Scaled(cov, data, mean, ridge, |mean|, |mean|)
    ensures IsCovariance(cov, data, mean, ridge)
  {
    forall i, j | 0 <= i < |mean| && 0 <= j < |mean| ensures cov[i][j] == Entry(data, mean, ridge, i, j) {
      if j < i {
        DeviationSumSymmetric(data, mean, i, j, |data|);
        assert cov[i][j] == cov[j][i];
      }
    }
  }

  lemma CovarianceSymmetric(cov: Mat, data: seq<Vec>, mean: Vec, ridge: real)
    requires Rows(data, mean) && IsCovariance(cov, data, mean, ridge)
    ensures Symmetric(cov, |mean|)
  {
    forall i, j | 0 <= i < |mean| && 0 <= j < |mean| ensures cov[i][j] == cov[j][i] {
      DeviationSumSymmetric(data, mean, i, j, |data|);
    }
  }

  // ---- the mean, and the covariance without it ----------------------------------------------

  ghost predicate SameLength(data: seq<Vec>, k: nat) {
    forall r :: 0 <= r < |data| ==> |data[r]| == k
  }

  function ColumnSum(data: seq<Vec>, i: nat, n: nat): real
    requires n <= |data| && forall r :: 0 <= r < |data| ==> i < |data[r]|
  {
    if n == 0 then 0.0 else ColumnSum(data, i, n - 1) + data[n - 1][i]
  }

  /** Multiplied by the number of rows, the mean is the sum of its column. */
  ghost predicate IsMean(data: seq<Vec>, mean: Vec) {
    && Rows(data, mean)
    && forall i :: 0 <= i < |mean| ==> Times(|data| as real, mean[i]) == ColumnSum(data, i, |data|)
  }

  method MeanVector(data: seq<Vec>) returns (m: Vec)
    requires data != [] ==> SameLength(data, |data[0]|)
    ensures IsMean(data, m) && |m| == if data == [] then 0 else |data[0]|
  {
    var k := if data == [] then 0 else |data[0]|;
    m := seq(k, _ => 0.0);
    if data == [] { return; }
    for r := 0 to |data|
      invariant |m| == k && forall j :: 0 <= j < k ==> m[j] == ColumnSum(data, j, r)
    {
      for j := 0 to k
        invariant |m| == k
        invariant forall i :: 0 <= i < k ==> m[i] == ColumnSum(data, i, if i < j then r + 1 else r)
      {
        m := m[j := m[j] + data[r][j]];
      }
    }
    var n := |data| as real;
    hide ColumnSum;
    for j := 0 to k
      invariant |m| == k
      invariant forall i :: 0 <= i < j ==> Times(n, m[i]) == ColumnSum(data, i, |data|)
      invariant forall i :: j <= i < k ==> m[i] == ColumnSum(data, i, |data|)
    {
      TimesQuotient(n, m[j]);
      m := m[j := m[j] / n];
    }
  }

  lemma TimesQuotient(n: real, x: real)
    requires n > 0.0
    ensures Times(n, x / n) == x
  {
  }

  function ProductSum(data: seq<Vec>, i: nat, j: nat, n: nat): real
    requires n <= |data| && forall r :: 0 <= r < |data| ==> i < |data[r]| && j < |data[r]|
  {
    if n == 0 then 0.0 else ProductSum(data, i, j, n - 1) + Times(data[n - 1][i], data[n - 1][j])
  }

  /** The products of the differences between row a and the first n rows. */
  function RowPairs(data: seq<Vec>, i: nat, j: nat, a: nat, n: nat): real
    requires a < |data| && n <= |data| && forall r :: 0 <= r < |data| ==> i < |data[r]| && j < |data[r]|
  {
    if n == 0 then 0.0
    else RowPairs(data, i, j, a, n - 1) + Times(data[a][i] - data[n - 1][i], data[a][j] - data[n - 1][j])
  }

  /** The products of the differences between the first m rows and all rows. */
  function PairSum(data: seq<Vec>, i: nat, j: nat, m: nat): real
    requires m <= |data| && forall r :: 0 <= r < |data| ==> i < |data[r]| && j < |data[r]|
  {
    if m == 0 then 0.0 else PairSum(data, i, j, m - 1) + RowPairs(data, i, j, m - 1, |data|)
  }

  /** p - x v - y u + m x y */
  function Centred(m: real, x: real, y: real, p: real, u: real, v: real): real {
    p - Times(x, v) - Times(y, u) + Times(m, Times(x, y))
  }

  lemma CentredStep(m: real, x: real, y: real, p: real, u: real, v: real, a: real, b: real)
    ensures Centred(m, x, y, p, u, v) + Times(a - x, b - y)
         == Centred(m + 1.0, x, y, p + Times(a, b), u + a, v + b)
    ensures Times(a - x, b - y) == Times(x - a, y - b)
  {
  }

  lemma CentredZero(x: real, y: real)
    ensures Centred(0.0, x, y, 0.0, 0.0, 0.0) == 0.0
  {
  }

  lemma {:induction false} DeviationsExpand(data: seq<Vec>, mean: Vec, i: nat, j: nat, n: nat)
    requires Rows(data, mean) && n <= |data| && i < |mean| && j < |mean|
    ensures DeviationSum(data, mean, i, j, n) ==
            Centred(n as real, mean[i], mean[j], ProductSum(data, i, j, n), ColumnSum(data, i, n),
                    ColumnSum(data, j, n))
  {
    hide Times, Centred;
    if n == 0 {
      CentredZero(mean[i], mean[j]);
    } else {
      DeviationsExpand(data, mean, i, j, n - 1);
      CentredStep((n - 1) as real, mean[i], mean[j], ProductSum(data, i, j, n - 1), ColumnSum(data, i, n - 1),
                  ColumnSum(data, j, n - 1), data[n - 1][i], data[n - 1][j]);
    }
  }

  lemma {:induction false} RowPairsExpand(data: seq<Vec>, i: nat, j: nat, a: nat, n: nat)
    requires a < |data| && n <= |data| && forall r :: 0 <= r < |data| ==> i < |data[r]| && j < |data[r]|
    ensures RowPairs(data, i, j, a, n) ==
            Centred(n as real, data[a][i], data[a][j], ProductSum(data, i, j, n), ColumnSum(data, i, n),
                    ColumnSum(data, j, n))
  {
    hide Times, Centred;
    if n == 0 {
      CentredZero(data[a][i], data[a][j]);
    } else {
      RowPairsExpand(data, i, j, a, n - 1);
      CentredStep((n - 1) as real, data[a][i], data[a][j], ProductSum(data, i, j, n - 1), ColumnSum(data, i, n - 1),
                  ColumnSum(data, j, n - 1), data[n - 1][i], data[n - 1][j]);
    }
  }

  /** n p - u v' - v u' + m p' */
  function Paired(n: real, p: real, u: real, v: real, m: real, p': real, u': real, v': real): real {
    Times(n, p) - Times(u, v') - Times(v, u') + Times(m, p')
  }

  lemma PairedStep(n: real, p: real, u: real, v: real, m: real, p': real, u': real, v': real, x: real, y: real)
    ensures Paired(n, p, u, v, m, p', u', v') + Centred(n, x, y, p', u', v')
         == Paired(n, p + Times(x, y), u + x, v + y, m + 1.0, p', u', v')
  {
  }

  lemma PairedZero(n: real, p: real, u: real, v: real)
    ensures Paired(n, 0.0, 0.0, 0.0, 0.0, p, u, v) == 0.0
  {
  }

  lemma {:induction false} PairSumExpand(data: seq<Vec>, i: nat, j: nat, m: nat)
    requires m <= |data| && forall r :: 0 <= r < |data| ==> i < |data[r]| && j < |data[r]|
    ensures var n := |data|;
            PairSum(data, i, j, m) ==
            Paired(n as real, ProductSum(data, i, j, m), ColumnSum(data, i, m), ColumnSum(data, j, m),
                   m as real, ProductSum(data, i, j, n), ColumnSum(data, i, n), ColumnSum(data, j, n))
  {
    hide Times, Centred, Paired;
    var n := |data|;
    if m == 0 {
      PairedZero(n as real, ProductSum(data, i, j, n), ColumnSum(data, i, n), ColumnSum(data, j, n));
    } else {
      PairSumExpand(data, i, j, m - 1);
      RowPairsExpand(data, i, j, m - 1, n);
      PairedStep(n as real, ProductSum(data, i, j, m - 1), ColumnSum(data, i, m - 1), ColumnSum(data, j, m - 1),
                 (m - 1) as real, ProductSum(data, i, j, n), ColumnSum(data, i, n), ColumnSum(data, j, n),
                 data[m - 1][i], data[m - 1][j]);
    }
  }

  /** The covariance of two columns is half the mean product of the differences of all pairs of
      rows: 2 n (n - 1) times the entry, without its ridge, is their sum. */
  lemma CovarianceOfPairs(cov: Mat, data: seq<Vec>, mean: Vec, ridge: real, i: nat, j: nat)
    requires IsMean(data, mean) && |data| >= 2 && IsCovariance(cov, data, mean, ridge) && i < |mean| && j < |mean|
    ensures var n := |data| as real;
            Times(2.0 * n, Times(n - 1.0, cov[i][j] - if i == j then ridge else 0.0)) == PairSum(data, i, j, |data|)
  {
    hide DeviationSum, PairSum, ColumnSum, ProductSum, Times, Centred, Paired;
    var n, d := |data| as real, DeviationSum(data, mean, i, j, |data|);
    DeviationsExpand(data, mean, i, j, |data|);
    PairSumExpand(data, i, j, |data|);
    CentredTwice(n, ProductSum(data, i, j, |data|), mean[i], mean[j]);
    TimesQuotient(n - 1.0, d);
  }

  lemma CentredTwice(n: real, p: real, x: real, y: real)
    ensures var u, v := Times(n, x), Times(n, y);
            Times(2.0 * n, Centred(n, x, y, p, u, v)) == Paired(n, p, u, v, n, p, u, v)
  {
    var u, v := n * x, n * y;
    assert n * (x * v) == u * v && n * (y * u) == u * v && n * (n * (x * y)) == u * v;
    assert Centred(n, x, y, p, u, v) == p - x * v - y * u + n * (x * y);
    TwiceTerms(n, p, x * v, y * u, n * (x * y));
  }

  lemma TwiceTerms(n: real, p: real, a: real, b: real, c: real)
    ensures Times(2.0 * n, p - a - b + c) == 2.0 * (n * p - n * a - n * b + n * c)
  {
  }

  // ---- positive definiteness ---------------------------------------------------------

  function SumMatrix(data: seq<Vec>, mean: Vec, n: nat): (s: Mat)
    requires n <= |data| && Rows(data, mean)
    ensures Square(s, |mean|)
    ensures forall i, j :: 0 <= i < |mean| && 0 <= j < |mean| ==> s[i][j] == DeviationSum(data, mean, i, j, n)
  {
    seq(|mean|, i requires 0 <= i < |mean| =>
        seq(|mean|, j requires 0 <= j < |mean| => DeviationSum(data, mean, i, j, n)))
  }

  function Outer(d: Vec): (s: Mat)
    ensures Square(s, |d|)
    ensures forall i, j :: 0 <= i < |d| && 0 <= j < |d| ==> s[i][j] == Times(d[i], d[j])
  {
    seq(|d|, i requires 0 <= i < |d| => seq(|d|, j requires 0 <= j < |d| => Times(d[i], d[j])))
  }

  function Deviation(row: Vec, mean: Vec): (d: Vec)
    requires |row| == |mean|
    ensures |d| == |mean| && forall i :: 0 <= i < |mean| ==> d[i] == row[i] - mean[i]
  {
    seq(|mean|, i requires 0 <= i < |mean| => row[i] - mean[i])
  }

  /** A sum of outer products has a nonnegative form. */
  lemma {:induction false} SumFormNonNegative(data: seq<Vec>, mean: Vec, x: Vec, n: nat)
    requires n <= |data| && Rows(data, mean) && |x| == |mean|
    ensures Quad(SumMatrix(data, mean, n), x, |mean|) >= 0.0
  {
    hide Times, Quad, SumMatrix, Outer;
    var k := |mean|;
    if n == 0 {
      ZeroForm(SumMatrix(data, mean, 0), x, k);
    } else {
      SumFormNonNegative(data, mean, x, n - 1);
      var d := Deviation(data[n - 1], mean);
      var o := Outer(d);
      QuadOuter(o, d, x, k, k);
      ProductSign(Dot(d, x, k));
      SumMatrixStep(data, mean, n);
      QuadCombine(SumMatrix(data, mean, n), o, SumMatrix(data, mean, n - 1), x, 1.0, k, k);
      ProductSign(Quad(o, x, k));
    }
  }

  lemma SumMatrixStep(data: seq<Vec>, mean: Vec, n: nat)
    requires 0 < n <= |data| && Rows(data, mean)
    ensures forall i, j :: 0 <= j <= i < |mean| ==>
              SumMatrix(data, mean, n)[i][j]
              == Times(1.0, Outer(Deviation(data[n - 1], mean))[i][j]) + SumMatrix(data, mean, n - 1)[i][j]
  {
    hide Times, SumMatrix, Outer;
    forall i, j | 0 <= j <= i < |mean|
      ensures SumMatrix(data, mean, n)[i][j]
              == Times(1.0, Outer(Deviation(data[n - 1], mean))[i][j]) + SumMatrix(data, mean, n - 1)[i][j]
    {
      ProductSign(Outer(Deviation(data[n - 1], mean))[i][j]);
    }
  }

  lemma ZeroForm(a: Mat, x: Vec, k: nat)
    requires Square(a, k) && |x| == k && forall i, j :: 0 <= i < k && 0 <= j < k ==> a[i][j] == 0.0
    ensures Quad(a, x, k) == 0.0
  {
    hide Times;
    QuadScaledIdentity(a, 0.0, x, k, k);
    ProductSign(Dot(x, x, k));
  }

  function ScaledIdentity(k: nat, r: real): (s: Mat)
    ensures Square(s, k)
    ensures forall i, j :: 0 <= i < k && 0 <= j < k ==> s[i][j] == if i == j then r else 0.0
  {
    seq(k, i => seq(k, j => if i == j then r else 0.0))
  }

  /** Whatever the data and the centre, a positive ridge makes the matrix positive definite. */
  lemma CovariancePositive(cov: Mat, data: seq<Vec>, mean: Vec, ridge: real)
    requires Rows(data, mean) && IsCovariance(cov, data, mean, ridge) && ridge > 0.0
    ensures PositiveDefinite(cov, |mean|)
  {
    hide Quad, Times;
    forall x | |x| == |mean| && NonZero(x) ensures Quad(cov, x, |mean|) > 0.0 {
      var k, n := |mean|, |data|;
      SquareNonNegative(x, k);
      if n < 2 {
        QuadScaledIdentity(cov, 1.0, x, k, k);
        ProductSign(Dot(x, x, k));
      } else {
        var s := 1.0 / (n - 1) as real;
        var id := ScaledIdentity(k, ridge);
        ScaledEntries(cov, data, mean, ridge);
        QuadCombine(cov, SumMatrix(data, mean, n), id, x, s, k, k);
        SumFormNonNegative(data, mean, x, n);
        QuadScaledIdentity(id, ridge, x, k, k);
        PositiveProduct(ridge, Dot(x, x, k));
        NonNegativeProduct(s, Quad(SumMatrix(data, mean, n), x, k));
      }
    }
  }

  lemma ScaledEntries(cov: Mat, data: seq<Vec>, mean: Vec, ridge: real)
    requires Rows(data, mean) && IsCovariance(cov, data, mean, ridge) && |data| >= 2
    ensures forall i, j :: 0 <= j <= i < |mean| ==>
              cov[i][j] == Times(1.0 / (|data| - 1) as real, SumMatrix(data, mean, |data|)[i][j])
                         + ScaledIdentity(|mean|, ridge)[i][j]
  {
    hide Times, DeviationSum, SumMatrix, ScaledIdentity;
    var d := (|data| - 1) as real;
    forall i, j | 0 <= j <= i < |mean|
      ensures cov[i][j] == Times(1.0 / d, SumMatrix(data, mean, |data|)[i][j]) + ScaledIdentity(|mean|, ridge)[i][j]
    {
      DivideIsTimes(SumMatrix(data, mean, |data|)[i][j], d);
    }
  }

  lemma DivideIsTimes(a: real, d: real)
    requires d > 0.0
    ensures a / d == Times(1.0 / d, a)
  {
  }

  lemma NonNegativeProduct(a: real, b: real)
    requires a >= 0.0 && b >= 0.0
    ensures Times(a, b) >= 0.0
  {
  }

  /** The distance of a feature vector from its history: with a positive ridge the
      factorisation always succeeds, and the result is the inverse form, never clamped. */
  method FeatureDistance(v: Vec, data: seq<Vec>, mean: Vec, ridge: real, sqrt: real -> real)
      returns (ok: bool, d2: real)
    requires Rows(data, mean) && |v| == |mean| && ridge > 0.0 && Cholesky.IsSqrt(sqrt)
    ensures ok && d2 >= 0.0
    ensures exists cov :: IsCovariance(cov, data, mean, ridge) &&
              Cholesky.IsSquaredDistance(cov, Cholesky.Minus(v, mean), d2, |mean|)
  {
    var cov := CovarianceMatrix(data, mean, ridge);
    CovarianceSymmetric(cov, data, mean, ridge);
    CovariancePositive(cov, data, mean, ridge);
    ok, d2 := Cholesky.MahalanobisSq(v, mean, cov, sqrt);
  }
}
