/** Column means, centring and covariance of an (n_samples x n_features) data
    matrix (mainprocess_internal.cpp, "Mean / Centering / Covariance"). */
module Statistics {
  import opened Matrices
  import opened Arithmetic

  // ---------------------------------------------------------------------------
  // columnMean
  // ---------------------------------------------------------------------------

  /** The sum of the first n entries of column c, accumulated top to bottom. */
  function ColSum(M: Matrix, c: nat, n: nat): real
    requires Valid(M) && c < M.cols && n <= M.rows
  {
    if n == 0 then 0.0 else ColSum(M, c, n - 1) + At(M, n - 1, c)
  }

  /** The 1 x cols row of column averages: entry c is column c's sum divided by
      the number of rows. An empty matrix would divide by zero. */
  function ColumnMeanOf(M: Matrix): (mean: Matrix)
    requires Valid(M) && M.rows > 0
    ensures HasShape(mean, 1, M.cols)
    ensures forall c: nat | c < M.cols :: At(mean, 0, c) == ColSum(M, c, M.rows) / (M.rows as real)
  {
    var mean := Matrix(1, M.cols, seq(M.cols, c requires 0 <= c < M.cols => ColSum(M, c, M.rows) / (M.rows as real)));
    assert forall c: nat | c < M.cols :: Index(mean, 0, c) == c;
    mean
  }

  method ColumnMean(M: Matrix) returns (mean: Matrix)
    requires Valid(M) && M.rows > 0
    ensures mean == ColumnMeanOf(M)
  {
    var d := new real[M.cols](_ => 0.0);
    for c := 0 to M.cols
      invariant forall k | 0 <= k < c :: d[k] == ColSum(M, k, M.rows) / (M.rows as real)
    {
      var sum := 0.0;
      for r := 0 to M.rows
        invariant sum == ColSum(M, c, r)
      {
        sum := sum + At(M, r, c);
      }
      d[c] := sum / (M.rows as real);
    }
    mean := Matrix(1, M.cols, d[..]);
  }

  // ---------------------------------------------------------------------------
  // centerData
  // ---------------------------------------------------------------------------

  /** The data with each column's mean subtracted from every entry of it. */
  function CenterDataOf(M: Matrix): (C: Matrix)
    requires Valid(M) && M.rows > 0
    ensures HasShape(C, M.rows, M.cols)
    ensures forall i: nat, j: nat | i < M.rows && j < M.cols ::
      At(C, i, j) == At(M, i, j) - At(ColumnMeanOf(M), 0, j)
  {
    var mean := ColumnMeanOf(M);
    Tabulate(M.rows, M.cols, (i: nat, j: nat) requires i < M.rows && j < M.cols => At(M, i, j) - At(mean, 0, j))
  }

  method CenterData(M: Matrix) returns (C: Matrix)
    requires Valid(M) && M.rows > 0
    ensures C == CenterDataOf(M)
  {
    var mean := ColumnMean(M);
    var d := new real[M.rows * M.cols](_ => 0.0);
    ghost var f := (i: nat, j: nat) requires i < M.rows && j < M.cols => At(M, i, j) - At(mean, 0, j);
    ghost var view := Matrix(M.rows, M.cols, d[..]);
    RowsFillStart(view, f);
    for r := 0 to M.rows
      invariant view == Matrix(M.rows, M.cols, d[..])
      invariant RowsFilled(view, f, r, 0)
    {
      for c := 0 to M.cols
        invariant view == Matrix(M.rows, M.cols, d[..])
        invariant RowsFilled(view, f, r, c)
      {
        RowsFillStep(view, f, r, c);
        FlatIndex(r, c, M.rows, M.cols);
        d[r * M.cols + c] := At(M, r, c) - At(mean, 0, c);
        view := Update(view, r, c, At(M, r, c) - At(mean, 0, c));
      }
      RowsFillNext(view, f, r);
    }
    C := Matrix(M.rows, M.cols, d[..]);
    Ext(C, CenterDataOf(M));
  }

  /** mu added to itself n times. */
  function Repeat(mu: real, n: nat): real
  {
    if n == 0 then 0.0 else Repeat(mu, n - 1) + mu
  }

  lemma {:induction false} RepeatIsProduct(mu: real, n: nat)
    ensures Repeat(mu, n) == (n as real) * mu
  {
    if n > 0 {
      RepeatIsProduct(mu, n - 1);
    }
  }

  /** n copies of the n-th part of a sum add up to the sum. */
  lemma RepeatMean(sum: real, n: nat)
    requires n > 0
    ensures Repeat(sum / (n as real), n) == sum
  {
    RepeatIsProduct(sum / (n as real), n);
  }

  /** Subtracting mu from every entry of a column lowers the sum of its first
      n entries by n copies of mu. */
  lemma {:induction false} ColSumShift(M: Matrix, C: Matrix, c: nat, mu: real, n: nat)
    requires Valid(M) && Valid(C) && M.rows == C.rows && M.cols == C.cols
    requires c < M.cols && n <= M.rows
    requires forall i: nat | i < M.rows :: At(C, i, c) == At(M, i, c) - mu
    ensures ColSum(C, c, n) == ColSum(M, c, n) - Repeat(mu, n)
  {
    if n > 0 {
      ColSumShift(M, C, c, mu, n - 1);
    }
  }

  lemma ColumnLessMeanSumsToZero(M: Matrix, C: Matrix, c: nat)
    requires Valid(M) && Valid(C) && M.rows == C.rows && M.cols == C.cols && M.rows > 0 && c < M.cols
    requires forall i: nat | i < M.rows :: At(C, i, c) == At(M, i, c) - ColSum(M, c, M.rows) / (M.rows as real)
    ensures ColSum(C, c, M.rows) == 0.0
  {
    ColSumShift(M, C, c, ColSum(M, c, M.rows) / (M.rows as real), M.rows);
    RepeatMean(ColSum(M, c, M.rows), M.rows);
  }

  /** Every column of the centred data sums to zero. */
  lemma CenteredColumnsSumToZero(M: Matrix)
    requires Valid(M) && M.rows > 0
    ensures forall c: nat | c < M.cols :: ColSum(CenterDataOf(M), c, M.rows) == 0.0
  {
    forall c: nat | c < M.cols
      ensures ColSum(CenterDataOf(M), c, M.rows) == 0.0
    {
      CenteredColumnSumsToZero(M, c);
    }
  }

  lemma CenteredColumnSumsToZero(M: Matrix, c: nat)
    requires Valid(M) && M.rows > 0 && c < M.cols
    ensures ColSum(CenterDataOf(M), c, M.rows) == 0.0
  {
    var C := CenterDataOf(M);
    var mu := At(ColumnMeanOf(M), 0, c);
    assert mu == ColSum(M, c, M.rows) / (M.rows as real);
    assert forall i: nat | i < M.rows :: At(C, i, c) == At(M, i, c) - mu;
    ColumnLessMeanSumsToZero(M, C, c);
  }

  /** The centred data has all-zero column means, so centring twice changes nothing. */
  lemma CenterIdempotent(M: Matrix)
    requires Valid(M) && M.rows > 0
    ensures CenterDataOf(CenterDataOf(M)) == CenterDataOf(M)
  {
    CenteredColumnsSumToZero(M);
    ZeroMeanCenterUnchanged(CenterDataOf(M));
  }

  lemma ZeroNumerator(x: real, n: real)
    requires x == 0.0 && n != 0.0
    ensures x / n == 0.0
  {
  }

  /** Data whose columns already sum to zero is left as it is by centring. */
  lemma ZeroMeanCenterUnchanged(C: Matrix)
    requires Valid(C) && C.rows > 0
    requires forall c: nat | c < C.cols :: ColSum(C, c, C.rows) == 0.0
    ensures CenterDataOf(C) == C
  {
    var mean := ColumnMeanOf(C);
    forall j: nat | j < C.cols
      ensures At(mean, 0, j) == 0.0
    {
      ZeroNumerator(ColSum(C, j, C.rows), C.rows as real);
    }
    Ext(CenterDataOf(C), C);
  }

  // ---------------------------------------------------------------------------
  // covariance
  // ---------------------------------------------------------------------------

  /** The first n terms of sum_k X[k][i] * X[k][j]: column i against column j. */
  function ColDot(X: Matrix, i: nat, j: nat, n: nat): real
    requires Valid(X) && i < X.cols && j < X.cols && n <= X.rows
  {
    if n == 0 then 0.0 else ColDot(X, i, j, n - 1) + At(X, n - 1, i) * At(X, n - 1, j)
  }

  lemma ColDotStep(X: Matrix, i: nat, j: nat, n: nat)
    requires Valid(X) && i < X.cols && j < X.cols && 0 < n <= X.rows
    ensures ColDot(X, i, j, n) == ColDot(X, i, j, n - 1) + At(X, n - 1, i) * At(X, n - 1, j)
  {
  }

  /** X^T is any matrix holding the transpose of X. */
  ghost predicate IsTransposeOf(T: Matrix, X: Matrix) {
    Valid(X) && HasShape(T, X.cols, X.rows) &&
    forall p: nat, q: nat | p < X.cols && q < X.rows :: At(T, p, q) == At(X, q, p)
  }

  /** Row i of X^T against column j of X is column i of X against column j. */
  lemma {:induction false} DotTransposeIsColDot(T: Matrix, X: Matrix, i: nat, j: nat, n: nat)
    requires IsTransposeOf(T, X) && i < X.cols && j < X.cols && n <= X.rows
    ensures Dot(T, X, i, j, n) == ColDot(X, i, j, n)
  {
    if n > 0 {
      DotTransposeIsColDot(T, X, i, j, n - 1);
      DotTransposeStep(T, X, i, j, n);
    }
  }

  lemma DotTransposeStep(T: Matrix, X: Matrix, i: nat, j: nat, n: nat)
    requires IsTransposeOf(T, X) && i < X.cols && j < X.cols && 0 < n <= X.rows
    requires Dot(T, X, i, j, n - 1) == ColDot(X, i, j, n - 1)
    ensures Dot(T, X, i, j, n) == ColDot(X, i, j, n)
  {
    DotStep(T, X, i, j, n, At(X, n - 1, i), At(X, n - 1, j));
    ColDotStep(X, i, j, n);
  }

  lemma {:induction false} ColDotSymmetric(X: Matrix, i: nat, j: nat, n: nat)
    requires Valid(X) && i < X.cols && j < X.cols && n <= X.rows
    ensures ColDot(X, i, j, n) == ColDot(X, j, i, n)
  {
    if n > 0 {
      ColDotSymmetric(X, i, j, n - 1);
    }
  }

  /** Cov = (X^T * X) / n_samples, features x features: entry (i, j) is the dot
      product of columns i and j divided by the sample count. */
  function CovarianceOf(X: Matrix): (Cov: Matrix)
    requires Valid(X) && X.rows > 0
    ensures HasShape(Cov, X.cols, X.cols)
    ensures forall i: nat, j: nat | i < X.cols && j < X.cols ::
      At(Cov, i, j) == ColDot(X, i, j, X.rows) / (X.rows as real)
  {
    var Xt := TransposeOf(X);
    var XtX := MatMulOf(Xt, X).value;
    CovarianceEntries(X, XtX);
    MatDivOf(XtX, X.rows as real)
  }

  lemma CovarianceEntries(X: Matrix, XtX: Matrix)
    requires Valid(X) && MatMulOf(TransposeOf(X), X).Ok? && XtX == MatMulOf(TransposeOf(X), X).value
    ensures forall i: nat, j: nat | i < X.cols && j < X.cols :: At(XtX, i, j) == ColDot(X, i, j, X.rows)
  {
    forall i: nat, j: nat | i < X.cols && j < X.cols
      ensures At(XtX, i, j) == ColDot(X, i, j, X.rows)
    {
      DotTransposeIsColDot(TransposeOf(X), X, i, j, X.rows);
    }
  }

  /** The covariance matrix is symmetric. */
  lemma CovarianceSymmetric(X: Matrix)
    requires Valid(X) && X.rows > 0
    ensures IsSymmetric(CovarianceOf(X))
  {
    var XtX := MatMulOf(TransposeOf(X), X).value;
    CovarianceEntries(X, XtX);
    var Cov := CovarianceOf(X);
    var N := X.cols;
    forall i: nat, j: nat | i < N && j < N
      ensures At(Cov, i, j) == At(Cov, j, i)
    {
      ColDotSymmetric(X, i, j, X.rows);
      FlatIndex(i, j, N, N);
      FlatIndex(j, i, N, N);
      assert At(Cov, i, j) == At(XtX, i, j) / (X.rows as real);
      assert At(Cov, j, i) == At(XtX, j, i) / (X.rows as real);
    }
  }
}
