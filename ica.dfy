/** Whitening, symmetric decorrelation and the FastICA iteration of the ground
    unit (mainprocess_internal.cpp, from whitenData to fastICA). Data is
    (n_samples x n_features); the whitened data and the components are
    (n_features x n_samples) and (num_components x n_samples). */
module Ica {
  import opened Wrappers
  import opened CMath
  import opened Matrices
  import opened Arithmetic
  import opened Statistics
  import opened Jacobi
  import opened Diagonal

  // ---------------------------------------------------------------------------
  // M^{-1/2} = V * D^{-1/2} * V^T, as whitenData and symmetricDecorrelation
  // compute it from jacobiEVD(M, V, D) with its default maxIter 100, tol 1e-6
  // ---------------------------------------------------------------------------

  /** diagMatrix(invVector(sqrtVector(diagVector(D)))): zero off the diagonal,
      and on it the inverse of sqrt(D[i][i]), or 0 where that root is 0. */
  function InvSqrtDiagOf(D: Matrix, m: CMath): (R: Matrix)
    requires Valid(D) && D.rows == D.cols
    ensures IsDiagonal(R) && R.rows == D.rows
    ensures forall i: nat | i < D.rows :: At(R, i, i) == Inv(m.sqrt(At(D, i, i)))
  {
    var diagVals := DiagVectorOf(D);
    var invSqrtVals := InvVectorOf(SqrtVectorOf(diagVals, m));
    forall i: nat | i < D.rows
      ensures At(invSqrtVals, i, 0) == Inv(m.sqrt(At(D, i, i)))
    {
      ColumnEntry(diagVals, i);
      ColumnEntry(invSqrtVals, i);
      InvVectorEntry(SqrtVectorOf(diagVals, m), i);
    }
    DiagMatrixOf(invSqrtVals)
  }

  /** The eigen-decomposition whitenData and symmetricDecorrelation ask for. */
  function EigenOf(M: Matrix, m: CMath): (e: Eigen)
    requires Valid(M) && M.rows == M.cols
    ensures HasShape(e.V, M.rows, M.rows) && HasShape(e.D, M.rows, M.rows)
  {
    JacobiOf(M, 100, 0.000001, m).value
  }

  /** V * D^{-1/2} * V^T for the eigen-decomposition (V, D) of a square M. */
  function InvSqrtOf(M: Matrix, m: CMath): (R: Matrix)
    requires Valid(M) && M.rows == M.cols
    ensures HasShape(R, M.rows, M.rows)
  {
    var e := EigenOf(M, m);
    var temp := MatMulOf(e.V, InvSqrtDiagOf(e.D, m)).value;
    MatMulOf(temp, TransposeOf(e.V)).value
  }

  /** Multiplying by a diagonal matrix on the right scales column k by D[k][k]. */
  lemma {:induction false} DotDiagonal(A: Matrix, D: Matrix, i: nat, k: nat, n: nat)
    requires Valid(A) && IsDiagonal(D) && A.cols == D.rows && i < A.rows && k < D.rows && n <= A.cols
    ensures Dot(A, D, i, k, n) == if k < n then At(A, i, k) * At(D, k, k) else 0.0
  {
    if n > 0 {
      DotDiagonal(A, D, i, k, n - 1);
      DotDiagonalStep(A, D, i, k, n);
    }
  }

  lemma DotDiagonalStep(A: Matrix, D: Matrix, i: nat, k: nat, n: nat)
    requires Valid(A) && IsDiagonal(D) && A.cols == D.rows && i < A.rows && k < D.rows && 0 < n <= A.cols
    requires Dot(A, D, i, k, n - 1) == if k < n - 1 then At(A, i, k) * At(D, k, k) else 0.0
    ensures Dot(A, D, i, k, n) == if k < n then At(A, i, k) * At(D, k, k) else 0.0
  {
    if k == n - 1 {
      DotStep(A, D, i, k, n, At(A, i, k), At(D, k, k));
    } else {
      DotStep(A, D, i, k, n, At(A, i, n - 1), 0.0);
    }
  }

  /** A sum of products T[a][b] * U[b][c] whose terms are symmetric in a and c. */
  ghost predicate SymmetricTerms(T: Matrix, U: Matrix, N: nat) {
    HasShape(T, N, N) && HasShape(U, N, N) &&
    forall a: nat, b: nat, c: nat | a < N && b < N && c < N :: SymmetricTerm(T, U, a, b, c)
  }

  predicate SymmetricTerm(T: Matrix, U: Matrix, a: nat, b: nat, c: nat)
    requires Valid(T) && Valid(U) && a < T.rows && c < T.rows && b < T.cols && b < U.rows && a < U.cols && c < U.cols
  {
    At(T, a, b) * At(U, b, c) == At(T, c, b) * At(U, b, a)
  }

  lemma {:induction false} DotSymmetricTerms(T: Matrix, U: Matrix, N: nat, i: nat, j: nat, n: nat)
    requires SymmetricTerms(T, U, N) && i < N && j < N && n <= N
    ensures Dot(T, U, i, j, n) == Dot(T, U, j, i, n)
  {
    if n > 0 {
      DotSymmetricTerms(T, U, N, i, j, n - 1);
      DotSymmetricStep(T, U, N, i, j, n);
    }
  }

  lemma DotSymmetricStep(T: Matrix, U: Matrix, N: nat, i: nat, j: nat, n: nat)
    requires SymmetricTerms(T, U, N) && i < N && j < N && 0 < n <= N
    requires Dot(T, U, i, j, n - 1) == Dot(T, U, j, i, n - 1)
    ensures Dot(T, U, i, j, n) == Dot(T, U, j, i, n)
  {
    assert SymmetricTerm(T, U, i, n - 1, j);
    DotStep(T, U, i, j, n, At(T, i, n - 1), At(U, n - 1, j));
    DotStep(T, U, j, i, n, At(T, j, n - 1), At(U, n - 1, i));
  }

  /** Entry (a, b) of V * G for a diagonal G is Scale(V[a][b], G[b][b]). */
  function Scale(x: real, w: real): real {
    x * w
  }

  lemma ScaledColumn(V: Matrix, G: Matrix, a: nat, b: nat)
    requires Valid(V) && IsDiagonal(G) && V.cols == G.rows && a < V.rows && b < G.rows
    ensures At(MatMulOf(V, G).value, a, b) == Scale(At(V, a, b), At(G, b, b))
  {
    DotDiagonal(V, G, a, b, V.cols);
  }

  lemma ScaledColumns(V: Matrix, G: Matrix)
    requires Valid(V) && IsDiagonal(G) && V.cols == G.rows
    ensures forall a: nat, b: nat | a < V.rows && b < G.rows :: At(MatMulOf(V, G).value, a, b) == Scale(At(V, a, b), At(G, b, b))
  {
    forall a: nat, b: nat | a < V.rows && b < G.rows
      ensures At(MatMulOf(V, G).value, a, b) == Scale(At(V, a, b), At(G, b, b))
    {
      ScaledColumn(V, G, a, b);
    }
  }

  /** The terms P[a][b] * V^T[b][c] of (V * G) * V^T are symmetric in a and c. */
  lemma ScaledTermSymmetric(V: Matrix, G: Matrix, P: Matrix, Vt: Matrix, a: nat, b: nat, c: nat)
    requires HasShape(V, V.rows, V.rows) && HasShape(G, V.rows, V.rows) && HasShape(P, V.rows, V.rows)
    requires HasShape(Vt, V.rows, V.rows) && a < V.rows && b < V.rows && c < V.rows
    requires At(Vt, b, c) == At(V, c, b) && At(Vt, b, a) == At(V, a, b)
    requires At(P, a, b) == Scale(At(V, a, b), At(G, b, b)) && At(P, c, b) == Scale(At(V, c, b), At(G, b, b))
    ensures SymmetricTerm(P, Vt, a, b, c)
  {
    ProductSwap(At(P, a, b), At(Vt, b, c), At(P, c, b), At(Vt, b, a), At(V, a, b), At(G, b, b), At(V, c, b));
  }

  lemma ProductSwap(p: real, t: real, p': real, t': real, x: real, w: real, y: real)
    requires p == Scale(x, w) && t == y && p' == Scale(y, w) && t' == x
    ensures p * t == p' * t'
  {
  }

  lemma ScaledTermsSymmetric(V: Matrix, G: Matrix, P: Matrix, Vt: Matrix)
    requires HasShape(V, V.rows, V.rows) && IsDiagonal(G) && G.rows == V.rows && HasShape(P, V.rows, V.rows)
    requires forall a: nat, b: nat | a < V.rows && b < V.rows :: At(P, a, b) == Scale(At(V, a, b), At(G, b, b))
    requires Vt == TransposeOf(V)
    ensures SymmetricTerms(P, Vt, V.rows)
  {
    var N := V.rows;
    forall a: nat, b: nat, c: nat | a < N && b < N && c < N
      ensures SymmetricTerm(P, Vt, a, b, c)
    {
      ScaledTermSymmetric(V, G, P, Vt, a, b, c);
    }
  }

  /** V * G * V^T is symmetric for every square V and diagonal G: entry (i, j)
      is the sum over k of V[i][k] * G[k][k] * V[j][k]. */
  lemma ConjugateDiagonalSymmetric(V: Matrix, G: Matrix)
    requires HasShape(V, V.rows, V.rows) && IsDiagonal(G) && G.rows == V.rows
    ensures IsSymmetric(MatMulOf(MatMulOf(V, G).value, TransposeOf(V)).value)
  {
    var P := MatMulOf(V, G).value;
    var Vt := TransposeOf(V);
    ScaledColumns(V, G);
    ScaledTermsSymmetric(V, G, P, Vt);
    var R := MatMulOf(P, Vt).value;
    forall i: nat, j: nat | i < V.rows && j < V.rows
      ensures At(R, i, j) == At(R, j, i)
    {
      DotSymmetricTerms(P, Vt, V.rows, i, j, V.rows);
    }
  }

  /** M^{-1/2} = V * D^{-1/2} * V^T is symmetric. */
  lemma InvSqrtSymmetric(M: Matrix, m: CMath)
    requires Valid(M) && M.rows == M.cols
    ensures IsSymmetric(InvSqrtOf(M, m))
  {
    var e := EigenOf(M, m);
    ConjugateDiagonalSymmetric(e.V, InvSqrtDiagOf(e.D, m));
  }

  // ---------------------------------------------------------------------------
  // whitenData
  // ---------------------------------------------------------------------------

  /** whiteningMat = Cov^{-1/2} = V * D^{-1/2} * V^T of the covariance: a
      symmetric n_features x n_features matrix. */
  function WhiteningMatrixOf(X: Matrix, m: CMath): (W: Matrix)
    requires Valid(X) && X.rows > 0
    ensures HasShape(W, X.cols, X.cols) && IsSymmetric(W)
  {
    InvSqrtSymmetric(CovarianceOf(X), m);
    InvSqrtOf(CovarianceOf(X), m)
  }

  /** whitenData(X) = whiteningMat * X^T: the (n_samples x n_features) centred
      data becomes (n_features x n_samples), column j the whitened sample j. */
  function WhitenOf(X: Matrix, m: CMath): (Z: Matrix)
    requires Valid(X) && X.rows > 0
    ensures HasShape(Z, X.cols, X.rows)
    ensures forall i: nat, j: nat | i < X.cols && j < X.rows ::
      At(Z, i, j) == Dot(WhiteningMatrixOf(X, m), TransposeOf(X), i, j, X.cols)
  {
    MatMulOf(WhiteningMatrixOf(X, m), TransposeOf(X)).value
  }

  // ---------------------------------------------------------------------------
  // symmetricDecorrelation
  // ---------------------------------------------------------------------------

  /** M^{-1/2} for M = W * W^T, a k x k matrix for a k x n W. */
  function DecorrelatorOf(W: Matrix, m: CMath): (R: Matrix)
    requires Valid(W)
    ensures HasShape(R, W.rows, W.rows) && IsSymmetric(R)
  {
    var M := MatMulOf(W, TransposeOf(W)).value;
    InvSqrtSymmetric(M, m);
    InvSqrtOf(M, m)
  }

  /** symmetricDecorrelation as written: W_out = W_in * M^{-1/2}. The k x k
      factor on the right only fits a square W_in; any other shape makes the
      final matMul throw. */
  function SymmetricDecorrelationAsWritten(W: Matrix, m: CMath): (r: Result<Matrix>)
    requires Valid(W)
    ensures r.Ok? <==> W.rows == W.cols
    ensures r.Fail? ==> r.message == "matMul: dimension mismatch"
    ensures r.Ok? ==> HasShape(r.value, W.rows, W.cols)
  {
    MatMulOf(W, DecorrelatorOf(W, m))
  }

  /** symmetricDecorrelation as intended, W <- (W * W^T)^{-1/2} * W: defined for
      every k x n W and keeping its shape. */
  function SymmetricDecorrelation(W: Matrix, m: CMath): (R: Matrix)
    requires Valid(W)
    ensures HasShape(R, W.rows, W.cols)
    ensures forall i: nat, j: nat | i < W.rows && j < W.cols ::
      At(R, i, j) == Dot(DecorrelatorOf(W, m), W, i, j, W.rows)
  {
    MatMulOf(DecorrelatorOf(W, m), W).value
  }

  /** On a square W the two orders agree in shape, and the as-written one succeeds. */
  lemma AsWrittenSquareOk(W: Matrix, m: CMath)
    requires Valid(W) && W.rows == W.cols
    ensures SymmetricDecorrelationAsWritten(W, m).Ok?
    ensures HasShape(SymmetricDecorrelationAsWritten(W, m).value, W.rows, W.cols)
  {
  }

  /** The failing case of the ICA task: two components on eight channels. */
  lemma AsWrittenRejectsTwoByEight(W: Matrix, m: CMath)
    requires HasShape(W, 2, 8)
    ensures SymmetricDecorrelationAsWritten(W, m) == Fail("matMul: dimension mismatch")
    ensures HasShape(SymmetricDecorrelation(W, m), 2, 8)
  {
  }

  // ---------------------------------------------------------------------------
  // fastICA: one fixed-point update of W
  //   W_new = (g(WX) * X^T) / n_samples - diag(mean(g'(WX), axis = 1)) * W
  // ---------------------------------------------------------------------------

  /** g(WX): tanh of every entry. */
  function TanhOf(WX: Matrix, m: CMath): (G: Matrix)
    requires Valid(WX)
    ensures HasShape(G, WX.rows, WX.cols)
    ensures forall r: nat, c: nat | r < WX.rows && c < WX.cols :: At(G, r, c) == m.tanh(At(WX, r, c))
  {
    Tabulate(WX.rows, WX.cols, (r: nat, c: nat) requires r < WX.rows && c < WX.cols => m.tanh(At(WX, r, c)))
  }

  /** 1 - t * t, the derivative of tanh written in terms of t = tanh(x). */
  function TanhDeriv(t: real): real {
    1.0 - t * t
  }

  /** g'(WX): the derivative of tanh at every entry. */
  function TanhDerivOf(WX: Matrix, m: CMath): (G: Matrix)
    requires Valid(WX)
    ensures HasShape(G, WX.rows, WX.cols)
    ensures forall r: nat, c: nat | r < WX.rows && c < WX.cols :: At(G, r, c) == TanhDeriv(m.tanh(At(WX, r, c)))
  {
    Tabulate(WX.rows, WX.cols, (r: nat, c: nat) requires r < WX.rows && c < WX.cols => TanhDeriv(m.tanh(At(WX, r, c))))
  }

  /** The loop that fills gWX and gWXprime together, one entry of each per step. */
  method NonLinearity(WX: Matrix, m: CMath) returns (G: Matrix, Gp: Matrix)
    requires Valid(WX)
    ensures G == TanhOf(WX, m) && Gp == TanhDerivOf(WX, m)
  {
    var g := new real[WX.rows * WX.cols](_ => 0.0);
    var gp := new real[WX.rows * WX.cols](_ => 0.0);
    RowsFillStart(Matrix(WX.rows, WX.cols, g[..]), TanhAt(WX, m));
    RowsFillStart(Matrix(WX.rows, WX.cols, gp[..]), TanhDerivAt(WX, m));
    for r := 0 to WX.rows
      invariant RowsFilled(Matrix(WX.rows, WX.cols, g[..]), TanhAt(WX, m), r, 0)
      invariant RowsFilled(Matrix(WX.rows, WX.cols, gp[..]), TanhDerivAt(WX, m), r, 0)
    {
      NonLinearityRow(WX, m, g, gp, r);
    }
    G, Gp := Matrix(WX.rows, WX.cols, g[..]), Matrix(WX.rows, WX.cols, gp[..]);
    Ext(G, TanhOf(WX, m));
    Ext(Gp, TanhDerivOf(WX, m));
  }

  function TanhAt(WX: Matrix, m: CMath): (nat, nat) --> real
    requires Valid(WX)
  {
    (r: nat, c: nat) requires r < WX.rows && c < WX.cols => m.tanh(At(WX, r, c))
  }

  function TanhDerivAt(WX: Matrix, m: CMath): (nat, nat) --> real
    requires Valid(WX)
  {
    (r: nat, c: nat) requires r < WX.rows && c < WX.cols => TanhDeriv(m.tanh(At(WX, r, c)))
  }

  /** Row r of the loop in NonLinearity. */
  method NonLinearityRow(WX: Matrix, m: CMath, g: array<real>, gp: array<real>, r: nat)
    requires Valid(WX) && r < WX.rows && g != gp && g.Length == gp.Length == WX.rows * WX.cols
    requires RowsFilled(Matrix(WX.rows, WX.cols, g[..]), TanhAt(WX, m), r, 0)
    requires RowsFilled(Matrix(WX.rows, WX.cols, gp[..]), TanhDerivAt(WX, m), r, 0)
    modifies g, gp
    ensures RowsFilled(Matrix(WX.rows, WX.cols, g[..]), TanhAt(WX, m), r + 1, 0)
    ensures RowsFilled(Matrix(WX.rows, WX.cols, gp[..]), TanhDerivAt(WX, m), r + 1, 0)
  {
    var rows, cols := WX.rows, WX.cols;
    ghost var f, fp := TanhAt(WX, m), TanhDerivAt(WX, m);
    ghost var view, viewp := Matrix(rows, cols, g[..]), Matrix(rows, cols, gp[..]);
    for c := 0 to cols
      invariant view == Matrix(rows, cols, g[..]) && viewp == Matrix(rows, cols, gp[..])
      invariant RowsFilled(view, f, r, c) && RowsFilled(viewp, fp, r, c)
    {
      var val := At(WX, r, c);
      var t := m.tanh(val);
      RowsFillStep(view, f, r, c);
      RowsFillStep(viewp, fp, r, c);
      view := Store(g, rows, cols, r, c, t, view);
      viewp := Store(gp, rows, cols, r, c, TanhDeriv(t), viewp);
    }
    RowsFillNext(view, f, r);
    RowsFillNext(viewp, fp, r);
  }

  /** The sum of the first n entries of row r, accumulated left to right. */
  function RowSum(M: Matrix, r: nat, n: nat): real
    requires Valid(M) && r < M.rows && n <= M.cols
  {
    if n == 0 then 0.0 else RowSum(M, r, n - 1) + At(M, r, n - 1)
  }

  /** mean_gWXprime: the average of every row. */
  function RowMeansOf(M: Matrix): (means: seq<real>)
    requires Valid(M) && M.cols > 0
    ensures |means| == M.rows
    ensures forall r | 0 <= r < M.rows :: means[r] == RowSum(M, r, M.cols) / (M.cols as real)
  {
    seq(M.rows, r requires 0 <= r < M.rows => RowSum(M, r, M.cols) / (M.cols as real))
  }

  method RowMeans(M: Matrix) returns (means: seq<real>)
    requires Valid(M) && M.cols > 0
    ensures means == RowMeansOf(M)
  {
    var d := new real[M.rows](_ => 0.0);
    for r := 0 to M.rows
      invariant forall k | 0 <= k < r :: d[k] == RowSum(M, k, M.cols) / (M.cols as real)
    {
      var sum := 0.0;
      for c := 0 to M.cols
        invariant sum == RowSum(M, r, c)
      {
        sum := sum + At(M, r, c);
      }
      d[r] := sum / (M.cols as real);
    }
    means := d[..];
  }

  /** secondPart = diag(means) * W: row r of W scaled by means[r]. */
  function ScaleRowsOf(W: Matrix, means: seq<real>): (S: Matrix)
    requires Valid(W) && |means| == W.rows
    ensures HasShape(S, W.rows, W.cols)
    ensures forall r: nat, c: nat | r < W.rows && c < W.cols :: At(S, r, c) == Scale(At(W, r, c), means[r])
  {
    Tabulate(W.rows, W.cols, (r: nat, c: nat) requires r < W.rows && c < W.cols => Scale(At(W, r, c), means[r]))
  }

  /** Row-major progress of the in-place scaling: entries before (r, c) are
      scaled, the others still hold W's. */
  ghost predicate ScaledUpTo(W: Matrix, S: Matrix, means: seq<real>, r: nat, c: nat)
    requires Valid(W) && |means| == W.rows
  {
    HasShape(S, W.rows, W.cols) &&
    forall i: nat, j: nat | i < W.rows && j < W.cols ::
      At(S, i, j) == if i < r || (i == r && j < c) then Scale(At(W, i, j), means[i]) else At(W, i, j)
  }

  lemma ScaledStep(W: Matrix, S: Matrix, means: seq<real>, r: nat, c: nat)
    requires Valid(W) && |means| == W.rows && r < W.rows && c < W.cols && ScaledUpTo(W, S, means, r, c)
    ensures At(S, r, c) == At(W, r, c)
    ensures ScaledUpTo(W, Update(S, r, c, Scale(At(S, r, c), means[r])), means, r, c + 1)
  {
  }

  /** `at(secondPart, r, c) *= mean_gWXprime[r]` over the whole buffer. */
  method ScaleRows(s: array<real>, rows: nat, cols: nat, means: seq<real>)
    requires s.Length == rows * cols && |means| == rows
    modifies s
    ensures Matrix(rows, cols, s[..]) == ScaleRowsOf(old(Matrix(rows, cols, s[..])), means)
  {
    ghost var W := Matrix(rows, cols, s[..]);
    ghost var view := W;
    for r := 0 to rows
      invariant view == Matrix(rows, cols, s[..]) && ScaledUpTo(W, view, means, r, 0)
    {
      for c := 0 to cols
        invariant view == Matrix(rows, cols, s[..]) && ScaledUpTo(W, view, means, r, c)
      {
        ScaledStep(W, view, means, r, c);
        var x := Load(s, rows, cols, r, c, view);
        view := Store(s, rows, cols, r, c, x * means[r], view);
        assert x * means[r] == Scale(x, means[r]);
      }
    }
    Ext(view, ScaleRowsOf(W, means));
  }

  /** The whitened data Z of fastICA is n_features x n_samples with n_samples > 0,
      and W is num_components x n_features. */
  predicate Fits(W: Matrix, Z: Matrix) {
    Valid(W) && Valid(Z) && W.cols == Z.rows && Z.cols > 0
  }

  /** firstPart = (g(WX) * Z^T) / n_samples: entry (r, c) is the sample average
      of g(WX)[r][s] * Z[c][s]. */
  function FirstPartOf(W: Matrix, Z: Matrix, m: CMath): (F: Matrix)
    requires Fits(W, Z)
    ensures HasShape(F, W.rows, W.cols)
    ensures forall r: nat, c: nat | r < W.rows && c < W.cols ::
      At(F, r, c) == Dot(TanhOf(MatMulOf(W, Z).value, m), TransposeOf(Z), r, c, Z.cols) / (Z.cols as real)
  {
    var G := TanhOf(MatMulOf(W, Z).value, m);
    MatDivOf(MatMulOf(G, TransposeOf(Z)).value, Z.cols as real)
  }

  /** The row averages of g'(WX), one per component. */
  function MeanDerivOf(W: Matrix, Z: Matrix, m: CMath): (means: seq<real>)
    requires Fits(W, Z)
    ensures |means| == W.rows
    ensures forall r | 0 <= r < W.rows ::
      means[r] == RowSum(TanhDerivOf(MatMulOf(W, Z).value, m), r, Z.cols) / (Z.cols as real)
  {
    RowMeansOf(TanhDerivOf(MatMulOf(W, Z).value, m))
  }

  /** W_new of one iteration, the same shape as W: firstPart - secondPart. */
  function UpdateOf(W: Matrix, Z: Matrix, m: CMath): (Wn: Matrix)
    requires Fits(W, Z)
    ensures HasShape(Wn, W.rows, W.cols)
    ensures forall r: nat, c: nat | r < W.rows && c < W.cols ::
      At(Wn, r, c) == At(FirstPartOf(W, Z, m), r, c) - Scale(At(W, r, c), MeanDerivOf(W, Z, m)[r])
  {
    MatSubOf(FirstPartOf(W, Z, m), ScaleRowsOf(W, MeanDerivOf(W, Z, m))).value
  }

  method FixedPointStep(W: Matrix, Z: Matrix, m: CMath) returns (Wn: Matrix)
    requires Fits(W, Z)
    ensures Wn == UpdateOf(W, Z, m)
  {
    var WX := MatMul(W, Z);
    var G, Gp := NonLinearity(WX.value, m);
    var Zt := Transpose(Z);
    var GZ := MatMul(G, Zt);
    var firstPart := MatDiv(GZ.value, Z.cols as real);
    var means := RowMeans(Gp);
    var s := Buffer(W);
    ScaleRows(s, W.rows, W.cols, means);
    var secondPart := Matrix(W.rows, W.cols, s[..]);
    var diff := MatSub(firstPart, secondPart);
    Wn := diff.value;
  }

  // ---------------------------------------------------------------------------
  // The fastICA iteration
  // ---------------------------------------------------------------------------

  /** Which symmetricDecorrelation the iteration calls: the one the source has,
      or the corrected one. */
  datatype Decorrelation = AsWritten | Corrected

  function Decorrelate(W: Matrix, m: CMath, how: Decorrelation): (r: Result<Matrix>)
    requires Valid(W)
    ensures r.Ok? <==> how == Corrected || W.rows == W.cols
    ensures r.Fail? ==> r.message == "matMul: dimension mismatch"
    ensures r.Ok? ==> HasShape(r.value, W.rows, W.cols)
  {
    match how
    case AsWritten => SymmetricDecorrelationAsWritten(W, m)
    case Corrected => Ok(SymmetricDecorrelation(W, m))
  }

  /** ||W - W_last||, the Frobenius distance the convergence test compares with tol. */
  function Distance(W: Matrix, Wlast: Matrix, m: CMath): (d: real)
    requires Valid(W) && Valid(Wlast) && W.rows == Wlast.rows && W.cols == Wlast.cols
    ensures W == Wlast ==> d == m.sqrt(0.0)
  {
    var squares := SumSquares(MatSubOf(W, Wlast).value.data);
    assert W == Wlast ==> squares == 0.0 by {
      if W == Wlast { SelfDistanceZero(W); }
    }
    m.sqrt(squares)
  }

  /** The iterations from W with `left` of them still allowed; the result is
      the final W. */
  function IcaFrom(W: Matrix, Z: Matrix, left: nat, tol: real, m: CMath, how: Decorrelation): (r: Result<Matrix>)
    requires Fits(W, Z)
    ensures r.Ok? ==> HasShape(r.value, W.rows, W.cols)
    ensures r.Fail? ==> r.message == "matMul: dimension mismatch"
    decreases left, 1
  {
    if left == 0 then Ok(W) else IcaRound(W, Z, left, tol, m, how)
  }

  /** One iteration and the ones after it: update, decorrelate (an exception
      ends the call), and stop once W moved less than tol. */
  function IcaRound(W: Matrix, Z: Matrix, left: nat, tol: real, m: CMath, how: Decorrelation): (r: Result<Matrix>)
    requires Fits(W, Z) && left > 0
    ensures r.Ok? ==> HasShape(r.value, W.rows, W.cols)
    ensures r.Fail? ==> r.message == "matMul: dimension mismatch"
    decreases left, 0
  {
    var dec := Decorrelate(UpdateOf(W, Z, m), m, how);
    if dec.Fail? then Fail(dec.message)
    else if Distance(dec.value, W, m) < tol then Ok(dec.value)
    else IcaFrom(dec.value, Z, left - 1, tol, m, how)
  }

  /** The iteration throws exactly when some iteration runs and the as-written
      decorrelation meets a non-square W. */
  lemma {:induction false} IcaFromOk(W: Matrix, Z: Matrix, left: nat, tol: real, m: CMath, how: Decorrelation)
    requires Fits(W, Z)
    ensures IcaFrom(W, Z, left, tol, m, how).Ok? <==> left == 0 || how == Corrected || W.rows == W.cols
    decreases left, 2
  {
    if left > 0 {
      IcaRoundOk(W, Z, left, tol, m, how);
    }
  }

  lemma {:induction false} IcaRoundOk(W: Matrix, Z: Matrix, left: nat, tol: real, m: CMath, how: Decorrelation)
    requires Fits(W, Z) && left > 0
    ensures IcaRound(W, Z, left, tol, m, how).Ok? <==> how == Corrected || W.rows == W.cols
    decreases left, 1
  {
    var dec := Decorrelate(UpdateOf(W, Z, m), m, how);
    IcaRoundUnfold(W, Z, left, tol, m, how);
    IcaStepOk(W, Z, left, tol, m, how, dec, IcaRound(W, Z, left, tol, m, how));
  }

  /** The same step with the decorrelated W taken as given: only its
      failure condition and its shape matter. */
  lemma {:induction false} IcaStepOk(W: Matrix, Z: Matrix, left: nat, tol: real, m: CMath, how: Decorrelation,
                                     dec: Result<Matrix>, r: Result<Matrix>)
    requires Fits(W, Z) && left > 0
    requires dec.Ok? <==> how == Corrected || W.rows == W.cols
    requires dec.Ok? ==> HasShape(dec.value, W.rows, W.cols)
    requires r == if dec.Fail? then Fail(dec.message)
      else if Distance(dec.value, W, m) < tol then Ok(dec.value)
      else IcaFrom(dec.value, Z, left - 1, tol, m, how)
    ensures r.Ok? <==> how == Corrected || W.rows == W.cols
    decreases left, 0
  {
    if dec.Ok? && Distance(dec.value, W, m) >= tol {
      IcaFromOk(dec.value, Z, left - 1, tol, m, how);
    }
  }

  lemma IcaRoundUnfold(W: Matrix, Z: Matrix, left: nat, tol: real, m: CMath, how: Decorrelation)
    requires Fits(W, Z) && left > 0
    ensures var dec := Decorrelate(UpdateOf(W, Z, m), m, how);
      IcaRound(W, Z, left, tol, m, how) ==
        if dec.Fail? then Fail(dec.message)
        else if Distance(dec.value, W, m) < tol then Ok(dec.value)
        else IcaFrom(dec.value, Z, left - 1, tol, m, how)
  {
  }

  /** fastICA(data, num_components) with the random start W0
      (num_components x n_features): centre, whiten, iterate, and return the
      components S = W * whitened_data, num_components x n_samples. */
  function FastICAOf(data: Matrix, k: nat, W0: Matrix, maxIter: int, tol: real, m: CMath, how: Decorrelation)
    : (r: Result<Matrix>)
    requires Valid(data) && data.rows > 0 && HasShape(W0, k, data.cols)
    ensures r.Ok? ==> HasShape(r.value, k, data.rows)
    ensures r.Fail? ==> r.message == "matMul: dimension mismatch"
  {
    var Z := WhitenOf(CenterDataOf(data), m);
    var W :- IcaFrom(W0, Z, if maxIter > 0 then maxIter else 0, tol, m, how);
    Ok(MatMulOf(W, Z).value)
  }

  /** fastICA returns exactly when no iteration runs, or the decorrelation is
      the corrected one, or num_components equals n_features. */
  lemma FastICAOk(data: Matrix, k: nat, W0: Matrix, maxIter: int, tol: real, m: CMath, how: Decorrelation)
    requires Valid(data) && data.rows > 0 && HasShape(W0, k, data.cols)
    ensures FastICAOf(data, k, W0, maxIter, tol, m, how).Ok? <==> maxIter <= 0 || how == Corrected || k == data.cols
  {
    var Z := WhitenOf(CenterDataOf(data), m);
    IcaFromOk(W0, Z, if maxIter > 0 then maxIter else 0, tol, m, how);
  }

  /** The ICA task's call fastICA(eeg_data, 2) on eight channels, with the
      default max_iter = 1000 and tol = 1e-5, throws as written and returns
      2 x n_samples components once corrected. */
  lemma TwoComponentsOfEight(data: Matrix, W0: Matrix, m: CMath)
    requires Valid(data) && data.rows > 0 && data.cols == 8 && HasShape(W0, 2, 8)
    ensures FastICAOf(data, 2, W0, 1000, 0.00001, m, AsWritten) == Fail("matMul: dimension mismatch")
    ensures FastICAOf(data, 2, W0, 1000, 0.00001, m, Corrected).Ok?
    ensures HasShape(FastICAOf(data, 2, W0, 1000, 0.00001, m, Corrected).value, 2, data.rows)
  {
    FastICAOk(data, 2, W0, 1000, 0.00001, m, AsWritten);
    FastICAOk(data, 2, W0, 1000, 0.00001, m, Corrected);
  }

  /** One pass of the fastICA loop body from a W whose outcome, with `left`
      iterations allowed, is target: either the loop ends here with target, or
      it goes on from the new W with one iteration fewer. */
  method IcaStep(W: Matrix, Z: Matrix, ghost left: nat, tol: real, m: CMath, how: Decorrelation,
                 ghost target: Result<Matrix>)
    returns (done: bool, r: Result<Matrix>, Wn: Matrix)
    requires Fits(W, Z) && left > 0 && Reaches(W, Z, left, tol, m, how, target)
    ensures done ==> r == target
    ensures !done ==> HasShape(Wn, W.rows, W.cols) && Reaches(Wn, Z, left - 1, tol, m, how, target)
  {
    assert IcaFrom(W, Z, left, tol, m, how) == target;
    assert IcaRound(W, Z, left, tol, m, how) == target;
    var Wnew := FixedPointStep(W, Z, m);
    var dec := Decorrelate(Wnew, m, how);
    if dec.Fail? {
      return true, Fail(dec.message), W;
    }
    Wn := dec.value;
    var diff := MatSub(Wn, W);
    var dist := FrobeniusNorm(diff.value, m);
    if dist < tol {
      return true, Ok(Wn), Wn;
    }
    done, r := false, Ok(Wn);
  }

  ghost predicate Reaches(W: Matrix, Z: Matrix, left: nat, tol: real, m: CMath, how: Decorrelation, target: Result<Matrix>) {
    Fits(W, Z) && IcaFrom(W, Z, left, tol, m, how) == target
  }

  /** The iteration loop of fastICA, from a W whose outcome is target. */
  method IcaLoop(W0: Matrix, Z: Matrix, maxIter: int, tol: real, m: CMath, how: Decorrelation,
                 ghost target: Result<Matrix>)
    returns (r: Result<Matrix>)
    requires Reaches(W0, Z, if maxIter > 0 then maxIter else 0, tol, m, how, target)
    ensures r == target
  {
    var W := W0;
    ghost var left: nat := if maxIter > 0 then maxIter else 0;
    var iter := 0;
    while iter < maxIter
      invariant 0 <= iter && left == (if maxIter > 0 then maxIter else 0) - iter
      invariant Fits(W, Z) && Reaches(W, Z, left, tol, m, how, target)
      decreases maxIter - iter
    {
      var done, res, Wn := IcaStep(W, Z, left, tol, m, how, target);
      if done {
        return res;
      }
      W := Wn;
      iter := iter + 1;
      left := left - 1;
    }
    return Ok(W);
  }

  method FastICA(data: Matrix, k: nat, W0: Matrix, maxIter: int, tol: real, m: CMath, how: Decorrelation)
    returns (r: Result<Matrix>)
    requires Valid(data) && data.rows > 0 && HasShape(W0, k, data.cols)
    ensures r == FastICAOf(data, k, W0, maxIter, tol, m, how)
  {
    var centered := CenterData(data);
    var whitened := WhitenOf(centered, m);
    var W := IcaLoop(W0, whitened, maxIter, tol, m, how,
                     IcaFrom(W0, whitened, if maxIter > 0 then maxIter else 0, tol, m, how));
    if W.Fail? {
      return Fail(W.message);
    }
    var S := MatMul(W.value, whitened);
    r := Ok(S.value);
  }
}
