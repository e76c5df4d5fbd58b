/** Matrix arithmetic of the ground unit (mainprocess_internal.cpp, "Matrix
    Arithmetic"): each operation is a function stating its result and a method
    with the C++ loops, proved to compute that function. */
module Arithmetic {
  import opened Wrappers
  import opened CMath
  import opened Matrices

  // ---------------------------------------------------------------------------
  // transpose
  // ---------------------------------------------------------------------------

  function TransposeOf(A: Matrix): (T: Matrix)
    requires Valid(A)
    ensures HasShape(T, A.cols, A.rows)
    ensures forall i: nat, j: nat | i < A.cols && j < A.rows :: At(T, i, j) == At(A, j, i)
  {
    Tabulate(A.cols, A.rows, (i: nat, j: nat) requires i < A.cols && j < A.rows => At(A, j, i))
  }

  lemma TransposeTwice(A: Matrix)
    requires Valid(A)
    ensures TransposeOf(TransposeOf(A)) == A
  {
    Ext(TransposeOf(TransposeOf(A)), A);
  }

  method Transpose(A: Matrix) returns (T: Matrix)
    requires Valid(A)
    ensures T == TransposeOf(A)
  {
    var t := new real[A.cols * A.rows](_ => 0.0);
    ghost var f := (i: nat, j: nat) requires i < A.cols && j < A.rows => At(A, j, i);
    ghost var view := Matrix(A.cols, A.rows, t[..]);
    ColsFillStart(view, f);
    for r := 0 to A.rows
      invariant view == Matrix(A.cols, A.rows, t[..])
      invariant ColsFilled(view, f, 0, r)
    {
      for c := 0 to A.cols
        invariant view == Matrix(A.cols, A.rows, t[..])
        invariant ColsFilled(view, f, c, r)
      {
        ColsFillStep(view, f, c, r);
        FlatIndex(c, r, A.cols, A.rows);
        t[c * A.rows + r] := At(A, r, c);
        view := Update(view, c, r, At(A, r, c));
      }
      ColsFillNext(view, f, r);
    }
    T := Matrix(A.cols, A.rows, t[..]);
    Ext(T, TransposeOf(A));
  }

  // ---------------------------------------------------------------------------
  // matMul
  // ---------------------------------------------------------------------------

  /** The first n terms of sum_k A[i][k] * B[k][j], accumulated in loop order. */
  function Dot(A: Matrix, B: Matrix, i: nat, j: nat, n: nat): real
    requires Valid(A) && Valid(B) && i < A.rows && j < B.cols && n <= A.cols && n <= B.rows
  {
    if n == 0 then 0.0 else Dot(A, B, i, j, n - 1) + At(A, i, n - 1) * At(B, n - 1, j)
  }

  /** One step of the dot product, with its factors given by values equal to them. */
  lemma DotStep(A: Matrix, B: Matrix, i: nat, j: nat, n: nat, a: real, b: real)
    requires Valid(A) && Valid(B) && i < A.rows && j < B.cols && 0 < n <= A.cols && n <= B.rows
    requires a == At(A, i, n - 1) && b == At(B, n - 1, j)
    ensures Dot(A, B, i, j, n) == Dot(A, B, i, j, n - 1) + a * b
  {
  }

  /** C = A * B, or the dimension-mismatch error when A.cols != B.rows. */
  function MatMulOf(A: Matrix, B: Matrix): (r: Result<Matrix>)
    requires Valid(A) && Valid(B)
    ensures r.Fail? <==> A.cols != B.rows
    ensures r.Fail? ==> r.message == "matMul: dimension mismatch"
    ensures r.Ok? ==> HasShape(r.value, A.rows, B.cols)
    ensures r.Ok? ==> forall i: nat, j: nat | i < A.rows && j < B.cols :: At(r.value, i, j) == Dot(A, B, i, j, A.cols)
  {
    if A.cols != B.rows then Fail("matMul: dimension mismatch")
    else Ok(Tabulate(A.rows, B.cols, (i: nat, j: nat) requires i < A.rows && j < B.cols => Dot(A, B, i, j, A.cols)))
  }

  method MatMul(A: Matrix, B: Matrix) returns (r: Result<Matrix>)
    requires Valid(A) && Valid(B)
    ensures r == MatMulOf(A, B)
  {
    if A.cols != B.rows {
      return Fail("matMul: dimension mismatch");
    }
    var C := new real[A.rows * B.cols](_ => 0.0);
    ghost var f := (i: nat, j: nat) requires i < A.rows && j < B.cols => Dot(A, B, i, j, A.cols);
    ghost var view := Matrix(A.rows, B.cols, C[..]);
    RowsFillStart(view, f);
    for i := 0 to A.rows
      invariant view == Matrix(A.rows, B.cols, C[..])
      invariant RowsFilled(view, f, i, 0)
    {
      for j := 0 to B.cols
        invariant view == Matrix(A.rows, B.cols, C[..])
        invariant RowsFilled(view, f, i, j)
      {
        var sum := 0.0;
        for k := 0 to A.cols
          invariant sum == Dot(A, B, i, j, k)
        {
          sum := sum + At(A, i, k) * At(B, k, j);
        }
        RowsFillStep(view, f, i, j);
        FlatIndex(i, j, A.rows, B.cols);
        C[i * B.cols + j] := sum;
        view := Update(view, i, j, sum);
      }
      RowsFillNext(view, f, i);
    }
    r := Ok(Matrix(A.rows, B.cols, C[..]));
    Ext(r.value, MatMulOf(A, B).value);
  }

  // ---------------------------------------------------------------------------
  // identity, and identity as the unit of matMul
  // ---------------------------------------------------------------------------

  function IdentityOf(n: nat): (I: Matrix)
    ensures HasShape(I, n, n)
    ensures forall i: nat, j: nat | i < n && j < n :: At(I, i, j) == if i == j then 1.0 else 0.0
  {
    Tabulate(n, n, (i: nat, j: nat) => if i == j then 1.0 else 0.0)
  }

  method Identity(size: nat) returns (I: Matrix)
    ensures I == IdentityOf(size)
  {
    var d := new real[size * size](_ => 0.0);
    ghost var view := Matrix(size, size, d[..]);
    for i := 0 to size
      invariant view == Matrix(size, size, d[..])
      invariant forall r: nat, c: nat | r < size && c < size :: At(view, r, c) == if r == c && r < i then 1.0 else 0.0
    {
      AtUpdate(view, i, i, 1.0);
      FlatIndex(i, i, size, size);
      d[i * size + i] := 1.0;
      ghost var prev := view;
      view := Matrix(size, size, view.data[Index(view, i, i) := 1.0]);
      forall r: nat, c: nat | r < size && c < size
        ensures At(view, r, c) == if r == c && r < i + 1 then 1.0 else 0.0
      {
        if r != i || c != i {
          assert At(view, r, c) == At(prev, r, c);
        }
      }
    }
    I := Matrix(size, size, d[..]);
    Ext(I, IdentityOf(size));
  }

  ghost predicate IsIdentity(I: Matrix, n: nat) {
    HasShape(I, n, n) && forall r: nat, c: nat | r < n && c < n :: At(I, r, c) == if r == c then 1.0 else 0.0
  }

  lemma {:induction false} DotIdentityRight(A: Matrix, I: Matrix, i: nat, j: nat, n: nat)
    requires Valid(A) && IsIdentity(I, A.cols) && i < A.rows && j < A.cols && n <= A.cols
    ensures Dot(A, I, i, j, n) == if j < n then At(A, i, j) else 0.0
  {
    if n > 0 {
      DotIdentityRight(A, I, i, j, n - 1);
      DotIdentityRightStep(A, I, i, j, n);
    }
  }

  lemma DotIdentityRightStep(A: Matrix, I: Matrix, i: nat, j: nat, n: nat)
    requires Valid(A) && IsIdentity(I, A.cols) && i < A.rows && j < A.cols && 0 < n <= A.cols
    requires Dot(A, I, i, j, n - 1) == if j < n - 1 then At(A, i, j) else 0.0
    ensures Dot(A, I, i, j, n) == if j < n then At(A, i, j) else 0.0
  {
    if j == n - 1 {
      DotStep(A, I, i, j, n, At(A, i, j), 1.0);
    } else {
      DotStep(A, I, i, j, n, At(A, i, n - 1), 0.0);
    }
  }

  lemma {:induction false} DotIdentityLeft(A: Matrix, I: Matrix, i: nat, j: nat, n: nat)
    requires Valid(A) && IsIdentity(I, A.rows) && i < A.rows && j < A.cols && n <= A.rows
    ensures Dot(I, A, i, j, n) == if i < n then At(A, i, j) else 0.0
  {
    if n > 0 {
      DotIdentityLeft(A, I, i, j, n - 1);
      DotIdentityLeftStep(A, I, i, j, n);
    }
  }

  lemma DotIdentityLeftStep(A: Matrix, I: Matrix, i: nat, j: nat, n: nat)
    requires Valid(A) && IsIdentity(I, A.rows) && i < A.rows && j < A.cols && 0 < n <= A.rows
    requires Dot(I, A, i, j, n - 1) == if i < n - 1 then At(A, i, j) else 0.0
    ensures Dot(I, A, i, j, n) == if i < n then At(A, i, j) else 0.0
  {
    if i == n - 1 {
      DotStep(I, A, i, j, n, 1.0, At(A, i, j));
    } else {
      DotStep(I, A, i, j, n, 0.0, At(A, n - 1, j));
    }
  }

  /** identity(cols) is a right unit of matMul. */
  lemma MatMulIdentityRight(A: Matrix)
    requires Valid(A)
    ensures MatMulOf(A, IdentityOf(A.cols)) == Ok(A)
  {
    var P := MatMulOf(A, IdentityOf(A.cols)).value;
    forall i: nat, j: nat | i < A.rows && j < A.cols
      ensures At(P, i, j) == At(A, i, j)
    {
      DotIdentityRight(A, IdentityOf(A.cols), i, j, A.cols);
    }
    Ext(P, A);
  }

  /** identity(rows) is a left unit of matMul. */
  lemma MatMulIdentityLeft(A: Matrix)
    requires Valid(A)
    ensures MatMulOf(IdentityOf(A.rows), A) == Ok(A)
  {
    var P := MatMulOf(IdentityOf(A.rows), A).value;
    forall i: nat, j: nat | i < A.rows && j < A.cols
      ensures At(P, i, j) == At(A, i, j)
    {
      DotIdentityLeft(A, IdentityOf(A.rows), i, j, A.rows);
    }
    Ext(P, A);
  }

  // ---------------------------------------------------------------------------
  // matDiv, matSub, matAdd: element-wise over the flat buffer
  // ---------------------------------------------------------------------------

  function MatDivOf(A: Matrix, val: real): (R: Matrix)
    requires Valid(A) && val != 0.0
    ensures HasShape(R, A.rows, A.cols)
    ensures forall i: nat, j: nat | i < A.rows && j < A.cols :: At(R, i, j) == At(A, i, j) / val
  {
    Matrix(A.rows, A.cols, seq(|A.data|, k requires 0 <= k < |A.data| => A.data[k] / val))
  }

  method MatDiv(A: Matrix, val: real) returns (R: Matrix)
    requires Valid(A) && val != 0.0
    ensures R == MatDivOf(A, val)
  {
    var d := new real[A.rows * A.cols](_ => 0.0);
    for i := 0 to A.rows * A.cols
      invariant forall k | 0 <= k < i :: d[k] == A.data[k] / val
    {
      d[i] := A.data[i] / val;
    }
    R := Matrix(A.rows, A.cols, d[..]);
  }

  function MatSubOf(A: Matrix, B: Matrix): (r: Result<Matrix>)
    requires Valid(A) && Valid(B)
    ensures r.Fail? <==> A.rows != B.rows || A.cols != B.cols
    ensures r.Fail? ==> r.message == "matSub: dimension mismatch"
    ensures r.Ok? ==> HasShape(r.value, A.rows, A.cols)
    ensures r.Ok? ==> forall i: nat, j: nat | i < A.rows && j < A.cols :: At(r.value, i, j) == At(A, i, j) - At(B, i, j)
  {
    if A.rows != B.rows || A.cols != B.cols then Fail("matSub: dimension mismatch")
    else Ok(Matrix(A.rows, A.cols, seq(|A.data|, k requires 0 <= k < |A.data| => A.data[k] - B.data[k])))
  }

  method MatSub(A: Matrix, B: Matrix) returns (r: Result<Matrix>)
    requires Valid(A) && Valid(B)
    ensures r == MatSubOf(A, B)
  {
    if A.rows != B.rows || A.cols != B.cols {
      return Fail("matSub: dimension mismatch");
    }
    var d := new real[A.rows * A.cols](_ => 0.0);
    for i := 0 to A.rows * A.cols
      invariant forall k | 0 <= k < i :: d[k] == A.data[k] - B.data[k]
    {
      d[i] := A.data[i] - B.data[i];
    }
    assert d[..] == seq(|A.data|, k requires 0 <= k < |A.data| => A.data[k] - B.data[k]);
    r := Ok(Matrix(A.rows, A.cols, d[..]));
  }

  function MatAddOf(A: Matrix, B: Matrix): (r: Result<Matrix>)
    requires Valid(A) && Valid(B)
    ensures r.Fail? <==> A.rows != B.rows || A.cols != B.cols
    ensures r.Fail? ==> r.message == "matAdd: dimension mismatch"
    ensures r.Ok? ==> HasShape(r.value, A.rows, A.cols)
    ensures r.Ok? ==> forall i: nat, j: nat | i < A.rows && j < A.cols :: At(r.value, i, j) == At(A, i, j) + At(B, i, j)
  {
    if A.rows != B.rows || A.cols != B.cols then Fail("matAdd: dimension mismatch")
    else Ok(Matrix(A.rows, A.cols, seq(|A.data|, k requires 0 <= k < |A.data| => A.data[k] + B.data[k])))
  }

  method MatAdd(A: Matrix, B: Matrix) returns (r: Result<Matrix>)
    requires Valid(A) && Valid(B)
    ensures r == MatAddOf(A, B)
  {
    if A.rows != B.rows || A.cols != B.cols {
      return Fail("matAdd: dimension mismatch");
    }
    var d := new real[A.rows * A.cols](_ => 0.0);
    for i := 0 to A.rows * A.cols
      invariant forall k | 0 <= k < i :: d[k] == A.data[k] + B.data[k]
    {
      d[i] := A.data[i] + B.data[i];
    }
    assert d[..] == seq(|A.data|, k requires 0 <= k < |A.data| => A.data[k] + B.data[k]);
    r := Ok(Matrix(A.rows, A.cols, d[..]));
  }

  /** Subtracting B undoes adding B. */
  lemma SubUndoesAdd(A: Matrix, B: Matrix)
    requires Valid(A) && Valid(B) && A.rows == B.rows && A.cols == B.cols
    ensures MatAddOf(A, B).Ok? && MatSubOf(MatAddOf(A, B).value, B) == Ok(A)
  {
    var S := MatAddOf(A, B).value;
    Ext(MatSubOf(S, B).value, A);
  }

  /** matSub(A, A) is the zero matrix of A's shape. */
  lemma SubSelfIsZero(A: Matrix)
    requires Valid(A)
    ensures MatSubOf(A, A) == Ok(Zeros(A.rows, A.cols))
  {
    Ext(MatSubOf(A, A).value, Zeros(A.rows, A.cols));
  }

  // ---------------------------------------------------------------------------
  // frobeniusNorm
  // ---------------------------------------------------------------------------

  /** The sum of the squares of s, accumulated front to back. */
  function SumSquares(s: seq<real>): real
  {
    if s == [] then 0.0 else SumSquares(s[..|s| - 1]) + s[|s| - 1] * s[|s| - 1]
  }

  /** A square is never negative. */
  lemma SquareNonNeg(x: real)
    ensures x * x >= 0.0
  {
    if x < 0.0 {
      assert (-x) * (-x) > 0.0;
      assert (-x) * (-x) == x * x;
    }
  }

  /** The sum of squares is non-negative, and zero for an all-zero buffer. */
  lemma {:induction false} SumSquaresNonNeg(s: seq<real>)
    ensures SumSquares(s) >= 0.0
    ensures (forall k | 0 <= k < |s| :: s[k] == 0.0) ==> SumSquares(s) == 0.0
  {
    if s != [] {
      var init, last := s[..|s| - 1], s[|s| - 1];
      SumSquaresNonNeg(init);
      SquareNonNeg(last);
      if forall k | 0 <= k < |s| :: s[k] == 0.0 {
        forall k | 0 <= k < |init| ensures init[k] == 0.0 {
          assert init[k] == s[k];
        }
      }
    }
  }

  /** The Frobenius distance of a matrix to itself is zero, so the fastICA
      convergence test accepts a fixed point whatever the tolerance. */
  lemma SelfDistanceZero(A: Matrix)
    requires Valid(A)
    ensures MatSubOf(A, A).Ok?
    ensures SumSquares(MatSubOf(A, A).value.data) == 0.0
  {
    SubSelfIsZero(A);
    SumSquaresNonNeg(Zeros(A.rows, A.cols).data);
  }

  /** frobeniusNorm: the square root of the sum of squares of every entry. */
  method FrobeniusNorm(A: Matrix, m: CMath) returns (norm: real)
    requires Valid(A)
    ensures norm == m.sqrt(SumSquares(A.data))
  {
    var sumSq := 0.0;
    for i := 0 to A.rows * A.cols
      invariant sumSq == SumSquares(A.data[..i])
    {
      assert A.data[..i + 1][..i] == A.data[..i];
      sumSq := sumSq + A.data[i] * A.data[i];
    }
    assert A.data[..A.rows * A.cols] == A.data;
    norm := m.sqrt(sumSq);
  }
}
