/** The diagonal helpers of the ground unit's whitening step
    (mainprocess_internal.cpp, after jacobiEVD): the diagonal of a matrix
    as an n x 1 vector, a vector spread over a diagonal matrix, and the
    element-wise square root and inverse of a vector. */
module Diagonal {
  import opened CMath
  import opened Matrices

  // ---------------------------------------------------------------------------
  // diagVector
  // ---------------------------------------------------------------------------

  /** The rows x 1 vector of M's diagonal. Every read (i, i) with i < rows
      must lie inside the buffer, so M has at least as many columns as rows. */
  function DiagVectorOf(M: Matrix): (vec: Matrix)
    requires Valid(M) && M.rows <= M.cols
    ensures HasShape(vec, M.rows, 1)
    ensures forall i: nat | i < M.rows :: At(vec, i, 0) == At(M, i, i)
  {
    var vec := Matrix(M.rows, 1, seq(M.rows, i requires 0 <= i < M.rows => At(M, i, i)));
    forall i: nat | i < M.rows
      ensures At(vec, i, 0) == At(M, i, i)
    {
      ColumnEntry(vec, i);
    }
    vec
  }

  method DiagVector(M: Matrix) returns (vec: Matrix)
    requires Valid(M) && M.rows <= M.cols
    ensures vec == DiagVectorOf(M)
  {
    var d := new real[M.rows](_ => 0.0);
    for i := 0 to M.rows
      invariant forall k | 0 <= k < i :: d[k] == At(M, k, k)
    {
      d[i] := At(M, i, i);
    }
    vec := Matrix(M.rows, 1, d[..]);
  }

  // ---------------------------------------------------------------------------
  // diagMatrix
  // ---------------------------------------------------------------------------

  /** Entry (i, 0) of a column vector is data[i]. */
  lemma ColumnEntry(vec: Matrix, i: nat)
    requires HasShape(vec, vec.rows, 1) && i < vec.rows
    ensures At(vec, i, 0) == vec.data[i]
  {
    FlatIndex(i, 0, vec.rows, 1);
  }

  /** A vector that can be read as a column: entry (i, 0) exists for every row. */
  predicate IsColumnReadable(vec: Matrix) {
    Valid(vec) && (vec.rows == 0 || vec.cols > 0)
  }

  /** The n x n matrix, n = vec.rows, holding vec's first column on its diagonal
      and zero everywhere else. */
  function DiagMatrixOf(vec: Matrix): (D: Matrix)
    requires IsColumnReadable(vec)
    ensures HasShape(D, vec.rows, vec.rows)
    ensures forall i: nat, j: nat | i < vec.rows && j < vec.rows ::
      At(D, i, j) == if i == j then At(vec, i, 0) else 0.0
  {
    Tabulate(vec.rows, vec.rows, (i: nat, j: nat) requires i < vec.rows && j < vec.rows =>
      if i == j then At(vec, i, 0) else 0.0)
  }

  method DiagMatrix(vec: Matrix) returns (D: Matrix)
    requires IsColumnReadable(vec)
    ensures D == DiagMatrixOf(vec)
  {
    var n := vec.rows;
    var d := new real[n * n](_ => 0.0);
    ghost var view := Matrix(n, n, d[..]);
    for i := 0 to n
      invariant view == Matrix(n, n, d[..])
      invariant forall r: nat, c: nat | r < n && c < n ::
        At(view, r, c) == if r == c && r < i then At(vec, r, 0) else 0.0
    {
      view := Store(d, n, n, i, i, At(vec, i, 0), view);
    }
    D := Matrix(n, n, d[..]);
    Ext(D, DiagMatrixOf(vec));
  }

  /** A square matrix that is zero off its diagonal. */
  ghost predicate IsDiagonal(D: Matrix) {
    Valid(D) && D.rows == D.cols &&
    forall i: nat, j: nat | i < D.rows && j < D.rows && i != j :: At(D, i, j) == 0.0
  }

  /** The diagonal of diagMatrix(v) is v again. */
  lemma DiagVectorOfDiagMatrix(vec: Matrix)
    requires HasShape(vec, vec.rows, 1)
    ensures DiagVectorOf(DiagMatrixOf(vec)) == vec
  {
    Ext(DiagVectorOf(DiagMatrixOf(vec)), vec);
  }

  /** diagMatrix(v) is diagonal, and a diagonal matrix is rebuilt from its
      diagonal by diagMatrix(diagVector(D)). */
  lemma DiagMatrixOfDiagVector(D: Matrix)
    requires IsDiagonal(D)
    ensures IsDiagonal(DiagMatrixOf(DiagVectorOf(D)))
    ensures DiagMatrixOf(DiagVectorOf(D)) == D
  {
    Ext(DiagMatrixOf(DiagVectorOf(D)), D);
  }

  // ---------------------------------------------------------------------------
  // sqrtVector and invVector: element-wise over the first rows entries
  // ---------------------------------------------------------------------------

  /** The loops run over `data[i]` for i < rows, which must exist. */
  predicate HasRowEntries(vec: Matrix) {
    Valid(vec) && vec.rows <= |vec.data|
  }

  /** The rows x 1 vector of square roots of the first rows entries. */
  function SqrtVectorOf(vec: Matrix, m: CMath): (out: Matrix)
    requires HasRowEntries(vec)
    ensures HasShape(out, vec.rows, 1)
    ensures forall i | 0 <= i < vec.rows :: out.data[i] == m.sqrt(vec.data[i])
  {
    Matrix(vec.rows, 1, seq(vec.rows, i requires 0 <= i < vec.rows => m.sqrt(vec.data[i])))
  }

  method SqrtVector(vec: Matrix, m: CMath) returns (out: Matrix)
    requires HasRowEntries(vec)
    ensures out == SqrtVectorOf(vec, m)
  {
    var d := new real[vec.rows](_ => 0.0);
    for i := 0 to vec.rows
      invariant forall k | 0 <= k < i :: d[k] == m.sqrt(vec.data[k])
    {
      d[i] := m.sqrt(vec.data[i]);
    }
    out := Matrix(vec.rows, 1, d[..]);
  }

  /** 1 / x, with 0 kept as 0 instead of dividing by it. */
  function Inv(x: real): real {
    if x == 0.0 then 0.0 else 1.0 / x
  }

  /** The rows x 1 vector of the inverses of the first rows entries: zero where
      the entry is zero, 1/x elsewhere. */
  function InvVectorOf(vec: Matrix): (out: Matrix)
    requires HasRowEntries(vec)
    ensures HasShape(out, vec.rows, 1)
    ensures forall i | 0 <= i < vec.rows ::
      (vec.data[i] == 0.0 ==> out.data[i] == 0.0) &&
      (vec.data[i] != 0.0 ==> out.data[i] * vec.data[i] == 1.0)
  {
    Matrix(vec.rows, 1, seq(vec.rows, i requires 0 <= i < vec.rows => Inv(vec.data[i])))
  }

  method InvVector(vec: Matrix) returns (out: Matrix)
    requires HasRowEntries(vec)
    ensures out == InvVectorOf(vec)
  {
    var d := new real[vec.rows](_ => 0.0);
    for i := 0 to vec.rows
      invariant forall k | 0 <= k < i :: d[k] == Inv(vec.data[k])
    {
      d[i] := if vec.data[i] == 0.0 then 0.0 else 1.0 / vec.data[i];
    }
    out := Matrix(vec.rows, 1, d[..]);
  }

  /** Entry i of invVector(v) is Inv(v.data[i]). */
  lemma InvVectorEntry(vec: Matrix, i: nat)
    requires HasRowEntries(vec) && i < vec.rows
    ensures InvVectorOf(vec).data[i] == Inv(vec.data[i])
  {
  }

  lemma InvTwice(x: real)
    ensures Inv(Inv(x)) == x
  {
    if x != 0.0 {
      assert Inv(x) * x == 1.0;
    }
  }

  /** invVector is its own inverse on a column vector: zeros stay zero and every
      other entry comes back as itself. */
  lemma InvVectorTwice(vec: Matrix)
    requires HasShape(vec, vec.rows, 1)
    ensures InvVectorOf(InvVectorOf(vec)) == vec
  {
    var twice := InvVectorOf(InvVectorOf(vec));
    forall i | 0 <= i < vec.rows
      ensures twice.data[i] == vec.data[i]
    {
      InvTwice(vec.data[i]);
    }
  }
}
