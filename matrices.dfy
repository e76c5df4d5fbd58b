/** The dense matrix of the ground unit's ICA code: a shape and a row-major flat
    buffer, entry (r, c) stored at `data[r * cols + c]`. Entries are exact reals
    rather than `float`. */
module Matrices {

  datatype Matrix = Matrix(rows: nat, cols: nat, data: seq<real>)

  /** The buffer holds exactly rows * cols entries, as the C++ constructor allocates. */
  predicate Valid(M: Matrix) {
    |M.data| == M.rows * M.cols
  }

  predicate HasShape(M: Matrix, rows: nat, cols: nat) {
    Valid(M) && M.rows == rows && M.cols == cols
  }

  // ---------------------------------------------------------------------------
  // Row-major index arithmetic
  // ---------------------------------------------------------------------------

  lemma MulMono(a: int, b: int, c: nat)
    requires a <= b
    ensures a * c <= b * c
  {
    assert b * c - a * c == (b - a) * c;
  }

  /** The flat index of an in-range entry is in range and decodes back to (r, c). */
  lemma FlatIndex(r: nat, c: nat, rows: nat, cols: nat)
    requires r < rows && c < cols
    ensures r * cols + c < rows * cols
    ensures (r * cols + c) / cols == r && (r * cols + c) % cols == c
  {
    MulMono(r + 1, rows, cols);
    var k := r * cols + c;
    var q, m := k / cols, k % cols;
    assert k == q * cols + m;
    if q > r {
      MulMono(r + 1, q, cols);
    } else if q < r {
      MulMono(q + 1, r, cols);
    }
  }

  /** Every flat index of a buffer is the index of some in-range entry. */
  lemma SplitIndex(k: nat, rows: nat, cols: nat)
    requires k < rows * cols
    ensures 0 < cols && k / cols < rows && k % cols < cols
    ensures k == (k / cols) * cols + k % cols
  {
    if k / cols >= rows {
      MulMono(rows, k / cols, cols);
    }
  }

  /** The index `at` computes; it always lies inside the buffer. */
  function Index(M: Matrix, r: nat, c: nat): (k: nat)
    requires Valid(M) && r < M.rows && c < M.cols
    ensures k < |M.data|
  {
    FlatIndex(r, c, M.rows, M.cols);
    r * M.cols + c
  }

  function At(M: Matrix, r: nat, c: nat): real
    requires Valid(M) && r < M.rows && c < M.cols
  {
    M.data[Index(M, r, c)]
  }

  /** `Matrix(r, c)`: an r x c matrix of zeros. */
  function Zeros(rows: nat, cols: nat): (Z: Matrix)
    ensures HasShape(Z, rows, cols)
    ensures forall i: nat, j: nat | i < rows && j < cols :: At(Z, i, j) == 0.0
  {
    Matrix(rows, cols, seq(rows * cols, _ => 0.0))
  }

  predicate IsSymmetric(M: Matrix) {
    Valid(M) && M.rows == M.cols &&
    forall i: nat, j: nat | i < M.rows && j < M.rows :: At(M, i, j) == At(M, j, i)
  }

  // ---------------------------------------------------------------------------
  // Building matrices entry by entry, and comparing them
  // ---------------------------------------------------------------------------

  function Entry(rows: nat, cols: nat, f: (nat, nat) --> real, k: nat): real
    requires k < rows * cols
    requires forall i: nat, j: nat | i < rows && j < cols :: f.requires(i, j)
  {
    SplitIndex(k, rows, cols);
    f(k / cols, k % cols)
  }

  /** The rows x cols matrix whose entry (i, j) is f(i, j). */
  function Tabulate(rows: nat, cols: nat, f: (nat, nat) --> real): (M: Matrix)
    requires forall i: nat, j: nat | i < rows && j < cols :: f.requires(i, j)
    ensures HasShape(M, rows, cols)
    ensures forall i: nat, j: nat | i < rows && j < cols :: At(M, i, j) == f(i, j)
  {
    var M := Matrix(rows, cols, seq(rows * cols, k requires 0 <= k < rows * cols => Entry(rows, cols, f, k)));
    TabulateAt(rows, cols, f, M);
    M
  }

  lemma TabulateAt(rows: nat, cols: nat, f: (nat, nat) --> real, M: Matrix)
    requires forall i: nat, j: nat | i < rows && j < cols :: f.requires(i, j)
    requires M == Matrix(rows, cols, seq(rows * cols, k requires 0 <= k < rows * cols => Entry(rows, cols, f, k)))
    ensures forall i: nat, j: nat | i < rows && j < cols :: At(M, i, j) == f(i, j)
  {
    forall i: nat, j: nat | i < rows && j < cols
      ensures At(M, i, j) == f(i, j)
    {
      FlatIndex(i, j, rows, cols);
    }
  }

  /** Two matrices of one shape with the same entries are the same matrix. */
  lemma Ext(M: Matrix, N: Matrix)
    requires Valid(M) && Valid(N) && M.rows == N.rows && M.cols == N.cols
    requires forall i: nat, j: nat | i < M.rows && j < M.cols :: At(M, i, j) == At(N, i, j)
    ensures M == N
  {
    forall k | 0 <= k < |M.data|
      ensures M.data[k] == N.data[k]
    {
      SplitIndex(k, M.rows, M.cols);
      assert At(M, k / M.cols, k % M.cols) == At(N, k / M.cols, k % M.cols);
    }
  }

  /** Writing `at(M, r, c) = v` changes entry (r, c) and no other. */
  lemma AtUpdate(M: Matrix, r: nat, c: nat, v: real)
    requires Valid(M) && r < M.rows && c < M.cols
    ensures Valid(Matrix(M.rows, M.cols, M.data[Index(M, r, c) := v]))
    ensures forall i: nat, j: nat | i < M.rows && j < M.cols ::
      At(Matrix(M.rows, M.cols, M.data[Index(M, r, c) := v]), i, j) == if i == r && j == c then v else At(M, i, j)
  {
    var N := Matrix(M.rows, M.cols, M.data[Index(M, r, c) := v]);
    forall i: nat, j: nat | i < M.rows && j < M.cols
      ensures At(N, i, j) == if i == r && j == c then v else At(M, i, j)
    {
      FlatIndex(i, j, M.rows, M.cols);
      FlatIndex(r, c, M.rows, M.cols);
    }
  }

  /** The matrix after the single store `at(M, r, c) = v`. */
  function Update(M: Matrix, r: nat, c: nat, v: real): (N: Matrix)
    requires Valid(M) && r < M.rows && c < M.cols
    ensures HasShape(N, M.rows, M.cols)
    ensures forall i: nat, j: nat | i < M.rows && j < M.cols :: At(N, i, j) == if i == r && j == c then v else At(M, i, j)
  {
    AtUpdate(M, r, c, v);
    Matrix(M.rows, M.cols, M.data[Index(M, r, c) := v])
  }

  /** A fresh buffer holding a copy of M's entries (`D = A`, `V = identity(n)`). */
  method Buffer(M: Matrix) returns (b: array<real>)
    ensures fresh(b) && b[..] == M.data
  {
    b := new real[|M.data|](k requires 0 <= k < |M.data| => M.data[k]);
  }

  /** The read `at(M, r, c)` on a row-major buffer d holding M. */
  method Load(d: array<real>, rows: nat, cols: nat, r: nat, c: nat, ghost M: Matrix) returns (v: real)
    requires d.Length == rows * cols && r < rows && c < cols && M == Matrix(rows, cols, d[..])
    ensures v == At(M, r, c)
  {
    FlatIndex(r, c, rows, cols);
    v := d[r * cols + c];
  }

  /** The store `at(M, r, c) = v` on a row-major buffer d, together with the
      matrix it holds before and after. */
  method Store(d: array<real>, rows: nat, cols: nat, r: nat, c: nat, v: real, ghost M: Matrix) returns (ghost N: Matrix)
    requires d.Length == rows * cols && r < rows && c < cols && M == Matrix(rows, cols, d[..])
    modifies d
    ensures N == Update(M, r, c, v) && N == Matrix(rows, cols, d[..])
  {
    FlatIndex(r, c, rows, cols);
    d[r * cols + c] := v;
    N := Update(M, r, c, v);
  }

  // ---------------------------------------------------------------------------
  // Progress of the loops that fill a fresh zero matrix entry by entry
  // ---------------------------------------------------------------------------

  ghost predicate Defined(rows: nat, cols: nat, f: (nat, nat) --> real) {
    forall i: nat, j: nat | i < rows && j < cols :: f.requires(i, j)
  }

  /** Row-major fill: the entries before (r, c) hold f and the rest are still zero. */
  ghost predicate RowsFilled(M: Matrix, f: (nat, nat) --> real, r: nat, c: nat)
    requires Valid(M) && Defined(M.rows, M.cols, f)
  {
    forall i: nat, j: nat | i < M.rows && j < M.cols ::
      At(M, i, j) == if i < r || (i == r && j < c) then f(i, j) else 0.0
  }

  lemma RowsFillStart(M: Matrix, f: (nat, nat) --> real)
    requires Valid(M) && Defined(M.rows, M.cols, f)
    requires forall k | 0 <= k < |M.data| :: M.data[k] == 0.0
    ensures RowsFilled(M, f, 0, 0)
  {
  }

  lemma RowsFillStep(M: Matrix, f: (nat, nat) --> real, r: nat, c: nat)
    requires Valid(M) && Defined(M.rows, M.cols, f) && r < M.rows && c < M.cols
    requires RowsFilled(M, f, r, c)
    ensures RowsFilled(Update(M, r, c, f(r, c)), f, r, c + 1)
  {
  }

  lemma RowsFillNext(M: Matrix, f: (nat, nat) --> real, r: nat)
    requires Valid(M) && Defined(M.rows, M.cols, f)
    requires RowsFilled(M, f, r, M.cols)
    ensures RowsFilled(M, f, r + 1, 0)
  {
  }

  /** Column-major fill: the entries before (r, c) in column order hold f. */
  ghost predicate ColsFilled(M: Matrix, f: (nat, nat) --> real, r: nat, c: nat)
    requires Valid(M) && Defined(M.rows, M.cols, f)
  {
    forall i: nat, j: nat | i < M.rows && j < M.cols ::
      At(M, i, j) == if j < c || (j == c && i < r) then f(i, j) else 0.0
  }

  lemma ColsFillStart(M: Matrix, f: (nat, nat) --> real)
    requires Valid(M) && Defined(M.rows, M.cols, f)
    requires forall k | 0 <= k < |M.data| :: M.data[k] == 0.0
    ensures ColsFilled(M, f, 0, 0)
  {
  }

  lemma ColsFillStep(M: Matrix, f: (nat, nat) --> real, r: nat, c: nat)
    requires Valid(M) && Defined(M.rows, M.cols, f) && r < M.rows && c < M.cols
    requires ColsFilled(M, f, r, c)
    ensures ColsFilled(Update(M, r, c, f(r, c)), f, r + 1, c)
  {
  }

  lemma ColsFillNext(M: Matrix, f: (nat, nat) --> real, c: nat)
    requires Valid(M) && Defined(M.rows, M.cols, f)
    requires ColsFilled(M, f, M.rows, c)
    ensures ColsFilled(M, f, 0, c + 1)
  {
  }
}
