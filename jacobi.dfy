/** The cyclic-by-largest-pivot Jacobi eigen-solver `jacobiEVD` of the ground
    unit: for a symmetric A it rotates D (initially A) and V (initially the
    identity) in place until the largest upper off-diagonal magnitude of D
    drops below tol or maxIter rotations have been made. */
module Jacobi {
  import opened Wrappers
  import opened CMath
  import opened Matrices
  import opened Arithmetic

  // ---------------------------------------------------------------------------
  // Pivot search: the first strictly largest |D[i][j]|, i < j, in row-major order
  // ---------------------------------------------------------------------------

  datatype Pivot = Pivot(maxVal: real, p: nat, q: nat)

  predicate Square(D: Matrix) {
    Valid(D) && D.rows == D.cols
  }

  /** (a, b) comes strictly before (p, q) in row-major order. */
  predicate Before(a: nat, b: nat, p: nat, q: nat) {
    a < p || (a == p && b < q)
  }

  /** What the search promises: maxVal bounds every upper off-diagonal magnitude;
      maxVal is 0 and (p, q) = (0, 0) when they are all zero; otherwise p < q,
      |D[p][q]| = maxVal and every entry before (p, q) is strictly smaller. */
  ghost predicate IsPivot(D: Matrix, pv: Pivot)
    requires Square(D)
  {
    var n := D.rows;
    pv.maxVal >= 0.0 &&
    (forall a: nat, b: nat | a < b < n :: Abs(At(D, a, b)) <= pv.maxVal) &&
    (pv.maxVal == 0.0 ==> pv.p == 0 && pv.q == 0) &&
    (pv.maxVal > 0.0 ==>
      pv.p < pv.q < n && Abs(At(D, pv.p, pv.q)) == pv.maxVal &&
      forall a: nat, b: nat | a < b < n && Before(a, b, pv.p, pv.q) :: Abs(At(D, a, b)) < pv.maxVal)
  }

  /** The search state after visiting the upper entries before (i, j). */
  ghost predicate Scanned(D: Matrix, pv: Pivot, i: nat, j: nat)
    requires Square(D)
  {
    var n := D.rows;
    pv.maxVal >= 0.0 &&
    (forall a: nat, b: nat | a < b < n && Before(a, b, i, j) :: Abs(At(D, a, b)) <= pv.maxVal) &&
    (pv.maxVal == 0.0 ==> pv.p == 0 && pv.q == 0) &&
    (pv.maxVal > 0.0 ==>
      pv.p < pv.q < n && Before(pv.p, pv.q, i, j) && Abs(At(D, pv.p, pv.q)) == pv.maxVal &&
      forall a: nat, b: nat | a < b < n && Before(a, b, pv.p, pv.q) :: Abs(At(D, a, b)) < pv.maxVal)
  }

  /** The inner loop over j of row i, as a function of the state it starts from. */
  function ScanRow(D: Matrix, i: nat, j: nat, best: Pivot): Pivot
    requires Square(D) && i < D.rows
    decreases D.cols - j
  {
    if j >= D.cols then best
    else
      var v := Abs(At(D, i, j));
      ScanRow(D, i, j + 1, if v > best.maxVal then Pivot(v, i, j) else best)
  }

  /** The outer loop over the rows from i on. */
  function ScanRows(D: Matrix, i: nat, best: Pivot): Pivot
    requires Square(D)
    decreases D.rows - i
  {
    if i >= D.rows then best else ScanRows(D, i + 1, ScanRow(D, i, i + 1, best))
  }

  /** The pivot search of step 1; PivotOfIsPivot states what it finds. */
  function PivotOf(D: Matrix): Pivot
    requires Square(D)
  {
    ScanRows(D, 0, Pivot(0.0, 0, 0))
  }

  lemma ScanStep(D: Matrix, best: Pivot, i: nat, j: nat)
    requires Square(D) && i < j < D.rows && Scanned(D, best, i, j)
    ensures var v := Abs(At(D, i, j));
      Scanned(D, if v > best.maxVal then Pivot(v, i, j) else best, i, j + 1)
  {
  }

  lemma {:induction false} ScanRowScans(D: Matrix, i: nat, j: nat, best: Pivot)
    requires Square(D) && i < j <= D.rows && Scanned(D, best, i, j)
    ensures Scanned(D, ScanRow(D, i, j, best), i + 1, i + 2)
    decreases D.cols - j
  {
    if j < D.cols {
      ScanStep(D, best, i, j);
      var v := Abs(At(D, i, j));
      ScanRowScans(D, i, j + 1, if v > best.maxVal then Pivot(v, i, j) else best);
    }
  }

  lemma {:induction false} ScanRowsScans(D: Matrix, i: nat, best: Pivot)
    requires Square(D) && i <= D.rows && Scanned(D, best, i, i + 1)
    ensures IsPivot(D, ScanRows(D, i, best))
    decreases D.rows - i
  {
    if i < D.rows {
      ScanRowScans(D, i, i + 1, best);
      ScanRowsScans(D, i + 1, ScanRow(D, i, i + 1, best));
    }
  }

  /** The search finds the pivot the specification describes. */
  lemma PivotOfIsPivot(D: Matrix)
    requires Square(D)
    ensures IsPivot(D, PivotOf(D))
  {
    ScanRowsScans(D, 0, Pivot(0.0, 0, 0));
  }

  /** The specification leaves no choice: at most one pivot satisfies it. */
  lemma PivotUnique(D: Matrix, x: Pivot, y: Pivot)
    requires Square(D) && IsPivot(D, x) && IsPivot(D, y)
    ensures x == y
  {
    if x.maxVal > 0.0 && y.maxVal > 0.0 {
      assert x.maxVal == y.maxVal;
      assert !Before(x.p, x.q, y.p, y.q) && !Before(y.p, y.q, x.p, x.q);
    }
  }

  /** Step 1 of an iteration, over D's buffer in place. */
  method FindPivot(d: array<real>, n: nat) returns (maxVal: real, p: nat, q: nat)
    requires d.Length == n * n
    ensures Pivot(maxVal, p, q) == PivotOf(Matrix(n, n, d[..]))
  {
    ghost var D := Matrix(n, n, d[..]);
    maxVal, p, q := 0.0, 0, 0;
    for i := 0 to n
      invariant ScanRows(D, i, Pivot(maxVal, p, q)) == PivotOf(D)
    {
      for j := i + 1 to n
        invariant ScanRows(D, i + 1, ScanRow(D, i, j, Pivot(maxVal, p, q))) == PivotOf(D)
      {
        FlatIndex(i, j, n, n);
        var val := Abs(d[i * n + j]);
        assert val == Abs(At(D, i, j));
        if val > maxVal {
          maxVal, p, q := val, i, j;
        }
      }
    }
  }

  // ---------------------------------------------------------------------------
  // Rotation angle and coefficients (steps 2 and 3)
  // ---------------------------------------------------------------------------

  /** theta = atan2(2 apq, app - aqq) / 2, or 0 when |apq| is below 1e-12. */
  function Theta(app: real, aqq: real, apq: real, m: CMath): (theta: real)
    ensures Abs(apq) <= 0.000000000001 ==> theta == 0.0
  {
    if Abs(apq) > 0.000000000001 then 0.5 * m.atan2(2.0 * apq, app - aqq) else 0.0
  }

  // ---------------------------------------------------------------------------
  // One rotation of D and V in the (p, q) plane
  // ---------------------------------------------------------------------------

  /** The two rotated combinations c*a - s*b and s*a + c*b of a pair (a, b). */
  function RotLo(a: real, b: real, c: real, s: real): real {
    c * a - s * b
  }

  function RotHi(a: real, b: real, c: real, s: real): real {
    s * a + c * b
  }

  lemma RotPair(a: real, b: real, c: real, s: real)
    ensures c * a - s * b == RotLo(a, b, c, s) && s * a + c * b == RotHi(a, b, c, s)
  {
  }

  /** The new diagonal entries app_new and aqq_new. */
  function NewPP(app: real, aqq: real, apq: real, c: real, s: real): real {
    c * c * app - 2.0 * c * s * apq + s * s * aqq
  }

  function NewQQ(app: real, aqq: real, apq: real, c: real, s: real): real {
    s * s * app + 2.0 * c * s * apq + c * c * aqq
  }

  lemma NewDiagonal(app: real, aqq: real, apq: real, c: real, s: real)
    ensures c * c * app - 2.0 * c * s * apq + s * s * aqq == NewPP(app, aqq, apq, c, s)
    ensures s * s * app + 2.0 * c * s * apq + c * c * aqq == NewQQ(app, aqq, apq, c, s)
  {
  }

  /** With c = cos(theta) and s = sin(theta), so c^2 + s^2 = 1, the pair
      rotation is a rotation: it keeps the length of (a, b). */
  lemma RotationKeepsLength(a: real, b: real, c: real, s: real)
    requires c * c + s * s == 1.0
    ensures RotLo(a, b, c, s) * RotLo(a, b, c, s) + RotHi(a, b, c, s) * RotHi(a, b, c, s) == a * a + b * b
  {
  }

  /** Under the same condition the new diagonal pair keeps the trace
      app + aqq of the 2 x 2 block. */
  lemma RotationKeepsTrace(app: real, aqq: real, apq: real, c: real, s: real)
    requires c * c + s * s == 1.0
    ensures NewPP(app, aqq, apq, c, s) + NewQQ(app, aqq, apq, c, s) == app + aqq
  {
  }

  /** Entry (i, j) of D after the rotation: (p, q) and (q, p) are set to zero,
      (p, p) and (q, q) get the rotated diagonal, the rest of rows and columns p
      and q are rotated in matching pairs, and every other entry is kept. */
  function RotEntry(D: Matrix, p: nat, q: nat, c: real, s: real, i: nat, j: nat): real
    requires Square(D) && p < q < D.rows && i < D.rows && j < D.rows
  {
    var app, aqq, apq := At(D, p, p), At(D, q, q), At(D, p, q);
    if (i == p && j == q) || (i == q && j == p) then 0.0
    else if i == p && j == p then NewPP(app, aqq, apq, c, s)
    else if i == q && j == q then NewQQ(app, aqq, apq, c, s)
    else if j == p then RotLo(At(D, i, p), At(D, i, q), c, s)
    else if i == p then RotLo(At(D, j, p), At(D, j, q), c, s)
    else if j == q then RotHi(At(D, i, p), At(D, i, q), c, s)
    else if i == q then RotHi(At(D, j, p), At(D, j, q), c, s)
    else At(D, i, j)
  }

  function RotateOf(D: Matrix, p: nat, q: nat, c: real, s: real): (R: Matrix)
    requires Square(D) && p < q < D.rows
    ensures HasShape(R, D.rows, D.rows)
    ensures forall i: nat, j: nat | i < D.rows && j < D.rows :: At(R, i, j) == RotEntry(D, p, q, c, s, i, j)
  {
    Tabulate(D.rows, D.rows, (i: nat, j: nat) requires i < D.rows && j < D.rows => RotEntry(D, p, q, c, s, i, j))
  }

  /** Entry (i, j) of V after the rotation: columns p and q are rotated. */
  function RotVEntry(V: Matrix, p: nat, q: nat, c: real, s: real, i: nat, j: nat): real
    requires Square(V) && p < q < V.rows && i < V.rows && j < V.rows
  {
    if j == p then RotLo(At(V, i, p), At(V, i, q), c, s)
    else if j == q then RotHi(At(V, i, p), At(V, i, q), c, s)
    else At(V, i, j)
  }

  function RotateVOf(V: Matrix, p: nat, q: nat, c: real, s: real): (R: Matrix)
    requires Square(V) && p < q < V.rows
    ensures HasShape(R, V.rows, V.rows)
    ensures forall i: nat, j: nat | i < V.rows && j < V.rows :: At(R, i, j) == RotVEntry(V, p, q, c, s, i, j)
  {
    Tabulate(V.rows, V.rows, (i: nat, j: nat) requires i < V.rows && j < V.rows => RotVEntry(V, p, q, c, s, i, j))
  }

  /** The rotation zeroes the pivot pair. */
  lemma RotateZeroesPivot(D: Matrix, p: nat, q: nat, c: real, s: real)
    requires Square(D) && p < q < D.rows
    ensures At(RotateOf(D, p, q, c, s), p, q) == 0.0 && At(RotateOf(D, p, q, c, s), q, p) == 0.0
  {
  }

  /** Entries outside rows and columns p and q are untouched. */
  lemma RotateFrame(D: Matrix, p: nat, q: nat, c: real, s: real)
    requires Square(D) && p < q < D.rows
    ensures forall i: nat, j: nat | i < D.rows && j < D.rows && i != p && i != q && j != p && j != q ::
      At(RotateOf(D, p, q, c, s), i, j) == At(D, i, j)
  {
  }

  /** Rows p, q and columns p, q are written in matching pairs, so a symmetric D
      stays symmetric. */
  lemma RotateKeepsSymmetry(D: Matrix, p: nat, q: nat, c: real, s: real)
    requires IsSymmetric(D) && p < q < D.rows
    ensures IsSymmetric(RotateOf(D, p, q, c, s))
  {
    var R := RotateOf(D, p, q, c, s);
    forall i: nat, j: nat | i < D.rows && j < D.rows
      ensures At(R, i, j) == At(R, j, i)
    {
      assert At(R, i, j) == RotEntry(D, p, q, c, s, i, j);
      assert At(R, j, i) == RotEntry(D, p, q, c, s, j, i);
    }
  }

  /** Only columns p and q of V change. */
  lemma RotateVFrame(V: Matrix, p: nat, q: nat, c: real, s: real)
    requires Square(V) && p < q < V.rows
    ensures forall i: nat, j: nat | i < V.rows && j < V.rows && j != p && j != q ::
      At(RotateVOf(V, p, q, c, s), i, j) == At(V, i, j)
  {
  }

  // ---------------------------------------------------------------------------
  // The in-place rotation loops
  // ---------------------------------------------------------------------------

  /** Which entries of D the rotation has written once the loop over i has
      handled the rows before k: the 2 x 2 block of p and q, and the pairs
      (i, p), (p, i), (i, q), (q, i) for every i < k outside {p, q}. */
  predicate Touched(i: nat, j: nat, p: nat, q: nat, k: nat) {
    ((i == p || i == q) && (j == p || j == q)) ||
    (i < k && i != p && i != q && (j == p || j == q)) ||
    (j < k && j != p && j != q && (i == p || i == q))
  }

  /** D0 rotated up to row k: touched entries hold their final value, the rest
      still hold D0's. */
  ghost predicate RotatedUpTo(D0: Matrix, M: Matrix, p: nat, q: nat, c: real, s: real, k: nat)
    requires Square(D0) && p < q < D0.rows
  {
    HasShape(M, D0.rows, D0.rows) &&
    forall i: nat, j: nat | i < D0.rows && j < D0.rows ::
      At(M, i, j) == if Touched(i, j, p, q, k) then RotEntry(D0, p, q, c, s, i, j) else At(D0, i, j)
  }

  lemma RotatedCorners(D0: Matrix, M: Matrix, p: nat, q: nat, c: real, s: real, app: real, aqq: real, apq: real)
    requires Square(D0) && p < q < D0.rows
    requires app == At(D0, p, p) && aqq == At(D0, q, q) && apq == At(D0, p, q)
    requires M == Update(Update(Update(Update(D0, p, p, NewPP(app, aqq, apq, c, s)),
                                       q, q, NewQQ(app, aqq, apq, c, s)), p, q, 0.0), q, p, 0.0)
    ensures RotatedUpTo(D0, M, p, q, c, s, 0)
  {
  }

  /** The four stores of one pass of the loop over i. */
  function PairStore(M: Matrix, p: nat, q: nat, i: nat, dip: real, diq: real): (N: Matrix)
    requires Valid(M) && p < M.rows && q < M.rows && i < M.rows && M.rows == M.cols
    ensures HasShape(N, M.rows, M.cols)
  {
    Update(Update(Update(Update(M, i, p, dip), p, i, dip), i, q, diq), q, i, diq)
  }

  lemma RotatedRow(D0: Matrix, M: Matrix, p: nat, q: nat, c: real, s: real, k: nat)
    requires Square(D0) && p < q < D0.rows && k < D0.rows && k != p && k != q
    requires RotatedUpTo(D0, M, p, q, c, s, k)
    ensures RotatedUpTo(D0, PairStore(M, p, q, k, RotLo(At(M, k, p), At(M, k, q), c, s),
                                      RotHi(At(M, k, p), At(M, k, q), c, s)), p, q, c, s, k + 1)
  {
    assert At(M, k, p) == At(D0, k, p) && At(M, k, q) == At(D0, k, q);
  }

  lemma RotatedSkip(D0: Matrix, M: Matrix, p: nat, q: nat, c: real, s: real, k: nat)
    requires Square(D0) && p < q < D0.rows && (k == p || k == q)
    requires RotatedUpTo(D0, M, p, q, c, s, k)
    ensures RotatedUpTo(D0, M, p, q, c, s, k + 1)
  {
  }

  lemma RotatedAll(D0: Matrix, M: Matrix, p: nat, q: nat, c: real, s: real)
    requires Square(D0) && p < q < D0.rows
    requires RotatedUpTo(D0, M, p, q, c, s, D0.rows)
    ensures M == RotateOf(D0, p, q, c, s)
  {
    Ext(M, RotateOf(D0, p, q, c, s));
  }

  /** V0 with columns p and q of the rows before k rotated. */
  ghost predicate VRotatedUpTo(V0: Matrix, M: Matrix, p: nat, q: nat, c: real, s: real, k: nat)
    requires Square(V0) && p < q < V0.rows
  {
    HasShape(M, V0.rows, V0.rows) &&
    forall i: nat, j: nat | i < V0.rows && j < V0.rows ::
      At(M, i, j) == if i < k && (j == p || j == q) then RotVEntry(V0, p, q, c, s, i, j) else At(V0, i, j)
  }

  lemma VRotatedRow(V0: Matrix, M: Matrix, M': Matrix, p: nat, q: nat, c: real, s: real, k: nat, vip: real, viq: real)
    requires Square(V0) && p < q < V0.rows && k < V0.rows
    requires VRotatedUpTo(V0, M, p, q, c, s, k)
    requires vip == At(M, k, p) && viq == At(M, k, q)
    requires M' == Update(Update(M, k, p, RotLo(vip, viq, c, s)), k, q, RotHi(vip, viq, c, s))
    ensures VRotatedUpTo(V0, M', p, q, c, s, k + 1)
  {
    assert vip == At(V0, k, p) && viq == At(V0, k, q);
  }

  lemma VRotatedAll(V0: Matrix, M: Matrix, p: nat, q: nat, c: real, s: real)
    requires Square(V0) && p < q < V0.rows
    requires VRotatedUpTo(V0, M, p, q, c, s, V0.rows)
    ensures M == RotateVOf(V0, p, q, c, s)
  {
    Ext(M, RotateVOf(V0, p, q, c, s));
  }

  /** The four stores of the 2 x 2 block of p and q (the new diagonal, and zero
      at the pivot pair), from the values D holds before the rotation. */
  method RotateCorners(d: array<real>, n: nat, p: nat, q: nat, c: real, s: real) returns (ghost cur: Matrix)
    requires d.Length == n * n && p < q < n
    modifies d
    ensures cur == Matrix(n, n, d[..]) && RotatedUpTo(old(Matrix(n, n, d[..])), cur, p, q, c, s, 0)
  {
    ghost var D0 := Matrix(n, n, d[..]);
    var app := Load(d, n, n, p, p, D0);
    var aqq := Load(d, n, n, q, q, D0);
    var apq := Load(d, n, n, p, q, D0);
    var appNew := c * c * app - 2.0 * c * s * apq + s * s * aqq;
    var aqqNew := s * s * app + 2.0 * c * s * apq + c * c * aqq;
    NewDiagonal(app, aqq, apq, c, s);
    cur := D0;
    cur := Store(d, n, n, p, p, appNew, cur);
    cur := Store(d, n, n, q, q, aqqNew, cur);
    cur := Store(d, n, n, p, q, 0.0, cur);
    cur := Store(d, n, n, q, p, 0.0, cur);
    RotatedCorners(D0, cur, p, q, c, s, app, aqq, apq);
  }

  /** One pass of the loop over i, for i outside {p, q}: the pairs (i, p), (p, i)
      and (i, q), (q, i) get the rotated values of row i. */
  method RotateRowPair(d: array<real>, n: nat, p: nat, q: nat, c: real, s: real, i: nat, ghost prev: Matrix)
    returns (ghost cur: Matrix)
    requires d.Length == n * n && p < q < n && i < n && i != p && i != q && prev == Matrix(n, n, d[..])
    modifies d
    ensures cur == Matrix(n, n, d[..])
    ensures cur == PairStore(prev, p, q, i, RotLo(At(prev, i, p), At(prev, i, q), c, s),
                             RotHi(At(prev, i, p), At(prev, i, q), c, s))
  {
    var aip := Load(d, n, n, i, p, prev);
    var aiq := Load(d, n, n, i, q, prev);
    var dip := c * aip - s * aiq;
    var diq := s * aip + c * aiq;
    RotPair(aip, aiq, c, s);
    cur := Store(d, n, n, i, p, dip, prev);
    cur := Store(d, n, n, p, i, dip, cur);
    cur := Store(d, n, n, i, q, diq, cur);
    cur := Store(d, n, n, q, i, diq, cur);
  }

  /** Step 3 of an iteration: rotate rows and columns p and q of D's buffer in place. */
  method RotateD(d: array<real>, n: nat, p: nat, q: nat, c: real, s: real)
    requires d.Length == n * n && p < q < n
    modifies d
    ensures Matrix(n, n, d[..]) == RotateOf(old(Matrix(n, n, d[..])), p, q, c, s)
  {
    ghost var D0 := Matrix(n, n, d[..]);
    ghost var cur := RotateCorners(d, n, p, q, c, s);
    for i := 0 to n
      invariant cur == Matrix(n, n, d[..])
      invariant RotatedUpTo(D0, cur, p, q, c, s, i)
    {
      if i == p || i == q {
        RotatedSkip(D0, cur, p, q, c, s, i);
      } else {
        RotatedRow(D0, cur, p, q, c, s, i);
        cur := RotateRowPair(d, n, p, q, c, s, i, cur);
      }
    }
    RotatedAll(D0, cur, p, q, c, s);
  }

  /** Step 4 of an iteration: rotate columns p and q of V's buffer in place. */
  method RotateV(v: array<real>, n: nat, p: nat, q: nat, c: real, s: real)
    requires v.Length == n * n && p < q < n
    modifies v
    ensures Matrix(n, n, v[..]) == RotateVOf(old(Matrix(n, n, v[..])), p, q, c, s)
  {
    ghost var V0 := Matrix(n, n, v[..]);
    ghost var cur := V0;
    for i := 0 to n
      invariant cur == Matrix(n, n, v[..])
      invariant VRotatedUpTo(V0, cur, p, q, c, s, i)
    {
      var vip := Load(v, n, n, i, p, cur);
      var viq := Load(v, n, n, i, q, cur);
      ghost var prev := cur;
      RotPair(vip, viq, c, s);
      cur := Store(v, n, n, i, p, c * vip - s * viq, cur);
      cur := Store(v, n, n, i, q, s * vip + c * viq, cur);
      VRotatedRow(V0, prev, cur, p, q, c, s, i, vip, viq);
    }
    VRotatedAll(V0, cur, p, q, c, s);
  }

  // ---------------------------------------------------------------------------
  // The iteration and jacobiEVD itself
  // ---------------------------------------------------------------------------

  /** The outputs V and D, and the number of rotations made. */
  datatype Eigen = Eigen(V: Matrix, D: Matrix, rotations: nat)

  /** The rotation of steps 2 to 4 by the pivot of D, applied to D and to V. */
  function RotatedD(D: Matrix, m: CMath): (R: Matrix)
    requires Square(D) && PivotOf(D).maxVal > 0.0
    ensures HasShape(R, D.rows, D.rows)
  {
    PivotOfIsPivot(D);
    var pv := PivotOf(D);
    var theta := Theta(At(D, pv.p, pv.p), At(D, pv.q, pv.q), At(D, pv.p, pv.q), m);
    RotateOf(D, pv.p, pv.q, m.cos(theta), m.sin(theta))
  }

  function RotatedV(D: Matrix, V: Matrix, m: CMath): (R: Matrix)
    requires Square(D) && HasShape(V, D.rows, D.rows) && PivotOf(D).maxVal > 0.0
    ensures HasShape(R, D.rows, D.rows)
  {
    PivotOfIsPivot(D);
    var pv := PivotOf(D);
    var theta := Theta(At(D, pv.p, pv.p), At(D, pv.q, pv.q), At(D, pv.p, pv.q), m);
    RotateVOf(V, pv.p, pv.q, m.cos(theta), m.sin(theta))
  }

  /** The iterations from a state (D, V) after `done` rotations with `left`
      iterations still allowed: stop when the pivot is below tol, otherwise
      rotate and go on. */
  function JacobiFrom(D: Matrix, V: Matrix, done: nat, left: nat, tol: real, m: CMath): (r: Eigen)
    requires Square(D) && HasShape(V, D.rows, D.rows) && tol > 0.0
    ensures HasShape(r.D, D.rows, D.rows) && HasShape(r.V, D.rows, D.rows)
    ensures done <= r.rotations <= done + left
    decreases left, 1
  {
    if left == 0 then Eigen(V, D, done) else JacobiRound(D, V, done, left, tol, m)
  }

  /** An iteration with at least one still allowed: the convergence test and,
      failing it, the rotation. */
  function JacobiRound(D: Matrix, V: Matrix, done: nat, left: nat, tol: real, m: CMath): (r: Eigen)
    requires Square(D) && HasShape(V, D.rows, D.rows) && tol > 0.0 && left > 0
    ensures HasShape(r.D, D.rows, D.rows) && HasShape(r.V, D.rows, D.rows)
    ensures done <= r.rotations <= done + left
    decreases left, 0
  {
    if PivotOf(D).maxVal < tol then Eigen(V, D, done)
    else JacobiFrom(RotatedD(D, m), RotatedV(D, V, m), done + 1, left - 1, tol, m)
  }

  lemma JacobiFromUnfold(D: Matrix, V: Matrix, done: nat, left: nat, tol: real, m: CMath)
    requires Square(D) && HasShape(V, D.rows, D.rows) && tol > 0.0
    ensures JacobiFrom(D, V, done, left, tol, m) ==
      if left == 0 || PivotOf(D).maxVal < tol then Eigen(V, D, done)
      else JacobiFrom(RotatedD(D, m), RotatedV(D, V, m), done + 1, left - 1, tol, m)
  {
    if left > 0 {
      assert JacobiFrom(D, V, done, left, tol, m) == JacobiRound(D, V, done, left, tol, m);
    }
  }

  /** jacobiEVD(A, V, D, maxIter, tol): a non-square A is an error; otherwise the
      iteration starts from V = identity(n) and D = A and makes at most maxIter
      rotations (none when maxIter <= 0). */
  function JacobiOf(A: Matrix, maxIter: int, tol: real, m: CMath): (r: Result<Eigen>)
    requires Valid(A) && tol > 0.0
    ensures r.Fail? <==> A.rows != A.cols
    ensures r.Fail? ==> r.message == "jacobiEVD: A must be square"
    ensures r.Ok? ==> HasShape(r.value.V, A.rows, A.rows) && HasShape(r.value.D, A.rows, A.rows)
    ensures r.Ok? ==> r.value.rotations <= if maxIter > 0 then maxIter else 0
  {
    if A.rows != A.cols then Fail("jacobiEVD: A must be square")
    else Ok(JacobiFrom(A, IdentityOf(A.rows), 0, if maxIter > 0 then maxIter else 0, tol, m))
  }

  /** With no iterations allowed the outputs are the starting point (I, A). */
  lemma JacobiNoIterations(A: Matrix, maxIter: int, tol: real, m: CMath)
    requires Square(A) && maxIter <= 0 && tol > 0.0
    ensures JacobiOf(A, maxIter, tol, m) == Ok(Eigen(IdentityOf(A.rows), A, 0))
  {
  }

  /** Stopping before the iteration budget is used up happens only at
      convergence: the largest upper off-diagonal magnitude is below tol. */
  lemma {:induction false} JacobiFromStopsBelowTol(D: Matrix, V: Matrix, done: nat, left: nat, tol: real, m: CMath)
    requires Square(D) && HasShape(V, D.rows, D.rows) && tol > 0.0
    ensures var r := JacobiFrom(D, V, done, left, tol, m);
      r.rotations < done + left ==> PivotOf(r.D).maxVal < tol
    decreases left
  {
    JacobiFromUnfold(D, V, done, left, tol, m);
    if left > 0 && PivotOf(D).maxVal >= tol {
      JacobiFromStopsBelowTol(RotatedD(D, m), RotatedV(D, V, m), done + 1, left - 1, tol, m);
    }
  }

  lemma JacobiStopsBelowTol(A: Matrix, maxIter: int, tol: real, m: CMath)
    requires Square(A) && tol > 0.0
    ensures var r := JacobiOf(A, maxIter, tol, m).value;
      r.rotations < maxIter ==> PivotOf(r.D).maxVal < tol
  {
    JacobiFromStopsBelowTol(A, IdentityOf(A.rows), 0, if maxIter > 0 then maxIter else 0, tol, m);
  }

  lemma {:induction false} JacobiFromKeepsSymmetry(D: Matrix, V: Matrix, done: nat, left: nat, tol: real, m: CMath)
    requires IsSymmetric(D) && Square(D) && HasShape(V, D.rows, D.rows) && tol > 0.0
    ensures IsSymmetric(JacobiFrom(D, V, done, left, tol, m).D)
    decreases left
  {
    JacobiFromUnfold(D, V, done, left, tol, m);
    if left > 0 && PivotOf(D).maxVal >= tol {
      PivotOfIsPivot(D);
      var pv := PivotOf(D);
      var theta := Theta(At(D, pv.p, pv.p), At(D, pv.q, pv.q), At(D, pv.p, pv.q), m);
      RotateKeepsSymmetry(D, pv.p, pv.q, m.cos(theta), m.sin(theta));
      JacobiFromKeepsSymmetry(RotatedD(D, m), RotatedV(D, V, m), done + 1, left - 1, tol, m);
    }
  }

  /** A symmetric input gives a symmetric D. */
  lemma JacobiKeepsSymmetry(A: Matrix, maxIter: int, tol: real, m: CMath)
    requires IsSymmetric(A) && Square(A) && tol > 0.0
    ensures IsSymmetric(JacobiOf(A, maxIter, tol, m).value.D)
  {
    JacobiFromKeepsSymmetry(A, IdentityOf(A.rows), 0, if maxIter > 0 then maxIter else 0, tol, m);
  }

  /** One pass of the iteration loop over the buffers: steps 1 to 4, or the
      convergence exit. */
  method Iterate(d: array<real>, v: array<real>, n: nat, tol: real, m: CMath, ghost D: Matrix, ghost V: Matrix)
    returns (converged: bool)
    requires d != v && d.Length == n * n && v.Length == n * n && tol > 0.0
    requires D == Matrix(n, n, d[..]) && V == Matrix(n, n, v[..])
    modifies d, v
    ensures converged <==> PivotOf(D).maxVal < tol
    ensures converged ==> d[..] == D.data && v[..] == V.data
    ensures !converged ==> Matrix(n, n, d[..]) == RotatedD(D, m) && Matrix(n, n, v[..]) == RotatedV(D, V, m)
  {
    var maxVal, p, q := FindPivot(d, n);
    if maxVal < tol {
      return true;
    }
    PivotOfIsPivot(D);
    var app := Load(d, n, n, p, p, D);
    var aqq := Load(d, n, n, q, q, D);
    var apq := Load(d, n, n, p, q, D);
    var theta := 0.0;
    if Abs(apq) > 0.000000000001 {
      theta := 0.5 * m.atan2(2.0 * apq, app - aqq);
    }
    assert theta == Theta(app, aqq, apq, m);
    var c, s := m.cos(theta), m.sin(theta);
    RotateD(d, n, p, q, c, s);
    RotateV(v, n, p, q, c, s);
    converged := false;
  }

  /** The loop invariant of jacobiEVD is kept by a rotation. */
  lemma JacobiFromAdvance(D: Matrix, V: Matrix, done: nat, left: nat, tol: real, m: CMath, target: Eigen)
    requires Square(D) && HasShape(V, D.rows, D.rows) && tol > 0.0 && left > 0 && PivotOf(D).maxVal >= tol
    requires JacobiFrom(D, V, done, left, tol, m) == target
    ensures JacobiFrom(RotatedD(D, m), RotatedV(D, V, m), done + 1, left - 1, tol, m) == target
  {
    JacobiFromUnfold(D, V, done, left, tol, m);
  }

  /** The loop invariant of jacobiEVD: the iterations still allowed, run from
      the matrices the buffers hold, reach the outcome of the whole call. */
  ghost predicate Reaches(d: seq<real>, v: seq<real>, n: nat, done: nat, left: nat, tol: real, m: CMath, target: Eigen) {
    |d| == n * n && |v| == n * n && tol > 0.0 &&
    JacobiFrom(Matrix(n, n, d), Matrix(n, n, v), done, left, tol, m) == target
  }

  lemma JacobiStart(A: Matrix, maxIter: int, tol: real, m: CMath)
    requires Square(A) && tol > 0.0
    ensures Reaches(A.data, IdentityOf(A.rows).data, A.rows, 0, if maxIter > 0 then maxIter else 0, tol, m,
                    JacobiOf(A, maxIter, tol, m).value)
  {
    assert A == Matrix(A.rows, A.rows, A.data);
  }

  lemma NothingLeft(d: seq<real>, v: seq<real>, n: nat, done: nat, tol: real, m: CMath, target: Eigen)
    requires Reaches(d, v, n, done, 0, tol, m, target)
    ensures target == Eigen(Matrix(n, n, v), Matrix(n, n, d), done)
  {
  }

  /** One iteration of the loop together with what it does to the outcome: the
      remaining iterations from the new state reach the same result. */
  method Step(d: array<real>, v: array<real>, n: nat, tol: real, m: CMath,
              ghost done: nat, ghost left: nat, ghost target: Eigen)
    returns (converged: bool)
    requires d != v && left > 0 && Reaches(d[..], v[..], n, done, left, tol, m, target)
    modifies d, v
    ensures converged ==> (d[..] == old(d[..]) && v[..] == old(v[..]) &&
                           target == Eigen(Matrix(n, n, v[..]), Matrix(n, n, d[..]), done))
    ensures !converged ==> Reaches(d[..], v[..], n, done + 1, left - 1, tol, m, target)
  {
    ghost var D, V := Matrix(n, n, d[..]), Matrix(n, n, v[..]);
    converged := Iterate(d, v, n, tol, m, D, V);
    JacobiFromUnfold(D, V, done, left, tol, m);
    if !converged {
      JacobiFromAdvance(D, V, done, left, tol, m, target);
    }
  }

  /** The iteration loop of jacobiEVD over the buffers, from a state whose
      outcome is target; it returns the number of rotations made. */
  method Iterations(d: array<real>, v: array<real>, n: nat, maxIter: int, tol: real, m: CMath, ghost target: Eigen)
    returns (iter: nat)
    requires d != v && Reaches(d[..], v[..], n, 0, if maxIter > 0 then maxIter else 0, tol, m, target)
    modifies d, v
    ensures target == Eigen(Matrix(n, n, v[..]), Matrix(n, n, d[..]), iter)
  {
    ghost var left: nat := if maxIter > 0 then maxIter else 0;
    iter := 0;
    while iter < maxIter
      invariant left == (if maxIter > 0 then maxIter else 0) - iter
      invariant Reaches(d[..], v[..], n, iter, left, tol, m, target)
      decreases maxIter - iter
    {
      var converged := Step(d, v, n, tol, m, iter, left, target);
      if converged {
        return;
      }
      left := left - 1;
      iter := iter + 1;
    }
    NothingLeft(d[..], v[..], n, iter, tol, m, target);
  }

  /** jacobiEVD over flat buffers for D and V, updated in place. */
  method JacobiEVD(A: Matrix, maxIter: int, tol: real, m: CMath) returns (r: Result<Eigen>)
    requires Valid(A) && tol > 0.0
    ensures r == JacobiOf(A, maxIter, tol, m)
  {
    if A.rows != A.cols {
      return Fail("jacobiEVD: A must be square");
    }
    var n := A.rows;
    var I := Identity(n);
    var v := Buffer(I);
    var d := Buffer(A);
    JacobiStart(A, maxIter, tol, m);
    var iter := Iterations(d, v, n, maxIter, tol, m, JacobiOf(A, maxIter, tol, m).value);
    r := Ok(Eigen(Matrix(n, n, v[..]), Matrix(n, n, d[..]), iter));
  }
}
