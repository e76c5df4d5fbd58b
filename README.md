# BCI guitar pedal: ICA gain pipeline in Dafny

This project models the signal path that turns a window of EEG samples into
two PWM gain values for the guitar pedal, in the two C++ versions of the
repository.

* The ground unit (`Ground_Unit/C++_Implementation/mainprocess_internal.cpp`)
  has a small row-major float matrix toolkit (transpose, matMul, matDiv,
  matSub, matAdd, identity, frobeniusNorm), column means, centring and
  covariance, a cyclic Jacobi eigen-decomposition, the diagonal helpers
  (diagVector, diagMatrix, sqrtVector, invVector), whitening, symmetric
  decorrelation and a tanh FastICA. Its processing task runs `fastICA(data, 2)`
  on a 100 x 8 window and maps the mean of each component row, relative to
  that row's minimum and maximum, onto 0..255.
* The board-side sketch (`C++_Implementation/simpleCA.cpp`) fills a
  1000 x 4 ring buffer from the acquisition task. Each pass of its processing
  task centres the buffer in place, forms the channel differences 0 - 1 and
  2 - 3, and normalises the last sample of each difference by its scanned
  range onto 0..255.

Modules, in dependency order:

| file | module | what it holds |
|---|---|---|
| `wrappers.dfy` | `Wrappers` | `Result` (a value, or the message of the `std::runtime_error` the source throws) |
| `cmath.dfy` | `CMath` | `sqrt`, `tanh`, `atan2`, `cos` and `sin` as parameters; `Abs`; truncation toward zero (the C `(int)` cast) |
| `matrices.dfy` | `Matrices` | the row-major `Matrix`, `At`, `Tabulate`, extensionality, and the buffer `Load`/`Store` steps |
| `arithmetic.dfy` | `Arithmetic` | the matrix toolkit: one specification function and one loop method per operation |
| `statistics.dfy` | `Statistics` | columnMean, centerData, covariance |
| `jacobi.dfy` | `Jacobi` | jacobiEVD: the pivot search, the in-place rotation of D and V, the iteration |
| `diagonal.dfy` | `Diagonal` | diagVector, diagMatrix, sqrtVector, invVector |
| `ica.dfy` | `Ica` | M^{-1/2}, whitenData, symmetricDecorrelation (as written and corrected), the FastICA iteration |
| `gains.dfy` | `Gains` | the ground unit's ICAProcessingTask: getRow, minVal, maxVal, meanVal, the gains, the demo fill |
| `simple_ca.dfy` | `SimpleCA` | normalize, one performICA pass over the buffer, and the ring buffer as a class |

Floats are modelled as `real`. Every loop method is proved equal to a
specification function, and the properties the code relies on are proved
about those functions. Examples: centred columns sum to zero; covariance is
symmetric; a Jacobi rotation zeroes its pivot and keeps D symmetric; the
whitening matrix is symmetric; every gain is a PWM value in 0..255.

The two imperative loops that repeat until they converge (jacobiEVD and the
FastICA iteration) are specified by recursive functions (`Jacobi.JacobiOf`,
`Ica.IcaFrom`). The loop methods are proved to reach exactly the result of
that function. The functions are split into a pair (`JacobiFrom`/`JacobiRound`,
`IcaFrom`/`IcaRound`) so that each unfolds one round at a time.

Where the code's own comments and its behaviour differ, the model follows
the code. The points where that matters:

* The pins get the C `(int)` cast of the gain, which truncates toward zero
  (mainprocess_internal.cpp:532-533, simpleCA.cpp:99-100). The gain already
  lies in [0, 255] at that point, so the pins are in 0..255 (`Gains.CycleOf`,
  `SimpleCA.CycleGainsOf`).
* `invVector` maps an entry to 0 only when it is exactly 0.0 and inverts
  every other entry (mainprocess_internal.cpp:289).
* fastICA returns S = W * whitened_data after the loop whether or not the
  distance fell below tol (mainprocess_internal.cpp:421-430).
* simpleCA's acquisition task and processing task read and write one shared
  buffer (not modelled; see Left out).
* The decorrelation computes M = W * W^T and returns W * M^{-1/2}
  (mainprocess_internal.cpp:331-349), while the comment at
  mainprocess_internal.cpp:327 writes W * (W^T W)^{-1/2}. For the two
  components of an 8-channel window W is 2 x 8 and M^{-1/2} is 2 x 2, so the
  product at mainprocess_internal.cpp:349 raises the matMul dimension error
  (see Findings).
* simpleCA's `normalize` divides by max_val - min_val with no check
  (simpleCA.cpp:45-47); the ground unit computes a gain only when
  c_max > c_min (mainprocess_internal.cpp:522-529) (see Findings).

## Model

| member | source | states |
|---|---|---|
| `Matrices.Index` | BCI_GuitarPedal/Ground_Unit/C++_Implementation/mainprocess_internal.cpp:11-25 | the row-major offset `r * cols + c` of an entry inside the bounds lies inside the data buffer |
| `Matrices.Zeros` | BCI_GuitarPedal/Ground_Unit/C++_Implementation/mainprocess_internal.cpp:16 | a freshly constructed rows x cols matrix is zero everywhere |
| `Arithmetic.TransposeOf` | BCI_GuitarPedal/Ground_Unit/C++_Implementation/mainprocess_internal.cpp:56-64 | the transpose is cols x rows with entry (i, j) = A(j, i) |
| `Arithmetic.TransposeTwice` | BCI_GuitarPedal/Ground_Unit/C++_Implementation/mainprocess_internal.cpp:56-64 | transposing twice gives the original matrix back |
| `Arithmetic.Transpose` | BCI_GuitarPedal/Ground_Unit/C++_Implementation/mainprocess_internal.cpp:56-64 | the nested copy loop builds exactly the transpose |
| `Arithmetic.MatMulOf` | BCI_GuitarPedal/Ground_Unit/C++_Implementation/mainprocess_internal.cpp:67-83 | fails with "matMul: dimension mismatch" exactly when A.cols != B.rows; otherwise the product is A.rows x B.cols and entry (i, j) is the dot product of row i of A and column j of B |
| `Arithmetic.MatMul` | BCI_GuitarPedal/Ground_Unit/C++_Implementation/mainprocess_internal.cpp:67-83 | the triple loop with its running sum computes that product, or throws the same error |
| `Arithmetic.MatMulIdentityRight` | BCI_GuitarPedal/Ground_Unit/C++_Implementation/mainprocess_internal.cpp:67-83 | A * identity(A.cols) is A |
| `Arithmetic.MatMulIdentityLeft` | BCI_GuitarPedal/Ground_Unit/C++_Implementation/mainprocess_internal.cpp:67-83 | identity(A.rows) * A is A |
| `Arithmetic.IdentityOf` | BCI_GuitarPedal/Ground_Unit/C++_Implementation/mainprocess_internal.cpp:119-125 | identity(n) is n x n with 1 on the diagonal and 0 elsewhere |
| `Arithmetic.Identity` | BCI_GuitarPedal/Ground_Unit/C++_Implementation/mainprocess_internal.cpp:119-125 | the diagonal-writing loop over a zero matrix builds identity(n) |
| `Arithmetic.MatDivOf` | BCI_GuitarPedal/Ground_Unit/C++_Implementation/mainprocess_internal.cpp:86-92 | every entry is divided by the scalar; the shape is kept |
| `Arithmetic.MatDiv` | BCI_GuitarPedal/Ground_Unit/C++_Implementation/mainprocess_internal.cpp:86-92 | the element loop computes matDiv |
| `Arithmetic.MatSubOf` | BCI_GuitarPedal/Ground_Unit/C++_Implementation/mainprocess_internal.cpp:95-104 | fails with "matSub: dimension mismatch" exactly when the shapes differ; otherwise entry-wise A - B |
| `Arithmetic.MatSub` | BCI_GuitarPedal/Ground_Unit/C++_Implementation/mainprocess_internal.cpp:95-104 | the element loop computes matSub |
| `Arithmetic.MatAddOf` | BCI_GuitarPedal/Ground_Unit/C++_Implementation/mainprocess_internal.cpp:107-116 | fails with "matAdd: dimension mismatch" exactly when the shapes differ; otherwise entry-wise A + B |
| `Arithmetic.MatAdd` | BCI_GuitarPedal/Ground_Unit/C++_Implementation/mainprocess_internal.cpp:107-116 | the element loop computes matAdd |
| `Arithmetic.SubUndoesAdd` | BCI_GuitarPedal/Ground_Unit/C++_Implementation/mainprocess_internal.cpp:95-116 | for equal shapes, matSub(matAdd(A, B), B) is A |
| `Arithmetic.SubSelfIsZero` | BCI_GuitarPedal/Ground_Unit/C++_Implementation/mainprocess_internal.cpp:95-104 | matSub(A, A) is the zero matrix of A's shape |
| `Arithmetic.SumSquaresNonNeg` | BCI_GuitarPedal/Ground_Unit/C++_Implementation/mainprocess_internal.cpp:128-134 | the sum of squares under the root is never negative, and is 0 for an all-zero matrix |
| `Arithmetic.SelfDistanceZero` | BCI_GuitarPedal/Ground_Unit/C++_Implementation/mainprocess_internal.cpp:128-134 | the squared Frobenius distance of a matrix to itself is 0 |
| `Arithmetic.FrobeniusNorm` | BCI_GuitarPedal/Ground_Unit/C++_Implementation/mainprocess_internal.cpp:128-134 | the accumulating loop returns sqrt of the sum of squared entries |
| `Statistics.ColumnMeanOf` | BCI_GuitarPedal/Ground_Unit/C++_Implementation/mainprocess_internal.cpp:141-151 | a 1 x cols row whose entry c is the column sum divided by the number of rows |
| `Statistics.ColumnMean` | BCI_GuitarPedal/Ground_Unit/C++_Implementation/mainprocess_internal.cpp:141-151 | the two nested loops compute those means |
| `Statistics.CenterDataOf` | BCI_GuitarPedal/Ground_Unit/C++_Implementation/mainprocess_internal.cpp:154-163 | same shape; every entry has its column mean subtracted |
| `Statistics.CenterData` | BCI_GuitarPedal/Ground_Unit/C++_Implementation/mainprocess_internal.cpp:154-163 | the nested loop computes the centred matrix |
| `Statistics.CenteredColumnsSumToZero` | BCI_GuitarPedal/Ground_Unit/C++_Implementation/mainprocess_internal.cpp:154-163 | every column of the centred data sums to zero |
| `Statistics.CenteredColumnSumsToZero` | BCI_GuitarPedal/Ground_Unit/C++_Implementation/mainprocess_internal.cpp:154-163 | one column of the centred data sums to zero |
| `Statistics.ZeroMeanCenterUnchanged` | BCI_GuitarPedal/Ground_Unit/C++_Implementation/mainprocess_internal.cpp:154-163 | centring data whose columns already sum to zero leaves it unchanged |
| `Statistics.CenterIdempotent` | BCI_GuitarPedal/Ground_Unit/C++_Implementation/mainprocess_internal.cpp:154-163 | centring twice is the same as centring once |
| `Statistics.CovarianceOf` | BCI_GuitarPedal/Ground_Unit/C++_Implementation/mainprocess_internal.cpp:166-173 | (X^T X) / rows is cols x cols with entry (i, j) the dot product of columns i and j over the rows |
| `Statistics.CovarianceEntries` | BCI_GuitarPedal/Ground_Unit/C++_Implementation/mainprocess_internal.cpp:169-170 | entry (i, j) of X^T * X is the dot product of columns i and j of X |
| `Statistics.ColDotSymmetric` | BCI_GuitarPedal/Ground_Unit/C++_Implementation/mainprocess_internal.cpp:166-173 | the column dot product is symmetric in the two columns |
| `Statistics.CovarianceSymmetric` | BCI_GuitarPedal/Ground_Unit/C++_Implementation/mainprocess_internal.cpp:166-173 | the covariance matrix is symmetric |
| `Jacobi.PivotOfIsPivot` | BCI_GuitarPedal/Ground_Unit/C++_Implementation/mainprocess_internal.cpp:193-204 | the row-major scan above the diagonal yields a maxVal that bounds every upper off-diagonal magnitude. If all are 0 it is 0 with (p, q) = (0, 0); otherwise p < q, the magnitude at (p, q) equals maxVal, and every earlier entry is strictly smaller |
| `Jacobi.PivotUnique` | BCI_GuitarPedal/Ground_Unit/C++_Implementation/mainprocess_internal.cpp:193-204 | that property determines the pivot uniquely |
| `Jacobi.FindPivot` | BCI_GuitarPedal/Ground_Unit/C++_Implementation/mainprocess_internal.cpp:193-204 | the two nested loops over the buffer return exactly that pivot |
| `Jacobi.Theta` | BCI_GuitarPedal/Ground_Unit/C++_Implementation/mainprocess_internal.cpp:215-218 | an off-diagonal entry of magnitude at most 1e-12 gives the angle 0 |
| `Jacobi.RotationKeepsLength` | BCI_GuitarPedal/Ground_Unit/C++_Implementation/mainprocess_internal.cpp:236-237 | with c^2 + s^2 = 1 (c = cos theta, s = sin theta), the pair (c*a - s*b, s*a + c*b) has the same length as (a, b) |
| `Jacobi.RotationKeepsTrace` | BCI_GuitarPedal/Ground_Unit/C++_Implementation/mainprocess_internal.cpp:225-226 | with c^2 + s^2 = 1, app_new + aqq_new == app + aqq |
| `Jacobi.RotateOf` | BCI_GuitarPedal/Ground_Unit/C++_Implementation/mainprocess_internal.cpp:225-242 | one rotation of D: new corners, zeroed pivot, and rows/columns p and q rotated pairwise, all other entries kept |
| `Jacobi.RotateZeroesPivot` | BCI_GuitarPedal/Ground_Unit/C++_Implementation/mainprocess_internal.cpp:229-230 | after a rotation, D(p, q) = D(q, p) = 0 |
| `Jacobi.RotateFrame` | BCI_GuitarPedal/Ground_Unit/C++_Implementation/mainprocess_internal.cpp:225-242 | entries outside rows and columns p and q are untouched |
| `Jacobi.RotateKeepsSymmetry` | BCI_GuitarPedal/Ground_Unit/C++_Implementation/mainprocess_internal.cpp:225-242 | a rotation of a symmetric D is symmetric |
| `Jacobi.RotateVOf` | BCI_GuitarPedal/Ground_Unit/C++_Implementation/mainprocess_internal.cpp:245-250 | one rotation of V: columns p and q replaced by their rotated pair |
| `Jacobi.RotateVFrame` | BCI_GuitarPedal/Ground_Unit/C++_Implementation/mainprocess_internal.cpp:245-250 | only columns p and q of V change |
| `Jacobi.RotateCorners` | BCI_GuitarPedal/Ground_Unit/C++_Implementation/mainprocess_internal.cpp:225-230 | the four corner writes start the in-place rotation of D |
| `Jacobi.RotateRowPair` | BCI_GuitarPedal/Ground_Unit/C++_Implementation/mainprocess_internal.cpp:232-242 | one iteration of the row loop stores dip and diq at (i, p), (p, i), (i, q) and (q, i) |
| `Jacobi.RotateD` | BCI_GuitarPedal/Ground_Unit/C++_Implementation/mainprocess_internal.cpp:225-242 | the in-place update of D's buffer leaves exactly the rotated D |
| `Jacobi.RotateV` | BCI_GuitarPedal/Ground_Unit/C++_Implementation/mainprocess_internal.cpp:245-250 | the in-place update of V's buffer leaves exactly the rotated V |
| `Jacobi.RotatedD` | BCI_GuitarPedal/Ground_Unit/C++_Implementation/mainprocess_internal.cpp:210-242 | D after one iteration, with the angle from atan2 (0 when the pivot is at most 1e-12); the shape is kept |
| `Jacobi.RotatedV` | BCI_GuitarPedal/Ground_Unit/C++_Implementation/mainprocess_internal.cpp:210-250 | V after one iteration; the shape is kept |
| `Jacobi.Iterate` | BCI_GuitarPedal/Ground_Unit/C++_Implementation/mainprocess_internal.cpp:192-250 | one loop body over the buffers: it reports convergence exactly when the pivot is below tol and then leaves D and V untouched; otherwise it leaves the rotated D and V |
| `Jacobi.JacobiFrom` | BCI_GuitarPedal/Ground_Unit/C++_Implementation/mainprocess_internal.cpp:191-251 | the iterations still allowed keep the shapes, and the rotations counted stay within the done .. done + left bound |
| `Jacobi.JacobiRound` | BCI_GuitarPedal/Ground_Unit/C++_Implementation/mainprocess_internal.cpp:193-250 | an iteration with at least one still allowed (the convergence test, then a rotation and the rest) keeps the shapes and counts between done and done + left rotations |
| `Jacobi.JacobiOf` | BCI_GuitarPedal/Ground_Unit/C++_Implementation/mainprocess_internal.cpp:180-256 | fails with "jacobiEVD: A must be square" exactly for a non-square A; otherwise V and D are n x n and at most max(maxIter, 0) rotations are made |
| `Jacobi.JacobiNoIterations` | BCI_GuitarPedal/Ground_Unit/C++_Implementation/mainprocess_internal.cpp:185-191 | with maxIter <= 0 the result is V = identity, D = A |
| `Jacobi.JacobiStopsBelowTol` | BCI_GuitarPedal/Ground_Unit/C++_Implementation/mainprocess_internal.cpp:205-208 | if fewer than maxIter rotations were made, the remaining largest off-diagonal magnitude is below tol |
| `Jacobi.JacobiKeepsSymmetry` | BCI_GuitarPedal/Ground_Unit/C++_Implementation/mainprocess_internal.cpp:191-251 | a symmetric A gives a symmetric D |
| `Jacobi.Step` | BCI_GuitarPedal/Ground_Unit/C++_Implementation/mainprocess_internal.cpp:191-251 | one loop iteration either stops at the final result or leaves a state from which one fewer iteration reaches it |
| `Jacobi.Iterations` | BCI_GuitarPedal/Ground_Unit/C++_Implementation/mainprocess_internal.cpp:191-251 | the iteration loop over the buffers ends in exactly the final V and D and returns the number of rotations |
| `Jacobi.JacobiEVD` | BCI_GuitarPedal/Ground_Unit/C++_Implementation/mainprocess_internal.cpp:180-256 | the method over in-place buffers computes JacobiOf, including the square check |
| `Diagonal.DiagVectorOf` | BCI_GuitarPedal/Ground_Unit/C++_Implementation/mainprocess_internal.cpp:259-265 | an n x 1 vector whose entry i is M(i, i) |
| `Diagonal.DiagVector` | BCI_GuitarPedal/Ground_Unit/C++_Implementation/mainprocess_internal.cpp:259-265 | the loop computes diagVector |
| `Diagonal.DiagMatrixOf` | BCI_GuitarPedal/Ground_Unit/C++_Implementation/mainprocess_internal.cpp:268-274 | an n x n matrix holding the vector on its diagonal and 0 elsewhere |
| `Diagonal.DiagMatrix` | BCI_GuitarPedal/Ground_Unit/C++_Implementation/mainprocess_internal.cpp:268-274 | the loop computes diagMatrix |
| `Diagonal.DiagVectorOfDiagMatrix` | BCI_GuitarPedal/Ground_Unit/C++_Implementation/mainprocess_internal.cpp:259-274 | diagVector(diagMatrix(v)) is v |
| `Diagonal.DiagMatrixOfDiagVector` | BCI_GuitarPedal/Ground_Unit/C++_Implementation/mainprocess_internal.cpp:259-274 | diagMatrix(diagVector(D)) is D for a diagonal D |
| `Diagonal.SqrtVectorOf` | BCI_GuitarPedal/Ground_Unit/C++_Implementation/mainprocess_internal.cpp:277-283 | an n x 1 vector of the square roots of the first n entries |
| `Diagonal.SqrtVector` | BCI_GuitarPedal/Ground_Unit/C++_Implementation/mainprocess_internal.cpp:277-283 | the loop computes sqrtVector |
| `Diagonal.InvVectorOf` | BCI_GuitarPedal/Ground_Unit/C++_Implementation/mainprocess_internal.cpp:286-292 | zero entries stay 0; every other entry x becomes its inverse (out * x = 1) |
| `Diagonal.InvVector` | BCI_GuitarPedal/Ground_Unit/C++_Implementation/mainprocess_internal.cpp:286-292 | the loop computes invVector |
| `Diagonal.InvVectorEntry` | BCI_GuitarPedal/Ground_Unit/C++_Implementation/mainprocess_internal.cpp:289 | entry i of invVector is the guarded inverse of entry i |
| `Diagonal.InvTwice` | BCI_GuitarPedal/Ground_Unit/C++_Implementation/mainprocess_internal.cpp:289 | the guarded inverse is its own inverse |
| `Diagonal.InvVectorTwice` | BCI_GuitarPedal/Ground_Unit/C++_Implementation/mainprocess_internal.cpp:286-292 | invVector(invVector(v)) is v for a column vector |
| `Ica.InvSqrtDiagOf` | BCI_GuitarPedal/Ground_Unit/C++_Implementation/mainprocess_internal.cpp:307-310 | D^{-1/2} is diagonal with entry i equal to the guarded inverse of sqrt(D(i, i)) |
| `Ica.EigenOf` | BCI_GuitarPedal/Ground_Unit/C++_Implementation/mainprocess_internal.cpp:303-304 | jacobiEVD with its defaults on a square matrix gives n x n V and D |
| `Ica.InvSqrtOf` | BCI_GuitarPedal/Ground_Unit/C++_Implementation/mainprocess_internal.cpp:313-315 | V * D^{-1/2} * V^T is n x n |
| `Ica.ConjugateDiagonalSymmetric` | BCI_GuitarPedal/Ground_Unit/C++_Implementation/mainprocess_internal.cpp:313-315 | V * G * V^T is symmetric for every square V and diagonal G |
| `Ica.InvSqrtSymmetric` | BCI_GuitarPedal/Ground_Unit/C++_Implementation/mainprocess_internal.cpp:338-346 | the computed M^{-1/2} is symmetric |
| `Ica.WhiteningMatrixOf` | BCI_GuitarPedal/Ground_Unit/C++_Implementation/mainprocess_internal.cpp:299-315 | the whitening matrix of the covariance is n_features x n_features and symmetric |
| `Ica.WhitenOf` | BCI_GuitarPedal/Ground_Unit/C++_Implementation/mainprocess_internal.cpp:298-323 | the whitened data is n_features x n_samples; entry (i, j) is row i of the whitening matrix applied to sample j |
| `Ica.DecorrelatorOf` | BCI_GuitarPedal/Ground_Unit/C++_Implementation/mainprocess_internal.cpp:330-346 | (W W^T)^{-1/2} is k x k and symmetric for a k x n W |
| `Ica.SymmetricDecorrelationAsWritten` | BCI_GuitarPedal/Ground_Unit/C++_Implementation/mainprocess_internal.cpp:329-351 | W_in * M^{-1/2} succeeds exactly for a square W_in (keeping its shape); otherwise it fails with "matMul: dimension mismatch" |
| `Ica.AsWrittenSquareOk` | BCI_GuitarPedal/Ground_Unit/C++_Implementation/mainprocess_internal.cpp:349 | on a square W the as-written product exists and keeps the shape |
| `Ica.AsWrittenRejectsTwoByEight` | BCI_GuitarPedal/Ground_Unit/C++_Implementation/mainprocess_internal.cpp:349 | the 2 x 8 W of the processing task makes the as-written product throw, while the corrected one is 2 x 8 |
| `Ica.SymmetricDecorrelation` | BCI_GuitarPedal/Ground_Unit/C++_Implementation/mainprocess_internal.cpp:326-351 | the corrected (W W^T)^{-1/2} * W is defined for every k x n W and keeps its shape |
| `Ica.TanhOf` | BCI_GuitarPedal/Ground_Unit/C++_Implementation/mainprocess_internal.cpp:378-387 | g(WX) applies tanh entry by entry |
| `Ica.TanhDerivOf` | BCI_GuitarPedal/Ground_Unit/C++_Implementation/mainprocess_internal.cpp:378-387 | g'(WX) is 1 - tanh^2 entry by entry |
| `Ica.NonLinearity` | BCI_GuitarPedal/Ground_Unit/C++_Implementation/mainprocess_internal.cpp:378-387 | the nested loop fills both matrices exactly |
| `Ica.NonLinearityRow` | BCI_GuitarPedal/Ground_Unit/C++_Implementation/mainprocess_internal.cpp:381-386 | one row of that loop extends both filled prefixes by a row |
| `Ica.RowMeansOf` | BCI_GuitarPedal/Ground_Unit/C++_Implementation/mainprocess_internal.cpp:397-404 | one mean per row: the row sum divided by the number of columns |
| `Ica.RowMeans` | BCI_GuitarPedal/Ground_Unit/C++_Implementation/mainprocess_internal.cpp:397-404 | the loop computes those means |
| `Ica.ScaleRowsOf` | BCI_GuitarPedal/Ground_Unit/C++_Implementation/mainprocess_internal.cpp:407-412 | row r of W is scaled by means[r] |
| `Ica.ScaleRows` | BCI_GuitarPedal/Ground_Unit/C++_Implementation/mainprocess_internal.cpp:407-412 | the in-place `*=` loop leaves exactly the scaled rows |
| `Ica.FirstPartOf` | BCI_GuitarPedal/Ground_Unit/C++_Implementation/mainprocess_internal.cpp:392-394 | (g(WX) Z^T) / n_samples has W's shape; entry (r, c) is the sample average of g(WX)(r, s) * Z(c, s) |
| `Ica.MeanDerivOf` | BCI_GuitarPedal/Ground_Unit/C++_Implementation/mainprocess_internal.cpp:397-404 | one value per component: entry r is the sum of row r of g'(WX) over the samples divided by the number of samples |
| `Ica.UpdateOf` | BCI_GuitarPedal/Ground_Unit/C++_Implementation/mainprocess_internal.cpp:375-414 | W_new has W's shape, with entry (r, c) = firstPart(r, c) - W(r, c) * mean_g'(r) |
| `Ica.FixedPointStep` | BCI_GuitarPedal/Ground_Unit/C++_Implementation/mainprocess_internal.cpp:375-414 | the sequence of calls computes W_new |
| `Ica.Decorrelate` | BCI_GuitarPedal/Ground_Unit/C++_Implementation/mainprocess_internal.cpp:417 | the decorrelation step succeeds exactly when it is the corrected one or W is square; it keeps W's shape and otherwise fails with the matMul message |
| `Ica.IcaFrom` | BCI_GuitarPedal/Ground_Unit/C++_Implementation/mainprocess_internal.cpp:370-426 | the remaining iterations keep W's shape or fail with the matMul message |
| `Ica.IcaRound` | BCI_GuitarPedal/Ground_Unit/C++_Implementation/mainprocess_internal.cpp:372-425 | one iteration then the rest: W's shape is kept or the matMul message is raised |
| `Ica.Distance` | BCI_GuitarPedal/Ground_Unit/C++_Implementation/mainprocess_internal.cpp:421-422 | the Frobenius norm of W - W_last; an unchanged W is at distance sqrt(0) |
| `Ica.IcaFromOk` | BCI_GuitarPedal/Ground_Unit/C++_Implementation/mainprocess_internal.cpp:370-426 | the iterations succeed exactly when none are left, the decorrelation is the corrected one, or W is square |
| `Ica.IcaRoundOk` | BCI_GuitarPedal/Ground_Unit/C++_Implementation/mainprocess_internal.cpp:372-425 | one round succeeds exactly when the decorrelation is the corrected one or W is square |
| `Ica.FastICAOf` | BCI_GuitarPedal/Ground_Unit/C++_Implementation/mainprocess_internal.cpp:358-431 | the components are num_components x n_samples, or fastICA throws the matMul message |
| `Ica.FastICAOk` | BCI_GuitarPedal/Ground_Unit/C++_Implementation/mainprocess_internal.cpp:358-431 | fastICA returns exactly when max_iter <= 0, the decorrelation is the corrected one, or num_components == n_features |
| `Ica.TwoComponentsOfEight` | BCI_GuitarPedal/Ground_Unit/C++_Implementation/mainprocess_internal.cpp:358-431 | with 8 features, 2 components and the default 1000 iterations, the code as written throws "matMul: dimension mismatch"; the corrected one returns 2 x n_samples components |
| `Ica.IcaStep` | BCI_GuitarPedal/Ground_Unit/C++_Implementation/mainprocess_internal.cpp:372-425 | one loop body either ends with the final result or leaves a W from which one fewer iteration reaches it |
| `Ica.IcaLoop` | BCI_GuitarPedal/Ground_Unit/C++_Implementation/mainprocess_internal.cpp:370-426 | the for loop with its break ends in exactly the result of the iteration function |
| `Ica.FastICA` | BCI_GuitarPedal/Ground_Unit/C++_Implementation/mainprocess_internal.cpp:358-431 | the method computes FastICAOf |
| `Gains.RowOf` | BCI_GuitarPedal/Ground_Unit/C++_Implementation/mainprocess_internal.cpp:486-492 | row r as M.cols values, entry c being M(r, c) |
| `Gains.GetRow` | BCI_GuitarPedal/Ground_Unit/C++_Implementation/mainprocess_internal.cpp:486-492 | getRow copies entry (r, c) into position c for every column |
| `Gains.MinUpToIsMin` | BCI_GuitarPedal/Ground_Unit/C++_Implementation/mainprocess_internal.cpp:494-498 | the running minimum seeded with v[0] is one of the values and bounds every value visited |
| `Gains.MaxUpToIsMax` | BCI_GuitarPedal/Ground_Unit/C++_Implementation/mainprocess_internal.cpp:499-503 | the running maximum seeded with v[0] is one of the values and bounds every value visited |
| `Gains.MinOfIsMin` | BCI_GuitarPedal/Ground_Unit/C++_Implementation/mainprocess_internal.cpp:494-498 | minVal is an element of v and at most every element |
| `Gains.MaxOfIsMax` | BCI_GuitarPedal/Ground_Unit/C++_Implementation/mainprocess_internal.cpp:499-503 | maxVal is an element of v and at least every element |
| `Gains.MinVal` | BCI_GuitarPedal/Ground_Unit/C++_Implementation/mainprocess_internal.cpp:494-498 | the loop returns the minimum: in v and bounding it from below |
| `Gains.MaxVal` | BCI_GuitarPedal/Ground_Unit/C++_Implementation/mainprocess_internal.cpp:499-503 | the loop returns the maximum: in v and bounding it from above |
| `Gains.MeanVal` | BCI_GuitarPedal/Ground_Unit/C++_Implementation/mainprocess_internal.cpp:504-508 | the loop returns the sum divided by the size |
| `Gains.MeanBetween` | BCI_GuitarPedal/Ground_Unit/C++_Implementation/mainprocess_internal.cpp:494-508 | minVal(v) <= meanVal(v) <= maxVal(v) |
| `Gains.GainInRange` | BCI_GuitarPedal/Ground_Unit/C++_Implementation/mainprocess_internal.cpp:522-529 | a mean inside [min, max] gives a gain in [0, 255]; an empty range gives 0 |
| `Gains.Gain` | BCI_GuitarPedal/Ground_Unit/C++_Implementation/mainprocess_internal.cpp:522-529 | no gain (0) when max <= min; otherwise gain * (max - min) == (mean - min) * 255 |
| `Gains.ComponentGain` | BCI_GuitarPedal/Ground_Unit/C++_Implementation/mainprocess_internal.cpp:510-529 | the gain of every component row lies in [0, 255], and a constant row gives 0 |
| `Gains.CycleOf` | BCI_GuitarPedal/Ground_Unit/C++_Implementation/mainprocess_internal.cpp:465-533 | a pass either fails with the matMul message or writes two pins, both in 0..255 |
| `Gains.CycleOk` | BCI_GuitarPedal/Ground_Unit/C++_Implementation/mainprocess_internal.cpp:465-533 | a pass produces pins exactly when the decorrelation is the corrected one or the window has 2 channels |
| `Gains.EightChannelTask` | BCI_GuitarPedal/Ground_Unit/C++_Implementation/mainprocess_internal.cpp:446-533 | on the 100 x 8 window ICAProcessingTask as written throws "matMul: dimension mismatch"; corrected, it writes two pins in 0..255 |
| `Gains.RowGain` | BCI_GuitarPedal/Ground_Unit/C++_Implementation/mainprocess_internal.cpp:510-529 | the statistics of one component row give its gain |
| `Gains.Cycle` | BCI_GuitarPedal/Ground_Unit/C++_Implementation/mainprocess_internal.cpp:473-533 | one pass of the ICAProcessingTask loop computes CycleOf |
| `Gains.FillDemo` | BCI_GuitarPedal/Ground_Unit/C++_Implementation/mainprocess_internal.cpp:450-454 | every buffer cell (i, j) holds sin(0.01 * i * (j + 1)) |
| `Gains.ToMatrix` | BCI_GuitarPedal/Ground_Unit/C++_Implementation/mainprocess_internal.cpp:465-470 | the copy loop gives a matrix of the buffer's shape whose entry (i, j) is the buffer cell (i, j) |
| `CMath.Abs` | BCI_GuitarPedal/Ground_Unit/C++_Implementation/mainprocess_internal.cpp:197 | fabs is non-negative and is x or -x |
| `CMath.TruncToInt` | BCI_GuitarPedal/Ground_Unit/C++_Implementation/mainprocess_internal.cpp:532-533 | the `(int)` cast truncates toward zero: |i| <= |x| < |i| + 1 with the sign of x |
| `CMath.TruncInByteRange` | BCI_GuitarPedal/C++_Implementation/simpleCA.cpp:99-100 | truncating a value in [0, 255] gives an int in 0..255 |
| `SimpleCA.Normalize` | BCI_GuitarPedal/C++_Implementation/simpleCA.cpp:45-47 | the result r is on the line through the two ranges: (r - new_min) * (max_val - min_val) == (value - min_val) * (new_max - new_min) |
| `SimpleCA.NormalizeEndpoints` | BCI_GuitarPedal/C++_Implementation/simpleCA.cpp:45-47 | normalize maps min_val to new_min and max_val to new_max |
| `SimpleCA.NormalizeInRange` | BCI_GuitarPedal/C++_Implementation/simpleCA.cpp:45-47 | a value inside [min_val, max_val] lands inside [new_min, new_max] |
| `SimpleCA.NormalizeInverse` | BCI_GuitarPedal/C++_Implementation/simpleCA.cpp:45-47 | normalising back with the ranges swapped returns the original value |
| `SimpleCA.ComponentOf` | BCI_GuitarPedal/C++_Implementation/simpleCA.cpp:78-81 | one value per sample: entry i is data[i][a] - data[i][b] |
| `SimpleCA.LastGainAsWritten` | BCI_GuitarPedal/C++_Implementation/simpleCA.cpp:84-100 | when max != min, the truncated normalised last sample is in 0..255: 0 when it is the minimum, 255 when it is the maximum |
| `SimpleCA.LastGain` | BCI_GuitarPedal/C++_Implementation/simpleCA.cpp:84-100 | the guarded gain is in 0..255, and 0 for a constant component |
| `SimpleCA.CycleGainsOf` | BCI_GuitarPedal/C++_Implementation/simpleCA.cpp:56-100 | both pins of a pass are in 0..255 |
| `SimpleCA.ZeroBufferHasEmptyRange` | BCI_GuitarPedal/C++_Implementation/simpleCA.cpp:15 | for the all-zero initial buffer both components have min == max, so the source's normalize divides 0 by 0; the guarded pass writes 0 and 0 |
| `SimpleCA.ConstantRange` | BCI_GuitarPedal/C++_Implementation/simpleCA.cpp:84-93 | an all-zero component has min = max = 0 |
| `SimpleCA.CycleCentres` | BCI_GuitarPedal/C++_Implementation/simpleCA.cpp:58-100 | after the pass every channel sums to zero, and both pins are in 0..255 |
| `SimpleCA.ChannelMeans` | BCI_GuitarPedal/C++_Implementation/simpleCA.cpp:58-68 | the accumulate-then-divide loops compute the column means of the buffer |
| `SimpleCA.SubtractMeans` | BCI_GuitarPedal/C++_Implementation/simpleCA.cpp:70-74 | the in-place subtraction leaves exactly the centred buffer |
| `SimpleCA.Components` | BCI_GuitarPedal/C++_Implementation/simpleCA.cpp:78-81 | component_1 is channel 0 - channel 1 and component_2 is channel 2 - channel 3, sample by sample |
| `SimpleCA.Scan` | BCI_GuitarPedal/C++_Implementation/simpleCA.cpp:84-93 | the scan from sample 1 returns each component's minimum and maximum: attained, and bounding every sample |
| `SimpleCA.GainOf` | BCI_GuitarPedal/C++_Implementation/simpleCA.cpp:95-100 | the truncated normalised last sample, with the empty range guarded |
| `SimpleCA.SetRowOf` | BCI_GuitarPedal/C++_Implementation/simpleCA.cpp:35-37 | row r is replaced by the sample; every other entry is kept |
| `SimpleCA.WriteRow` | BCI_GuitarPedal/C++_Implementation/simpleCA.cpp:35-37 | the channel loop writes exactly that row into the buffer |
| `SimpleCA.SetRowKeepsOthers` | BCI_GuitarPedal/C++_Implementation/simpleCA.cpp:35-38 | the written row holds the sample; all other rows are unchanged |
| `SimpleCA.EegBuffer.constructor` | BCI_GuitarPedal/C++_Implementation/simpleCA.cpp:13-16 | the buffer starts 1000 x 4, all zero, with data_index 0 |
| `SimpleCA.EegBuffer.Receive` | BCI_GuitarPedal/C++_Implementation/simpleCA.cpp:33-41 | one step of the acquisition loop writes the sample at row data_index and advances data_index modulo 1000 |
| `SimpleCA.EegBuffer.PerformCycle` | BCI_GuitarPedal/C++_Implementation/simpleCA.cpp:56-103 | one pass leaves the buffer centred in place and returns the guarded pins of the buffer it started from |

## Left out

- Floating point: `float` is modelled as `real`, so rounding, NaN, infinities and float overflow are not modelled. In particular 0/0 noted under Findings is shown as an empty range, not as a NaN.
- `sqrt`, `tanh`, `atan2`, `cos`, `sin` and `fabs` of `<cmath>`: the first five are uninterpreted parameters (`CMath.CMath`), so no numeric property of the eigen-decomposition or of convergence (that V D V^T = A, that whitening gives unit covariance) is claimed; `fabs` is `CMath.Abs`.
- Division by zero in the source is excluded by preconditions: `columnMean`, `centerData`, `covariance`, `whitenData` and `fastICA` need at least one sample; `matDiv` a non-zero divisor; `meanVal`, `minVal` and `maxVal` a non-empty vector.
- `randomMatrix` (mainprocess_internal.cpp:28-37) draws from a random engine: the initial W of fastICA is the parameter `W0`, of shape num_components x n_features.
- `random(0, 2048)` of the acquisition task is the parameter `sample` of `SimpleCA.EegBuffer.Receive`.
- `printMatrix`, `std::cout`, `Serial`, `analogWrite` (the pins are the returned `Pins`), `delay`, `sleep_for` and the infinite `while (true)` loops: one pass of each loop body is modelled.
- WiFi set-up, FreeRTOS tasks, `setup`/`loop`/`main`, and the unsynchronised sharing of `eeg_data` between the two tasks: concurrency is not modelled; each task step is a separate method.
- Jacobi.JacobiOf: requires tol > 0; with tol <= 0 the source would rotate at its default pivot p = q = 0 when all off-diagonal entries are zero, which is not modelled.
- Ica.FastICAOf: a negative num_components, which the source would pass to a Matrix constructor, is excluded by the `nat` type.
- The 2-D arrays `eeg_data[1000][4]` of simpleCA.cpp are a flat row-major `array<real>` of 4000 cells, and `eeg_data_buffer[100][8]` of the ground unit is an `array2<real>`.
- Ica.FastICAOf: the result is specified by shape and failure condition and by the iteration function it unfolds to; which components a converged run finds is not characterised.
- Gains.CycleOf: the reading of `eeg_data_buffer` into the matrix and the demo sine fill are separate methods (`Gains.ToMatrix`, `Gains.FillDemo`); the pass itself starts from the matrix.
- The other files of the repository (the Eigen-based versions, the Python scripts and the other sketches) are not part of this model.

## Findings

| source | as written | input that shows it | evidently intended | confidence | as-written member | corrected member |
|---|---|---|---|---|---|---|
| BCI_GuitarPedal/Ground_Unit/C++_Implementation/mainprocess_internal.cpp:349 | `W_out = matMul(W_in, M_inv_sqrt)`, where M_inv_sqrt is k x k for a k x n W_in, so the product only exists when W_in is square | `fastICA(eeg_data, 2)` on the 100 x 8 window of ICAProcessingTask: the first iteration's decorrelation throws "matMul: dimension mismatch", so no pins are ever written | the symmetric decorrelation of FastICA, W <- (W W^T)^{-1/2} W, which is defined for every k x n W and keeps its shape | not executed | `Ica.SymmetricDecorrelationAsWritten` (shown by `Ica.AsWrittenRejectsTwoByEight`, `Ica.TwoComponentsOfEight` and `Gains.EightChannelTask`) | `Ica.SymmetricDecorrelation` (used by `Decorrelate(_, _, Corrected)`; `Gains.EightChannelTask` proves the corrected task writes two pins in 0..255) |
| BCI_GuitarPedal/C++_Implementation/simpleCA.cpp:95-96 | `normalize(component[999], min, max, 0, 255)` divides by `max - min` with no guard | the initial all-zero buffer (or any buffer whose channel differences are constant): min == max for both components, so the division is 0/0 and the `(int)` cast of the result is undefined | the guard the ground unit uses at mainprocess_internal.cpp:522-529: an empty range gives gain 0 | not executed | `SimpleCA.LastGainAsWritten` (its precondition max != min is what the source's division needs; `SimpleCA.ZeroBufferHasEmptyRange` shows the initial buffer violates it) | `SimpleCA.LastGain` (its contract proves it in 0..255; used by `SimpleCA.CycleGainsOf` and `SimpleCA.EegBuffer.PerformCycle`) |
