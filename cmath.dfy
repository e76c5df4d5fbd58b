/** The floating-point library functions the pipeline calls (`std::sqrt`,
    `std::tanh`, `std::atan2`, `std::cos`, `std::sin`). They are not modelled:
    every operation that needs one takes this record as a parameter, so the
    proofs hold for whatever values those functions return. */
module CMath {

  datatype CMath = CMath(
    sqrt: real -> real,
    tanh: real -> real,
    atan2: (real, real) -> real,
    cos: real -> real,
    sin: real -> real)

  /** `std::fabs`, which is exact. */
  function Abs(x: real): (r: real)
    ensures r >= 0.0 && (r == x || r == -x)
  {
    if x < 0.0 then -x else x
  }

  /** The conversion `(int)x` of a float: truncation toward zero. The result
      is the integer of largest magnitude not beyond x, on x's side of zero. */
  function TruncToInt(x: real): (i: int)
    ensures Abs(i as real) <= Abs(x) < Abs(i as real) + 1.0
    ensures (x >= 0.0 ==> i >= 0) && (x <= 0.0 ==> i <= 0)
  {
    if x >= 0.0 then x.Floor else -((-x).Floor)
  }

  /** A value in [0, 255] converts to an int in [0, 255]. */
  lemma TruncInByteRange(x: real)
    requires 0.0 <= x <= 255.0
    ensures 0 <= TruncToInt(x) <= 255
  {
  }
}
