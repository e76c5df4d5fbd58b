/** The gain stage of the ground unit's ICA processing task
    (mainprocess_internal.cpp, ICAProcessingTask): two components from
    fastICA, their minimum, maximum and mean, and the mean placed on the
    range [min, max] and scaled to a PWM value in [0, 255]. */
module Gains {
  import opened Wrappers
  import opened CMath
  import opened Matrices
  import opened Statistics
  import opened Ica

  // ---------------------------------------------------------------------------
  // getRow
  // ---------------------------------------------------------------------------

  /** Row r of M as a vector of M.cols values. */
  function RowOf(M: Matrix, r: nat): (row: seq<real>)
    requires Valid(M) && r < M.rows
    ensures |row| == M.cols && forall c | 0 <= c < M.cols :: row[c] == At(M, r, c)
  {
    seq(M.cols, c requires 0 <= c < M.cols => At(M, r, c))
  }

  method GetRow(M: Matrix, r: nat) returns (row: seq<real>)
    requires Valid(M) && r < M.rows
    ensures |row| == M.cols && forall c | 0 <= c < M.cols :: row[c] == At(M, r, c)
    ensures row == RowOf(M, r)
  {
    var vals := new real[M.cols](_ => 0.0);
    for c := 0 to M.cols
      invariant forall k | 0 <= k < c :: vals[k] == At(M, r, k)
    {
      vals[c] := At(M, r, c);
    }
    row := vals[..];
  }

  // ---------------------------------------------------------------------------
  // minVal, maxVal
  // ---------------------------------------------------------------------------

  /** The running minimum after visiting the first n values, starting from v[0]. */
  function MinUpTo(v: seq<real>, n: nat): real
    requires 0 < |v| && n <= |v|
  {
    if n == 0 then v[0]
    else
      var m := MinUpTo(v, n - 1);
      if v[n - 1] < m then v[n - 1] else m
  }

  function MaxUpTo(v: seq<real>, n: nat): real
    requires 0 < |v| && n <= |v|
  {
    if n == 0 then v[0]
    else
      var m := MaxUpTo(v, n - 1);
      if v[n - 1] > m then v[n - 1] else m
  }

  function MinOf(v: seq<real>): real
    requires |v| > 0
  {
    MinUpTo(v, |v|)
  }

  function MaxOf(v: seq<real>): real
    requires |v| > 0
  {
    MaxUpTo(v, |v|)
  }

  /** The running minimum is one of the values, and no value visited so far is
      below it. */
  lemma {:induction false} MinUpToIsMin(v: seq<real>, n: nat)
    requires 0 < |v| && n <= |v|
    ensures exists k | 0 <= k < |v| :: MinUpTo(v, n) == v[k]
    ensures forall k | 0 <= k < n :: MinUpTo(v, n) <= v[k]
    ensures MinUpTo(v, n) <= v[0]
  {
    if n == 0 {
      assert MinUpTo(v, n) == v[0];
    } else {
      MinUpToIsMin(v, n - 1);
      if v[n - 1] < MinUpTo(v, n - 1) {
        assert MinUpTo(v, n) == v[n - 1];
      } else {
        var k :| 0 <= k < |v| && MinUpTo(v, n - 1) == v[k];
        assert MinUpTo(v, n) == v[k];
      }
    }
  }

  lemma {:induction false} MaxUpToIsMax(v: seq<real>, n: nat)
    requires 0 < |v| && n <= |v|
    ensures exists k | 0 <= k < |v| :: MaxUpTo(v, n) == v[k]
    ensures forall k | 0 <= k < n :: v[k] <= MaxUpTo(v, n)
    ensures v[0] <= MaxUpTo(v, n)
  {
    if n == 0 {
      assert MaxUpTo(v, n) == v[0];
    } else {
      MaxUpToIsMax(v, n - 1);
      if v[n - 1] > MaxUpTo(v, n - 1) {
        assert MaxUpTo(v, n) == v[n - 1];
      } else {
        var k :| 0 <= k < |v| && MaxUpTo(v, n - 1) == v[k];
        assert MaxUpTo(v, n) == v[k];
      }
    }
  }

  /** minVal(v) is an element of v that no element is below. */
  lemma MinOfIsMin(v: seq<real>)
    requires |v| > 0
    ensures MinOf(v) in v && forall x | x in v :: MinOf(v) <= x
  {
    MinUpToIsMin(v, |v|);
  }

  /** maxVal(v) is an element of v that no element is above. */
  lemma MaxOfIsMax(v: seq<real>)
    requires |v| > 0
    ensures MaxOf(v) in v && forall x | x in v :: x <= MaxOf(v)
  {
    MaxUpToIsMax(v, |v|);
  }

  /** minVal: start from v[0] and keep any smaller value met. */
  method MinVal(v: seq<real>) returns (m: real)
    requires |v| > 0
    ensures m == MinOf(v)
    ensures m in v && forall x | x in v :: m <= x
  {
    m := v[0];
    for i := 0 to |v|
      invariant m == MinUpTo(v, i)
    {
      var x := v[i];
      if x < m {
        m := x;
      }
    }
    MinOfIsMin(v);
  }

  /** maxVal: start from v[0] and keep any larger value met. */
  method MaxVal(v: seq<real>) returns (m: real)
    requires |v| > 0
    ensures m == MaxOf(v)
    ensures m in v && forall x | x in v :: x <= m
  {
    m := v[0];
    for i := 0 to |v|
      invariant m == MaxUpTo(v, i)
    {
      var x := v[i];
      if x > m {
        m := x;
      }
    }
    MaxOfIsMax(v);
  }

  // ---------------------------------------------------------------------------
  // meanVal
  // ---------------------------------------------------------------------------

  /** The sum of the first n values, left to right. */
  function Sum(v: seq<real>, n: nat): real
    requires n <= |v|
  {
    if n == 0 then 0.0 else Sum(v, n - 1) + v[n - 1]
  }

  /** meanVal: the sum divided by the number of values. An empty vector divides
      by zero. */
  function MeanOf(v: seq<real>): real
    requires |v| > 0
  {
    Sum(v, |v|) / (|v| as real)
  }

  method MeanVal(v: seq<real>) returns (mean: real)
    requires |v| > 0
    ensures mean == MeanOf(v)
  {
    var s := 0.0;
    for i := 0 to |v|
      invariant s == Sum(v, i)
    {
      s := s + v[i];
    }
    mean := s / (|v| as real);
  }

  /** A lower bound on every value bounds the sum below by n copies of it. */
  lemma {:induction false} SumAtLeast(v: seq<real>, n: nat, lo: real)
    requires n <= |v| && forall k | 0 <= k < |v| :: lo <= v[k]
    ensures Repeat(lo, n) <= Sum(v, n)
  {
    if n > 0 {
      SumAtLeast(v, n - 1, lo);
    }
  }

  lemma {:induction false} SumAtMost(v: seq<real>, n: nat, hi: real)
    requires n <= |v| && forall k | 0 <= k < |v| :: v[k] <= hi
    ensures Sum(v, n) <= Repeat(hi, n)
  {
    if n > 0 {
      SumAtMost(v, n - 1, hi);
    }
  }

  /** s >= n * lo with n > 0 gives s / n >= lo, and likewise from above. */
  lemma DivideBounds(s: real, n: real, lo: real, hi: real)
    requires n > 0.0 && n * lo <= s <= n * hi
    ensures lo <= s / n <= hi
  {
    var q := s / n;
    assert q * n == s;
    assert (q - lo) * n >= 0.0;
    assert (hi - q) * n >= 0.0;
  }

  /** The mean lies between the minimum and the maximum. */
  lemma MeanBetween(v: seq<real>)
    requires |v| > 0
    ensures MinOf(v) <= MeanOf(v) <= MaxOf(v)
  {
    var lo, hi, n := MinOf(v), MaxOf(v), |v|;
    MinOfIsMin(v);
    MaxOfIsMax(v);
    assert forall k | 0 <= k < n :: lo <= v[k] <= hi by {
      forall k | 0 <= k < n ensures lo <= v[k] <= hi {
        assert v[k] in v;
      }
    }
    SumAtLeast(v, n, lo);
    SumAtMost(v, n, hi);
    RepeatIsProduct(lo, n);
    RepeatIsProduct(hi, n);
    assert (n as real) * lo <= Sum(v, n) <= (n as real) * hi;
    DivideBounds(Sum(v, n), n as real, lo, hi);
  }

  // ---------------------------------------------------------------------------
  // The gain of one component
  // ---------------------------------------------------------------------------

  /** (mean - min) / (max - min) * 255 when the range is not empty, else 0. */
  function Gain(mean: real, lo: real, hi: real): (g: real)
    ensures hi <= lo ==> g == 0.0
    ensures hi > lo ==> g * (hi - lo) == (mean - lo) * 255.0
  {
    if hi > lo then
      var t := (mean - lo) / (hi - lo);
      assert t * (hi - lo) == mean - lo;
      assert t * 255.0 * (hi - lo) == t * (hi - lo) * 255.0;
      t * 255.0
    else 0.0
  }

  /** A mean within [min, max] gives a gain in [0, 255]; an empty range gives 0. */
  lemma GainInRange(mean: real, lo: real, hi: real)
    requires lo <= mean <= hi
    ensures 0.0 <= Gain(mean, lo, hi) <= 255.0
    ensures hi <= lo ==> Gain(mean, lo, hi) == 0.0
  {
    if hi > lo {
      DivideBounds(mean - lo, hi - lo, 0.0, 1.0);
    }
  }

  /** The gain of row r of the components: the row mean lies between the row
      minimum and maximum, so the gain is in [0, 255], and a constant row
      gives 0. */
  function ComponentGain(S: Matrix, r: nat): (g: real)
    requires Valid(S) && r < S.rows && S.cols > 0
    ensures 0.0 <= g <= 255.0
    ensures MaxOf(RowOf(S, r)) == MinOf(RowOf(S, r)) ==> g == 0.0
  {
    var row := RowOf(S, r);
    MeanBetween(row);
    GainInRange(MeanOf(row), MinOf(row), MaxOf(row));
    Gain(MeanOf(row), MinOf(row), MaxOf(row))
  }

  // ---------------------------------------------------------------------------
  // One pass of the ICAProcessingTask loop: fastICA with two components, then the pins
  // ---------------------------------------------------------------------------

  /** The values written to GAIN_PIN_1 and GAIN_PIN_2. */
  datatype Pins = Pins(gain1: int, gain2: int)

  /** fastICA(eeg_data, 2) with the defaults max_iter = 1000 and tol = 1e-5 and
      the start W0, then the truncated gains of rows 0 and 1. */
  function CycleOf(eeg: Matrix, W0: Matrix, m: CMath, how: Decorrelation): (r: Result<Pins>)
    requires Valid(eeg) && eeg.rows > 0 && HasShape(W0, 2, eeg.cols)
    ensures r.Fail? ==> r.message == "matMul: dimension mismatch"
    ensures r.Ok? ==> 0 <= r.value.gain1 <= 255 && 0 <= r.value.gain2 <= 255
  {
    var S :- FastICAOf(eeg, 2, W0, 1000, 0.00001, m, how);
    TruncInByteRange(ComponentGain(S, 0));
    TruncInByteRange(ComponentGain(S, 1));
    Ok(Pins(TruncToInt(ComponentGain(S, 0)), TruncToInt(ComponentGain(S, 1))))
  }

  /** The pass fails exactly when the as-written decorrelation is used on
      anything but two channels. */
  lemma CycleOk(eeg: Matrix, W0: Matrix, m: CMath, how: Decorrelation)
    requires Valid(eeg) && eeg.rows > 0 && HasShape(W0, 2, eeg.cols)
    ensures CycleOf(eeg, W0, m, how).Ok? <==> how == Corrected || eeg.cols == 2
  {
    FastICAOk(eeg, 2, W0, 1000, 0.00001, m, how);
  }

  /** ICAProcessingTask's 100 x 8 buffer: as written every pass throws; corrected, both
      pins get a value in [0, 255]. */
  lemma EightChannelTask(eeg: Matrix, W0: Matrix, m: CMath)
    requires HasShape(eeg, 100, 8) && HasShape(W0, 2, 8)
    ensures CycleOf(eeg, W0, m, AsWritten) == Fail("matMul: dimension mismatch")
    ensures CycleOf(eeg, W0, m, Corrected).Ok?
    ensures var p := CycleOf(eeg, W0, m, Corrected).value;
      0 <= p.gain1 <= 255 && 0 <= p.gain2 <= 255
  {
    TwoComponentsOfEight(eeg, W0, m);
  }

  /** getRow, minVal, maxVal and meanVal on row r of the components, and the
      guarded normalisation of the mean. */
  method RowGain(S: Matrix, r: nat) returns (gain: real)
    requires Valid(S) && r < S.rows && S.cols > 0
    ensures gain == ComponentGain(S, r)
  {
    var comp := GetRow(S, r);
    var cMin := MinVal(comp);
    var cMax := MaxVal(comp);
    var cMean := MeanVal(comp);
    gain := 0.0;
    if cMax > cMin {
      gain := (cMean - cMin) / (cMax - cMin) * 255.0;
    }
  }

  method Cycle(eeg: Matrix, W0: Matrix, m: CMath, how: Decorrelation) returns (r: Result<Pins>)
    requires Valid(eeg) && eeg.rows > 0 && HasShape(W0, 2, eeg.cols)
    ensures r == CycleOf(eeg, W0, m, how)
  {
    var S := FastICA(eeg, 2, W0, 1000, 0.00001, m, how);
    if S.Fail? {
      return Fail(S.message);
    }
    var gain1 := RowGain(S.value, 0);
    var gain2 := RowGain(S.value, 1);
    r := Ok(Pins(TruncToInt(gain1), TruncToInt(gain2)));
  }

  // ---------------------------------------------------------------------------
  // The buffers of ICAProcessingTask
  // ---------------------------------------------------------------------------

  /** The argument of the demonstration signal at (i, j): 0.01 * i * (j + 1). */
  function DemoPhase(i: nat, j: nat): real {
    0.01 * (i as real) * ((j + 1) as real)
  }

  /** The demonstration signal: entry (i, j) is sin(0.01 * i * (j + 1)). */
  method FillDemo(buf: array2<real>, m: CMath)
    modifies buf
    ensures forall i, j | 0 <= i < buf.Length0 && 0 <= j < buf.Length1 :: buf[i, j] == m.sin(DemoPhase(i, j))
  {
    for i := 0 to buf.Length0
      invariant forall a, b | 0 <= a < i && 0 <= b < buf.Length1 :: buf[a, b] == m.sin(DemoPhase(a, b))
    {
      for j := 0 to buf.Length1
        invariant forall a, b | 0 <= a < i && 0 <= b < buf.Length1 :: buf[a, b] == m.sin(DemoPhase(a, b))
        invariant forall b | 0 <= b < j :: buf[i, b] == m.sin(DemoPhase(i, b))
      {
        buf[i, j] := m.sin(DemoPhase(i, j));
      }
    }
  }

  /** The copy of the sample buffer into a Matrix of the same shape. */
  method ToMatrix(buf: array2<real>) returns (M: Matrix)
    ensures HasShape(M, buf.Length0, buf.Length1)
    ensures forall i: nat, j: nat | i < buf.Length0 && j < buf.Length1 :: At(M, i, j) == buf[i, j]
  {
    var rows, cols := buf.Length0, buf.Length1;
    var d := new real[rows * cols](_ => 0.0);
    ghost var view := Matrix(rows, cols, d[..]);
    for i := 0 to rows
      invariant view == Matrix(rows, cols, d[..])
      invariant forall a: nat, b: nat | a < rows && b < cols :: At(view, a, b) == if a < i then buf[a, b] else 0.0
    {
      for j := 0 to cols
        invariant view == Matrix(rows, cols, d[..])
        invariant forall a: nat, b: nat | a < rows && b < cols ::
          At(view, a, b) == if a < i || (a == i && b < j) then buf[a, b] else 0.0
      {
        view := Store(d, rows, cols, i, j, buf[i, j], view);
      }
    }
    M := Matrix(rows, cols, d[..]);
  }
}
