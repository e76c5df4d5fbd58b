/** The simplified board-side pipeline (simpleCA.cpp): a 1000 x 4 sample
    buffer filled as a ring by the acquisition task, and one pass of the
    processing task, which centres the buffer in place, forms the channel
    differences 0 - 1 and 2 - 3, scans them for their minimum and maximum and
    maps the last sample of each onto a PWM value. */
module SimpleCA {
  import opened CMath
  import opened Matrices
  import opened Statistics
  import opened Gains

  const NumChannels: nat := 4
  const NumSamples: nat := 1000

  // ---------------------------------------------------------------------------
  // normalize
  // ---------------------------------------------------------------------------

  /** Linear map of [minVal, maxVal] onto [newMin, newMax]. There is no guard:
      an empty range divides by zero. */
  function Normalize(value: real, minVal: real, maxVal: real, newMin: real, newMax: real): (r: real)
    requires maxVal != minVal
    ensures (r - newMin) * (maxVal - minVal) == (value - minVal) * (newMax - newMin)
  {
    var t := (value - minVal) / (maxVal - minVal);
    assert t * (maxVal - minVal) == value - minVal;
    assert t * (newMax - newMin) * (maxVal - minVal) == t * (maxVal - minVal) * (newMax - newMin);
    t * (newMax - newMin) + newMin
  }

  /** The ends of the old range go to the ends of the new one. */
  lemma NormalizeEndpoints(minVal: real, maxVal: real, newMin: real, newMax: real)
    requires maxVal != minVal
    ensures Normalize(minVal, minVal, maxVal, newMin, newMax) == newMin
    ensures Normalize(maxVal, minVal, maxVal, newMin, newMax) == newMax
  {
    assert (maxVal - minVal) / (maxVal - minVal) == 1.0;
  }

  /** A value inside the old range lands inside the new one. */
  lemma NormalizeInRange(value: real, minVal: real, maxVal: real, newMin: real, newMax: real)
    requires minVal < maxVal && minVal <= value <= maxVal && newMin <= newMax
    ensures newMin <= Normalize(value, minVal, maxVal, newMin, newMax) <= newMax
  {
    var t := (value - minVal) / (maxVal - minVal);
    DivideBounds(value - minVal, maxVal - minVal, 0.0, 1.0);
    FractionOf(t, newMax - newMin);
  }

  lemma FractionOf(t: real, w: real)
    requires 0.0 <= t <= 1.0 && w >= 0.0
    ensures 0.0 <= t * w <= w
  {
    assert (1.0 - t) * w >= 0.0;
  }

  /** Mapping back with the two ranges exchanged gives the value again. */
  lemma NormalizeInverse(value: real, minVal: real, maxVal: real, newMin: real, newMax: real)
    requires maxVal != minVal && newMax != newMin
    ensures Normalize(Normalize(value, minVal, maxVal, newMin, newMax), newMin, newMax, minVal, maxVal) == value
  {
    var t := (value - minVal) / (maxVal - minVal);
    var y := Normalize(value, minVal, maxVal, newMin, newMax);
    assert y - newMin == t * (newMax - newMin);
    assert (y - newMin) / (newMax - newMin) == t;
    assert t * (maxVal - minVal) == value - minVal;
  }

  // ---------------------------------------------------------------------------
  // What one pass of performICA computes
  // ---------------------------------------------------------------------------

  /** component[i] = data[i][a] - data[i][b] for every sample i. */
  function ComponentOf(M: Matrix, a: nat, b: nat): (comp: seq<real>)
    requires Valid(M) && a < M.cols && b < M.cols
    ensures |comp| == M.rows && forall i | 0 <= i < M.rows :: comp[i] == At(M, i, a) - At(M, i, b)
  {
    seq(M.rows, i requires 0 <= i < M.rows => At(M, i, a) - At(M, i, b))
  }

  /** The gain of a component from its last sample, as written: normalize with
      the scanned minimum and maximum onto [0, 255], then truncate. The last
      sample lies inside the scanned range, so the gain is a PWM value; a last
      sample at the minimum gives 0 and one at the maximum gives 255. */
  function LastGainAsWritten(comp: seq<real>): (g: int)
    requires |comp| > 0 && MaxOf(comp) != MinOf(comp)
    ensures 0 <= g <= 255
    ensures comp[|comp| - 1] == MinOf(comp) ==> g == 0
    ensures comp[|comp| - 1] == MaxOf(comp) ==> g == 255
  {
    var last := comp[|comp| - 1];
    MinOfIsMin(comp);
    MaxOfIsMax(comp);
    assert last in comp;
    NormalizeInRange(last, MinOf(comp), MaxOf(comp), 0.0, 255.0);
    NormalizeEndpoints(MinOf(comp), MaxOf(comp), 0.0, 255.0);
    TruncInByteRange(Normalize(last, MinOf(comp), MaxOf(comp), 0.0, 255.0));
    TruncToInt(Normalize(last, MinOf(comp), MaxOf(comp), 0.0, 255.0))
  }

  /** The gain with the empty range guarded the way the ground unit guards it:
      a constant component gives 0, and every gain is a PWM value. */
  function LastGain(comp: seq<real>): (g: int)
    requires |comp| > 0
    ensures 0 <= g <= 255
    ensures MaxOf(comp) == MinOf(comp) ==> g == 0
  {
    if MaxOf(comp) != MinOf(comp) then LastGainAsWritten(comp) else 0
  }

  /** The pins of one pass over the buffer contents M (1000 x 4): both are PWM
      values. */
  function CycleGainsOf(M: Matrix): (pins: Pins)
    requires HasShape(M, NumSamples, NumChannels)
    ensures 0 <= pins.gain1 <= 255 && 0 <= pins.gain2 <= 255
  {
    var C := CenterDataOf(M);
    Pins(LastGain(ComponentOf(C, 0, 1)), LastGain(ComponentOf(C, 2, 3)))
  }

  /** A column of zeros sums to zero. */
  lemma {:induction false} ZeroColSum(M: Matrix, c: nat, n: nat)
    requires Valid(M) && c < M.cols && n <= M.rows
    requires forall k | 0 <= k < |M.data| :: M.data[k] == 0.0
    ensures ColSum(M, c, n) == 0.0
  {
    if n > 0 {
      ZeroColSum(M, c, n - 1);
      FlatIndex(n - 1, c, M.rows, M.cols);
    }
  }

  /** The buffer as the program starts it, all zeros: both components are
      constant, so the as-written pass calls normalize with max_val == min_val;
      guarded, both pins are 0. */
  lemma ZeroBufferHasEmptyRange(M: Matrix)
    requires HasShape(M, NumSamples, NumChannels) && forall k | 0 <= k < |M.data| :: M.data[k] == 0.0
    ensures var c := ComponentOf(CenterDataOf(M), 0, 1); MinOf(c) == MaxOf(c)
    ensures var c := ComponentOf(CenterDataOf(M), 2, 3); MinOf(c) == MaxOf(c)
    ensures CycleGainsOf(M) == Pins(0, 0)
  {
    forall c: nat | c < M.cols
      ensures ColSum(M, c, M.rows) == 0.0
    {
      ZeroColSum(M, c, M.rows);
    }
    ZeroMeanCenterUnchanged(M);
    assert forall i: nat, j: nat | i < M.rows && j < M.cols :: At(M, i, j) == 0.0 by {
      forall i: nat, j: nat | i < M.rows && j < M.cols
        ensures At(M, i, j) == 0.0
      {
        FlatIndex(i, j, M.rows, M.cols);
      }
    }
    ConstantRange(ComponentOf(M, 0, 1));
    ConstantRange(ComponentOf(M, 2, 3));
  }

  lemma ConstantRange(c: seq<real>)
    requires |c| > 0 && forall k | 0 <= k < |c| :: c[k] == 0.0
    ensures MinOf(c) == MaxOf(c) == 0.0
  {
    MinOfIsMin(c);
    MaxOfIsMax(c);
  }

  // ---------------------------------------------------------------------------
  // The steps of performICA over the flat buffer
  // ---------------------------------------------------------------------------

  /** The buffer d read as the 1000 x 4 sample matrix. */
  function AsMatrix(d: seq<real>): Matrix {
    Matrix(NumSamples, NumChannels, d)
  }

  /** Step 1a: means[j] accumulated over the samples, row after row, then
      divided by the sample count. */
  method ChannelMeans(d: array<real>) returns (means: array<real>)
    requires d.Length == NumSamples * NumChannels
    ensures fresh(means) && means.Length == NumChannels
    ensures forall j | 0 <= j < NumChannels :: means[j] == At(ColumnMeanOf(AsMatrix(d[..])), 0, j)
  {
    ghost var M := AsMatrix(d[..]);
    means := new real[NumChannels](_ => 0.0);
    for i := 0 to NumSamples
      invariant forall k | 0 <= k < NumChannels :: means[k] == ColSum(M, k, i)
    {
      for j := 0 to NumChannels
        invariant forall k | 0 <= k < NumChannels :: means[k] == if k < j then ColSum(M, k, i + 1) else ColSum(M, k, i)
      {
        var x := Load(d, NumSamples, NumChannels, i, j, M);
        means[j] := means[j] + x;
      }
    }
    for j := 0 to NumChannels
      invariant forall k | 0 <= k < NumChannels ::
        means[k] == if k < j then ColSum(M, k, NumSamples) / (NumSamples as real) else ColSum(M, k, NumSamples)
    {
      means[j] := means[j] / (NumSamples as real);
    }
  }

  /** The entries before (r, c) in row-major order have had mu[j] subtracted;
      the rest still hold M0. */
  ghost predicate CenteredUpTo(M0: Matrix, M: Matrix, mu: seq<real>, r: nat, c: nat)
    requires Valid(M0) && |mu| == M0.cols
  {
    HasShape(M, M0.rows, M0.cols) &&
    forall i: nat, j: nat | i < M0.rows && j < M0.cols ::
      At(M, i, j) == if i < r || (i == r && j < c) then At(M0, i, j) - mu[j] else At(M0, i, j)
  }

  lemma CenteredStep(M0: Matrix, M: Matrix, mu: seq<real>, r: nat, c: nat)
    requires Valid(M0) && |mu| == M0.cols && r < M0.rows && c < M0.cols && CenteredUpTo(M0, M, mu, r, c)
    ensures At(M, r, c) == At(M0, r, c)
    ensures CenteredUpTo(M0, Update(M, r, c, At(M, r, c) - mu[c]), mu, r, c + 1)
  {
  }

  /** Step 1b: eeg_data[i][j] -= means[j], in place. */
  method SubtractMeans(d: array<real>, means: array<real>)
    requires d.Length == NumSamples * NumChannels && means.Length == NumChannels && d != means
    requires forall j | 0 <= j < NumChannels :: means[j] == At(ColumnMeanOf(AsMatrix(d[..])), 0, j)
    modifies d
    ensures AsMatrix(d[..]) == CenterDataOf(old(AsMatrix(d[..])))
  {
    ghost var M0 := AsMatrix(d[..]);
    ghost var mu := means[..];
    ghost var view := M0;
    for i := 0 to NumSamples
      invariant view == AsMatrix(d[..]) && CenteredUpTo(M0, view, mu, i, 0)
    {
      for j := 0 to NumChannels
        invariant view == AsMatrix(d[..]) && CenteredUpTo(M0, view, mu, i, j)
      {
        CenteredStep(M0, view, mu, i, j);
        var x := Load(d, NumSamples, NumChannels, i, j, view);
        view := Store(d, NumSamples, NumChannels, i, j, x - means[j], view);
      }
    }
    Ext(view, CenterDataOf(M0));
  }

  /** Step 2: component_1[i] = data[i][0] - data[i][1] and
      component_2[i] = data[i][2] - data[i][3]. */
  method Components(d: array<real>) returns (comp1: array<real>, comp2: array<real>)
    requires d.Length == NumSamples * NumChannels
    ensures fresh(comp1) && fresh(comp2)
    ensures comp1[..] == ComponentOf(AsMatrix(d[..]), 0, 1)
    ensures comp2[..] == ComponentOf(AsMatrix(d[..]), 2, 3)
  {
    ghost var M := AsMatrix(d[..]);
    comp1 := new real[NumSamples](_ => 0.0);
    comp2 := new real[NumSamples](_ => 0.0);
    for i := 0 to NumSamples
      invariant forall k | 0 <= k < i :: comp1[k] == At(M, k, 0) - At(M, k, 1)
      invariant forall k | 0 <= k < i :: comp2[k] == At(M, k, 2) - At(M, k, 3)
    {
      var x0 := Load(d, NumSamples, NumChannels, i, 0, M);
      var x1 := Load(d, NumSamples, NumChannels, i, 1, M);
      var x2 := Load(d, NumSamples, NumChannels, i, 2, M);
      var x3 := Load(d, NumSamples, NumChannels, i, 3, M);
      comp1[i] := x0 - x1;
      comp2[i] := x2 - x3;
    }
  }

  /** Step 3: one scan over samples 1 .. 999 updating both minima and maxima,
      each started from sample 0. */
  method Scan(comp1: array<real>, comp2: array<real>) returns (min1: real, max1: real, min2: real, max2: real)
    requires comp1.Length == NumSamples && comp2.Length == NumSamples
    ensures min1 == MinOf(comp1[..]) && max1 == MaxOf(comp1[..])
    ensures min2 == MinOf(comp2[..]) && max2 == MaxOf(comp2[..])
    ensures min1 in comp1[..] && max1 in comp1[..] && min2 in comp2[..] && max2 in comp2[..]
    ensures forall i | 0 <= i < NumSamples :: min1 <= comp1[i] <= max1 && min2 <= comp2[i] <= max2
  {
    ghost var c1, c2 := comp1[..], comp2[..];
    min1, max1 := comp1[0], comp1[0];
    min2, max2 := comp2[0], comp2[0];
    assert MinUpTo(c1, 0) == c1[0] && MaxUpTo(c1, 0) == c1[0];
    assert MinUpTo(c2, 0) == c2[0] && MaxUpTo(c2, 0) == c2[0];
    assert MinUpTo(c1, 1) == min1 && MaxUpTo(c1, 1) == max1;
    assert MinUpTo(c2, 1) == min2 && MaxUpTo(c2, 1) == max2;
    for i := 1 to NumSamples
      invariant min1 == MinUpTo(c1, i) && max1 == MaxUpTo(c1, i)
      invariant min2 == MinUpTo(c2, i) && max2 == MaxUpTo(c2, i)
    {
      if comp1[i] < min1 { min1 := comp1[i]; }
      if comp1[i] > max1 { max1 := comp1[i]; }
      if comp2[i] < min2 { min2 := comp2[i]; }
      if comp2[i] > max2 { max2 := comp2[i]; }
    }
    MinOfIsMin(c1);
    MaxOfIsMax(c1);
    MinOfIsMin(c2);
    MaxOfIsMax(c2);
    assert forall i | 0 <= i < NumSamples :: c1[i] in c1 && c2[i] in c2;
  }

  /** Step 3, end: the last sample of a component normalised with its scanned
      range, with the empty range guarded. */
  method GainOf(comp: array<real>, lo: real, hi: real) returns (gain: int)
    requires comp.Length > 0 && lo == MinOf(comp[..]) && hi == MaxOf(comp[..])
    ensures gain == LastGain(comp[..])
  {
    gain := 0;
    if hi != lo {
      gain := TruncToInt(Normalize(comp[comp.Length - 1], lo, hi, 0.0, 255.0));
    }
  }

  // ---------------------------------------------------------------------------
  // The shared sample buffer and its two tasks
  // ---------------------------------------------------------------------------

  /** rows r of M replaced by row, the others kept. */
  function SetRowOf(M: Matrix, r: nat, row: seq<real>): (N: Matrix)
    requires Valid(M) && r < M.rows && |row| == M.cols
    ensures HasShape(N, M.rows, M.cols)
    ensures forall i: nat, j: nat | i < M.rows && j < M.cols :: At(N, i, j) == if i == r then row[j] else At(M, i, j)
  {
    Tabulate(M.rows, M.cols, (i: nat, j: nat) requires i < M.rows && j < M.cols =>
      if i == r then row[j] else At(M, i, j))
  }

  /** eeg_data[r][i] = sample[i] for every channel i. */
  method WriteRow(d: array<real>, r: nat, sample: seq<real>)
    requires d.Length == NumSamples * NumChannels && r < NumSamples && |sample| == NumChannels
    modifies d
    ensures AsMatrix(d[..]) == SetRowOf(old(AsMatrix(d[..])), r, sample)
  {
    ghost var M0 := AsMatrix(d[..]);
    ghost var view := M0;
    for i := 0 to NumChannels
      invariant view == AsMatrix(d[..])
      invariant forall a: nat, c: nat | a < NumSamples && c < NumChannels ::
        At(view, a, c) == if a == r && c < i then sample[c] else At(M0, a, c)
    {
      view := Store(d, NumSamples, NumChannels, r, i, sample[i], view);
    }
    Ext(view, SetRowOf(M0, r, sample));
  }

  /** eeg_data (1000 x 4, row-major) and data_index. */
  class EegBuffer {
    var samples: array<real>
    var dataIndex: int

    ghost predicate Valid()
      reads this
    {
      samples.Length == NumSamples * NumChannels && 0 <= dataIndex < NumSamples
    }

    function Contents(): Matrix
      reads this, samples
    {
      AsMatrix(samples[..])
    }

    /** The globals as the program starts: all samples zero, index 0. */
    constructor ()
      ensures Valid() && fresh(samples) && dataIndex == 0
      ensures forall k | 0 <= k < samples.Length :: samples[k] == 0.0
    {
      samples := new real[NumSamples * NumChannels](_ => 0.0);
      dataIndex := 0;
    }

    /** One acquisition step of receiveEEGData: write the channel values of one
        sample into row data_index, then advance the index around the ring. */
    method Receive(sample: seq<real>)
      requires Valid() && |sample| == NumChannels
      modifies this, samples
      ensures Valid() && samples == old(samples)
      ensures dataIndex == (old(dataIndex) + 1) % NumSamples
      ensures Contents() == SetRowOf(old(Contents()), old(dataIndex), sample)
    {
      WriteRow(samples, dataIndex, sample);
      dataIndex := (dataIndex + 1) % NumSamples;
    }

    /** One pass of performICA's loop: the buffer is centred in place and the
        two pin values are returned. */
    method PerformCycle() returns (pins: Pins)
      requires Valid()
      modifies samples
      ensures Valid()
      ensures Contents() == CenterDataOf(old(Contents()))
      ensures pins == CycleGainsOf(old(Contents()))
    {
      var means := ChannelMeans(samples);
      SubtractMeans(samples, means);
      var comp1, comp2 := Components(samples);
      var min1, max1, min2, max2 := Scan(comp1, comp2);
      var gain1 := GainOf(comp1, min1, max1);
      var gain2 := GainOf(comp2, min2, max2);
      pins := Pins(gain1, gain2);
    }
  }

  /** After a pass every channel of the buffer sums to zero, and the pins are
      PWM values. */
  lemma CycleCentres(M: Matrix)
    requires HasShape(M, NumSamples, NumChannels)
    ensures forall c: nat | c < NumChannels :: ColSum(CenterDataOf(M), c, NumSamples) == 0.0
    ensures 0 <= CycleGainsOf(M).gain1 <= 255 && 0 <= CycleGainsOf(M).gain2 <= 255
  {
    CenteredColumnsSumToZero(M);
  }

  /** The ring step only touches row data_index. */
  lemma SetRowKeepsOthers(M: Matrix, r: nat, row: seq<real>)
    requires Valid(M) && r < M.rows && |row| == M.cols
    ensures RowOf(SetRowOf(M, r, row), r) == row
    ensures forall i: nat | i < M.rows && i != r :: RowOf(SetRowOf(M, r, row), i) == RowOf(M, i)
  {
    var N := SetRowOf(M, r, row);
    forall i: nat | i < M.rows
      ensures RowOf(N, i) == if i == r then row else RowOf(M, i)
    {
      assert forall j | 0 <= j < M.cols :: RowOf(N, i)[j] == (if i == r then row else RowOf(M, i))[j];
    }
  }
}
