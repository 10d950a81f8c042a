/** The convolution engine: `convolve_signals` validates a kernel, pads
    every 1-D slice along the chosen axis by `len(kernel) // 2` samples on
    each side, convolves it with np.convolve's "same" mode and trims the
    padding off again. */
module Convolution {
  import opened Arrays

  /** Element type of the kernel after np.asarray: only numeric types pass
      (numpy does not count bool as a number). */
  datatype DType = Numeric | Boolean | NonNumeric

  /** np.asarray(kernel): its shape, its values in row-major order, its dtype. */
  datatype KernelArray = KernelArray(shape: seq<nat>, values: seq<real>, dtype: DType)

  /** Number of elements of an array of the given shape (1 for a 0-D array). */
  function Size(shape: seq<nat>): nat {
    if shape == [] then 1 else shape[0] * Size(shape[1..])
  }

  /** The kernel checks: a 0-D kernel is ravelled to one element; a kernel
      that is then not 1-D, or not numeric, is refused in that order. */
  function ValidateKernel(k: KernelArray): (r: Result<seq<real>>)
    requires |k.values| == Size(k.shape)
    ensures r.Ok? <==> |k.shape| <= 1 && k.dtype == Numeric
    ensures |k.shape| >= 2 ==> r == Err(KernelNotOneDimensional)
    ensures |k.shape| <= 1 && k.dtype != Numeric ==> r == Err(KernelNotNumeric)
    ensures r.Ok? ==> r.value == k.values
    ensures r.Ok? ==> |r.value| == if k.shape == [] then 1 else k.shape[0]
  {
    var flat := if |k.shape| == 0 then KernelArray([|k.values|], k.values, k.dtype) else k;
    if |flat.shape| != 1 then Err(KernelNotOneDimensional)
    else if flat.dtype != Numeric then Err(KernelNotNumeric)
    else
      assert |k.shape| == 1 ==> k.shape[1..] == [] && Size(k.shape[1..]) == 1;
      Ok(flat.values)
  }

  /** The np.pad modes modelled: "edge" repeats the end samples; "constant"
      (with its `constant_values` option) fills with one value. */
  datatype PadMode = Edge | Constant(fill: real)

  function Clamp(q: int, n: nat): (r: nat)
    requires n > 0
    ensures r < n
  {
    if q < 0 then 0 else if q >= n then n - 1 else q
  }

  /** The sample the padded slice holds `q` places after the start of the
      original slice (negative `q` lies in the left padding). */
  function Extended(x: seq<real>, mode: PadMode, q: int): real
    requires |x| > 0 || mode.Constant?
  {
    match mode
    case Edge => x[Clamp(q, |x|)]
    case Constant(c) => if 0 <= q < |x| then x[q] else c
  }

  /** np.pad(x, w, mode): `w` samples added on both sides. Edge mode cannot
      extend an empty slice. */
  function PadRow(x: seq<real>, w: nat, mode: PadMode): (r: Result<seq<real>>)
    ensures r.Err? <==> mode.Edge? && |x| == 0 && w > 0
    ensures r.Err? ==> r.error == EmptyPadAxis
    ensures r.Ok? ==> |r.value| == |x| + 2 * w
    ensures r.Ok? ==> forall m :: 0 <= m < |r.value| ==> r.value[m] == Extended(x, mode, m - w)
  {
    match mode
    case Edge =>
      if |x| == 0 then (if w > 0 then Err(EmptyPadAxis) else Ok(x))
      else Ok(seq(w, _ => x[0]) + x + seq(w, _ => x[|x| - 1]))
    case Constant(c) =>
      Ok(seq(w, _ => c) + x + seq(w, _ => c))
  }

  /** Term `k` of the full discrete convolution of `a` and `v`, summed over
      the first `hi` kernel taps: the sum of a[k - j] * v[j] for j < hi with
      k - j inside `a`. */
  function ConvSum(a: seq<real>, v: seq<real>, k: int, hi: nat): real
    requires hi <= |v|
  {
    if hi == 0 then 0.0
    else ConvSum(a, v, k, hi - 1) + (if 0 <= k - (hi - 1) < |a| then a[k - (hi - 1)] * v[hi - 1] else 0.0)
  }

  /** "same" mode once the longer operand comes first: the |a| central terms
      of the full convolution, starting at term (|v| - 1) - |v| / 2. */
  function SameOrdered(a: seq<real>, v: seq<real>): (r: Result<seq<real>>)
    requires |a| >= |v|
    ensures r.Err? <==> |v| == 0
    ensures r.Ok? ==> |r.value| == |a|
  {
    if |a| == 0 then Err(EmptyConvolutionOperand)
    else if |v| == 0 then Err(EmptyConvolutionOperand)
    else Ok(seq(|a|, i requires 0 <= i < |a| => ConvSum(a, v, i + (|v| - 1) - |v| / 2, |v|)))
  }

  /** np.convolve(a, v, "same"): the operands are swapped when `v` is the
      longer, and an empty operand is refused. */
  function ConvolveSame(a: seq<real>, v: seq<real>): (r: Result<seq<real>>)
    ensures r.Err? <==> |a| == 0 || |v| == 0
    ensures r.Err? ==> r.error == EmptyConvolutionOperand
    ensures r.Ok? ==> |r.value| == Max(|a|, |v|)
  {
    if |v| > |a| then SameOrdered(v, a) else SameOrdered(a, v)
  }

  /** When a slice of `n` samples can be convolved with a kernel of `kLen`
      taps: a non-empty kernel, a non-empty padded slice, and for edge
      padding a non-empty slice to repeat. */
  predicate RowConvolvable(n: nat, kLen: nat, mode: PadMode) {
    kLen >= 1 && n + 2 * (kLen / 2) >= 1 && (mode.Edge? ==> n >= 1)
  }

  /** Length of a convolved slice: the "same" output of the padded slice,
      less the padding on both ends. */
  function ConvolvedLength(n: nat, kLen: nat): int {
    Max(n + 2 * (kLen / 2), kLen) - 2 * (kLen / 2)
  }

  /** conv_func: pad by `len(kernel) // 2`, convolve in "same" mode, and cut
      the padding off both ends when there is any. */
  function ConvolveRow(x: seq<real>, kernel: seq<real>, mode: PadMode): (r: Result<seq<real>>)
    ensures r.Ok? <==> RowConvolvable(|x|, |kernel|, mode)
    ensures r.Ok? ==> |r.value| == ConvolvedLength(|x|, |kernel|)
  {
    var pad := |kernel| / 2;
    var xPad :- PadRow(x, pad, mode);
    var conv :- ConvolveSame(xPad, kernel);
    Ok(if pad > 0 then conv[pad .. |conv| - pad] else conv)
  }

  /** Reference definition of a convolved sample: the sum over the first
      `hi` taps j of the padded signal `(i + (K - 1) - K / 2) - j` places
      from the start, times kernel[j]. For an odd kernel of 2p + 1 taps the
      window is centred on sample i; for an even one of 2p taps it reaches
      p taps back and p - 1 forward. */
  function Reference(x: seq<real>, kernel: seq<real>, mode: PadMode, i: int, hi: nat): real
    requires hi <= |kernel| && (|x| > 0 || mode.Constant?)
  {
    if hi == 0 then 0.0
    else Reference(x, kernel, mode, i, hi - 1)
         + Extended(x, mode, i + (|kernel| - 1) - |kernel| / 2 - (hi - 1)) * kernel[hi - 1]
  }

  /** Every term of the full convolution the trimmed output keeps reads
      inside the padded slice, so it agrees with the reference sum. */
  lemma {:induction false} ConvSumMatchesReference(x: seq<real>, xPad: seq<real>, kernel: seq<real>, mode: PadMode, i: nat, hi: nat)
    requires |x| > 0 && hi <= |kernel| && i < |x|
    requires |xPad| == |x| + 2 * (|kernel| / 2)
    requires forall m :: 0 <= m < |xPad| ==> xPad[m] == Extended(x, mode, m - |kernel| / 2)
    ensures ConvSum(xPad, kernel, i + |kernel| - 1, hi) == Reference(x, kernel, mode, i, hi)
  {
    if hi > 0 {
      ConvSumMatchesReference(x, xPad, kernel, mode, i, hi - 1);
      var m := i + |kernel| - 1 - (hi - 1);
      assert 0 <= m < |xPad|;
    }
  }

  /** Each convolved sample of a non-empty slice equals the reference sum,
      and the slice keeps its length, whatever the kernel's parity. */
  lemma {:induction false} ConvolveRowMatchesReference(x: seq<real>, kernel: seq<real>, mode: PadMode, i: nat)
    requires |x| >= 1 && |kernel| >= 1 && i < |x|
    ensures ConvolveRow(x, kernel, mode).Ok?
    ensures |ConvolveRow(x, kernel, mode).value| == |x|
    ensures ConvolveRow(x, kernel, mode).value[i] == Reference(x, kernel, mode, i, |kernel|)
  {
    var pad := |kernel| / 2;
    var xPad := PadRow(x, pad, mode).value;
    assert |xPad| >= |kernel|;
    var conv := SameOrdered(xPad, kernel).value;
    assert ConvolveSame(xPad, kernel).value == conv;
    assert conv[i + pad] == ConvSum(xPad, kernel, i + |kernel| - 1, |kernel|);
    ConvSumMatchesReference(x, xPad, kernel, mode, i, |kernel|);
  }

  /** The kernel [1] leaves a non-empty slice unchanged under either mode. */
  lemma {:induction false} ConvolveRowUnitKernel(x: seq<real>, mode: PadMode)
    requires |x| >= 1
    ensures ConvolveRow(x, [1.0], mode) == Ok(x)
  {
    var out := ConvolveRow(x, [1.0], mode).value;
    forall i | 0 <= i < |x|
      ensures out[i] == x[i]
    {
      ConvolveRowMatchesReference(x, [1.0], mode, i);
    }
    assert out == x;
  }

  /** np.apply_along_axis(conv_func, axis=-1): each row convolved on its
      own; there must be at least one row to apply the function to. */
  function ApplyAlongRows(s: Array2, kernel: seq<real>, mode: PadMode): (r: Result<Array2>)
    requires s.WellShaped()
    ensures r.Ok? <==> |s.rows| > 0 && RowConvolvable(s.cols, |kernel|, mode)
    ensures |s.rows| == 0 ==> r == Err(NoIterationDimensions)
    ensures r.Ok? ==> r.value.WellShaped() && |r.value.rows| == |s.rows|
                      && r.value.cols == ConvolvedLength(s.cols, |kernel|)
    ensures r.Ok? ==> forall c :: 0 <= c < |s.rows| ==> ConvolveRow(s.rows[c], kernel, mode) == Ok(r.value.rows[c])
  {
    if |s.rows| == 0 then Err(NoIterationDimensions)
    else match ConvolveRow(s.rows[0], kernel, mode)
      case Err(e) => Err(e)
      case Ok(first) =>
        Ok(Array2(|first|, seq(|s.rows|, c requires 0 <= c < |s.rows| => ConvolveRow(s.rows[c], kernel, mode).value)))
  }

  /** convolve_signals on a channels × time array: kernel checks first, then
      the axis (the last, or the first by transposing there and back), then
      the per-slice convolution. */
  function ConvolveSignals(s: Array2, kernel: KernelArray, mode: PadMode, axis: int): (r: Result<Array2>)
    requires s.WellShaped() && |kernel.values| == Size(kernel.shape)
    ensures ValidateKernel(kernel).Err? ==> r == Err(ValidateKernel(kernel).error)
    ensures ValidateKernel(kernel).Ok? && !(-2 <= axis <= 1) ==> r == Err(AxisOutOfRange)
    ensures r.Ok? ==> r.value.WellShaped()
    ensures r.Ok? && (axis == -1 || axis == 1) ==>
              |r.value.rows| == |s.rows| && r.value.cols == ConvolvedLength(s.cols, |kernel.values|)
    ensures r.Ok? && (axis == 0 || axis == -2) ==>
              r.value.cols == s.cols && |r.value.rows| == ConvolvedLength(|s.rows|, |kernel.values|)
  {
    var k :- ValidateKernel(kernel);
    if axis == -1 || axis == 1 then
      ApplyAlongRows(s, k, mode)
    else if axis == 0 || axis == -2 then
      var t :- ApplyAlongRows(Transpose(s), k, mode);
      Ok(Transpose(t))
    else
      Err(AxisOutOfRange)
  }

  /** A valid, non-empty kernel maps a non-empty channels × time array to
      one of the same shape, along either axis and for any kernel parity,
      and each sample is the reference sum over its own slice: its row
      along the last axis, its column along the first. */
  lemma {:induction false} ConvolveSignalsPreservesShape(s: Array2, kernel: KernelArray, mode: PadMode, axis: int)
    requires s.WellShaped() && |kernel.values| == Size(kernel.shape)
    requires ValidateKernel(kernel).Ok? && |kernel.values| >= 1
    requires |s.rows| >= 1 && s.cols >= 1 && -2 <= axis <= 1
    ensures ConvolveSignals(s, kernel, mode, axis).Ok?
    ensures |ConvolveSignals(s, kernel, mode, axis).value.rows| == |s.rows|
    ensures ConvolveSignals(s, kernel, mode, axis).value.cols == s.cols
    ensures axis == -1 || axis == 1 ==>
              forall c, i :: 0 <= c < |s.rows| && 0 <= i < s.cols ==>
                ConvolveSignals(s, kernel, mode, axis).value.rows[c][i] == Reference(s.rows[c], kernel.values, mode, i, |kernel.values|)
    ensures axis == 0 || axis == -2 ==>
              forall i, c :: 0 <= i < |s.rows| && 0 <= c < s.cols ==>
                ConvolveSignals(s, kernel, mode, axis).value.rows[i][c] == Reference(Transpose(s).rows[c], kernel.values, mode, i, |kernel.values|)
  {
    var k := kernel.values;
    var p := |k| / 2;
    assert 2 * p >= |k| - 1;
    if axis == -1 || axis == 1 {
      var out := ConvolveSignals(s, kernel, mode, axis).value;
      forall c, i | 0 <= c < |s.rows| && 0 <= i < s.cols
        ensures out.rows[c][i] == Reference(s.rows[c], k, mode, i, |k|)
      {
        ConvolveRowMatchesReference(s.rows[c], k, mode, i);
      }
    } else {
      var ts := Transpose(s);
      var t := ApplyAlongRows(ts, k, mode).value;
      forall i, c | 0 <= i < |s.rows| && 0 <= c < s.cols
        ensures Transpose(t).rows[i][c] == Reference(ts.rows[c], k, mode, i, |k|)
      {
        ConvolveRowMatchesReference(ts.rows[c], k, mode, i);
      }
    }
  }

  /** The unit kernel, given as [1] or as the scalar 1, is the identity
      along either axis. */
  lemma {:induction false} ConvolveSignalsUnitKernel(s: Array2, kernel: KernelArray, mode: PadMode, axis: int)
    requires s.WellShaped() && |s.rows| >= 1 && s.cols >= 1 && -2 <= axis <= 1
    requires kernel == KernelArray([1], [1.0], Numeric) || kernel == KernelArray([], [1.0], Numeric)
    ensures ConvolveSignals(s, kernel, mode, axis) == Ok(s)
  {
    if axis == -1 || axis == 1 {
      var out := ApplyAlongRows(s, [1.0], mode).value;
      forall c | 0 <= c < |s.rows|
        ensures out.rows[c] == s.rows[c]
      {
        ConvolveRowUnitKernel(s.rows[c], mode);
      }
      assert out.rows == s.rows;
    } else {
      var ts := Transpose(s);
      var out := ApplyAlongRows(ts, [1.0], mode).value;
      forall j | 0 <= j < s.cols
        ensures out.rows[j] == ts.rows[j]
      {
        ConvolveRowUnitKernel(ts.rows[j], mode);
      }
      assert out.rows == ts.rows;
      TransposeTwice(s);
    }
  }
}
