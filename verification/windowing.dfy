/** The windowing engine: `segment_signals` cuts a channels × time signal
    into windows of a fixed length at a fixed stride, and
    `random_segment_signals` cuts windows at offsets drawn by a random
    source (here an injected sequence of offsets). Both allocate a 3-D
    result (window, channel, sample) and fill it one window at a time. */
module Windowing {
  import opened Arrays

  /** Number of windows `(T - length) // step + 1` that segment_signals
      allocates; Dafny's `/` is floor division for a positive divisor, as
      Python's `//` is. It is negative when the window overshoots the
      signal by more than one step. */
  function SegmentCount(t: nat, length: int, step: nat): int
    requires step > 0
  {
    (t - length) / step + 1
  }

  /** First sample of window `i`. */
  function WindowStart(i: nat, step: nat): nat {
    i * step
  }

  lemma MulMonotone(a: int, b: int, s: nat)
    requires a <= b
    ensures a * s <= b * s
  {
  }

  /** Window `i` fits in the signal exactly when `i` is below the window
      count: the count is the number of windows that fit, no more, no fewer. */
  lemma {:induction false} SegmentCountExact(t: nat, length: nat, step: nat, i: nat)
    requires step > 0 && length <= t
    ensures SegmentCount(t, length, step) >= 1
    ensures i < SegmentCount(t, length, step) <==> i * step + length <= t
  {
    var q, rem := (t - length) / step, (t - length) % step;
    assert t - length == q * step + rem && 0 <= rem < step;
    if i <= q {
      MulMonotone(i, q, step);
    } else {
      MulMonotone(q + 1, i, step);
    }
  }

  /** Every window the count admits lies inside the signal. */
  lemma WindowsFit(t: nat, length: nat, step: nat)
    requires step > 0
    ensures forall w :: 0 <= w < SegmentCount(t, length, step) ==> WindowStart(w, step) + length <= t
  {
    forall w | 0 <= w < SegmentCount(t, length, step)
      ensures WindowStart(w, step) + length <= t
    {
      SegmentCountExact(t, length, step, w);
    }
  }

  /** res[i, :, :] = signals[:, start : start + length] for the window
      extent `length == res.Length2`; every other window is left as it was. */
  method CopyWindow(res: array3<real>, i: nat, signals: Array2, start: nat)
    requires signals.WellShaped()
    requires i < res.Length0 && res.Length1 == |signals.rows|
    requires start + res.Length2 <= signals.cols
    modifies res
    ensures forall c, j :: 0 <= c < res.Length1 && 0 <= j < res.Length2 ==>
              res[i, c, j] == signals.rows[c][start + j]
    ensures forall w, c, j :: 0 <= w < res.Length0 && w != i && 0 <= c < res.Length1 && 0 <= j < res.Length2 ==>
              res[w, c, j] == old(res[w, c, j])
  {
    for c := 0 to res.Length1
      invariant forall c', j :: 0 <= c' < c && 0 <= j < res.Length2 ==>
                  res[i, c', j] == signals.rows[c'][start + j]
      invariant forall w, c', j :: 0 <= w < res.Length0 && w != i && 0 <= c' < res.Length1 && 0 <= j < res.Length2 ==>
                  res[w, c', j] == old(res[w, c', j])
    {
      for j := 0 to res.Length2
        invariant forall j' :: 0 <= j' < j ==> res[i, c, j'] == signals.rows[c][start + j']
        invariant forall c', j' :: 0 <= c' < c && 0 <= j' < res.Length2 ==>
                    res[i, c', j'] == signals.rows[c'][start + j']
        invariant forall w, c', j' :: 0 <= w < res.Length0 && w != i && 0 <= c' < res.Length1 && 0 <= j' < res.Length2 ==>
                    res[w, c', j'] == old(res[w, c', j'])
      {
        res[i, c, j] := signals.rows[c][start + j];
      }
    }
  }

  /** segment_signals: windows of `length` samples every `step` samples.
      A zero step divides by zero; a window longer than the signal by more
      than one step, or a negative length, asks np.empty for a negative
      extent; a window longer than the signal by at most one step gives an
      empty batch. */
  method SegmentSignals(signals: Array2, length: int, step: nat) returns (r: Result<array3<real>>)
    requires signals.WellShaped()
    ensures step == 0 ==> r == Err(ZeroDivision)
    ensures step > 0 ==> (r.Ok? <==> length >= 0 && SegmentCount(signals.cols, length, step) >= 0)
    ensures step > 0 && r.Err? ==> r.error == NegativeDimension
    ensures step > 0 && 0 <= length <= signals.cols ==> r.Ok? && r.value.Length0 >= 1
    ensures r.Ok? ==> fresh(r.value)
    ensures r.Ok? ==> step > 0 && r.value.Length0 == SegmentCount(signals.cols, length, step)
                      && r.value.Length1 == |signals.rows| && r.value.Length2 == length
    ensures r.Ok? ==> forall i, c, j :: 0 <= i < r.value.Length0 && 0 <= c < r.value.Length1 && 0 <= j < r.value.Length2 ==>
                        WindowStart(i, step) + j < signals.cols && r.value[i, c, j] == signals.rows[c][WindowStart(i, step) + j]
  {
    if step == 0 {
      return Err(ZeroDivision);
    }
    var n := SegmentCount(signals.cols, length, step);
    if n < 0 || length < 0 {
      return Err(NegativeDimension);
    }
    if length <= signals.cols {
      SegmentCountExact(signals.cols, length, step, 0);
    }
    WindowsFit(signals.cols, length, step);
    var res := new real[n, |signals.rows|, length];
    for i := 0 to n
      invariant forall w, c, j :: 0 <= w < i && 0 <= c < res.Length1 && 0 <= j < res.Length2 ==>
                  res[w, c, j] == signals.rows[c][WindowStart(w, step) + j]
    {
      CopyWindow(res, i, signals, WindowStart(i, step));
    }
    return Ok(res);
  }

  /** random_segment_signals with the draws of `np.random.randint(0, T - length + 1)`
      supplied as `offsets`, one per window. The draws only happen when
      the range is non-empty, which is when the random source promises an
      offset in [0, T - length]. */
  method RandomSegmentSignals(signals: Array2, length: int, nSegments: int, offsets: seq<int>)
    returns (r: Result<array3<real>>)
    requires signals.WellShaped()
    requires nSegments > 0 ==> |offsets| == nSegments
    requires length <= signals.cols ==> forall k :: 0 <= k < |offsets| ==> 0 <= offsets[k] <= signals.cols - length
    ensures r.Err? <==> nSegments < 0 || length < 0 || (nSegments > 0 && length > signals.cols)
    ensures nSegments < 0 || length < 0 ==> r == Err(NegativeDimension)
    ensures 0 < nSegments && 0 <= length && signals.cols < length ==> r == Err(EmptyRandomRange)
    ensures r.Ok? ==> fresh(r.value)
    ensures r.Ok? ==> r.value.Length0 == nSegments && r.value.Length1 == |signals.rows| && r.value.Length2 == length
    ensures r.Ok? ==> forall i, c, j :: 0 <= i < r.value.Length0 && 0 <= c < r.value.Length1 && 0 <= j < r.value.Length2 ==>
                        0 <= offsets[i] && offsets[i] + j < signals.cols && r.value[i, c, j] == signals.rows[c][offsets[i] + j]
  {
    if nSegments < 0 || length < 0 {
      return Err(NegativeDimension);
    }
    var res := new real[nSegments, |signals.rows|, length];
    for i := 0 to nSegments
      invariant i > 0 ==> length <= signals.cols
      invariant forall w, c, j :: 0 <= w < i && 0 <= c < res.Length1 && 0 <= j < res.Length2 ==>
                  0 <= offsets[w] && offsets[w] + j < signals.cols && res[w, c, j] == signals.rows[c][offsets[w] + j]
    {
      if signals.cols - length + 1 <= 0 {
        return Err(EmptyRandomRange);
      }
      var ix := offsets[i];
      CopyWindow(res, i, signals, ix);
    }
    return Ok(res);
  }
}
