/** The spectral filter's cutoff logic: `band_pass_signals` refuses a
    non-positive sampling rate, lists the frequencies of the real FFT's
    bins, and marks for zeroing every bin at or below `low` and every bin
    at or above `high`. The transforms themselves are not modelled. */
module BandPass {
  import opened Arrays

  /** Bin `k` of np.fft.rfftfreq(n, 1 / freq): numpy's k * (1 / (n * d))
      with sample spacing d = 1 / freq, which over the reals is k / (n * d),
      that is k * freq / n. */
  function BinFrequency(k: nat, n: nat, freq: real): (f: real)
    requires n > 0 && freq > 0.0
    ensures f == (k as real) * freq / (n as real)
  {
    var d := 1.0 / freq;
    assert d * freq == 1.0;
    assert ((k as real) * freq / (n as real)) * ((n as real) * d) == (k as real) * (freq * d);
    (k as real) / ((n as real) * d)
  }

  /** np.fft.rfftfreq(n, 1 / freq): the frequencies of bins 0 .. n // 2. */
  function RfftFreq(n: nat, freq: real): (f: seq<real>)
    requires n > 0 && freq > 0.0
    ensures |f| == n / 2 + 1
    ensures forall k :: 0 <= k < |f| ==> f[k] == (k as real) * freq / (n as real)
  {
    seq(n / 2 + 1, k requires 0 <= k < n / 2 + 1 => BinFrequency(k, n, freq))
  }

  /** `mask |= other`, element by element. */
  function OrMask(mask: seq<bool>, other: seq<bool>): (r: seq<bool>)
    requires |mask| == |other|
    ensures |r| == |mask|
    ensures forall k :: 0 <= k < |r| ==> (r[k] <==> mask[k] || other[k])
  {
    seq(|mask|, k requires 0 <= k < |mask| => mask[k] || other[k])
  }

  /** Whether bin `k` of an n-point transform lies outside the band. */
  predicate Rejected(k: nat, n: nat, freq: real, low: Option<real>, high: Option<real>)
    requires n > 0
  {
    var f := (k as real) * freq / (n as real);
    (low.Some? && f <= low.value) || (high.Some? && f >= high.value)
  }

  /** The guard and the mask of band_pass_signals for an axis of `n`
      samples: the rate is checked first, then the FFT needs a sample. */
  function BandPassMask(n: nat, freq: real, low: Option<real>, high: Option<real>): (r: Result<seq<bool>>)
    ensures freq <= 0.0 ==> r == Err(NonPositiveRate)
    ensures freq > 0.0 && n == 0 ==> r == Err(EmptyFFTAxis)
    ensures r.Ok? <==> freq > 0.0 && n > 0
    ensures r.Ok? ==> |r.value| == n / 2 + 1
    ensures r.Ok? ==> forall k :: 0 <= k < |r.value| ==> (r.value[k] <==> Rejected(k, n, freq, low, high))
  {
    if freq <= 0.0 then Err(NonPositiveRate)
    else if n == 0 then Err(EmptyFFTAxis)
    else
      var sigFreq := RfftFreq(n, freq);
      var mask := seq(|sigFreq|, _ => false);
      var mask := if low.Some? then OrMask(mask, seq(|sigFreq|, k requires 0 <= k < |sigFreq| => sigFreq[k] <= low.value)) else mask;
      var mask := if high.Some? then OrMask(mask, seq(|sigFreq|, k requires 0 <= k < |sigFreq| => sigFreq[k] >= high.value)) else mask;
      Ok(mask)
  }

  /** Without either cutoff nothing is zeroed: the filter is the identity. */
  lemma NoCutoffRejectsNothing(n: nat, freq: real)
    requires n > 0 && freq > 0.0
    ensures BandPassMask(n, freq, None, None).Ok?
    ensures forall k :: 0 <= k < n / 2 + 1 ==> !BandPassMask(n, freq, None, None).value[k]
  {
  }

  lemma BinFrequencyMonotone(j: nat, k: nat, n: nat, freq: real)
    requires n > 0 && freq > 0.0 && j <= k
    ensures (j as real) * freq / (n as real) <= (k as real) * freq / (n as real)
  {
    assert (j as real) * freq <= (k as real) * freq;
  }

  lemma BinFrequencyStrict(j: nat, k: nat, n: nat, freq: real)
    requires n > 0 && freq > 0.0 && j < k
    ensures (j as real) * freq / (n as real) < (k as real) * freq / (n as real)
  {
    assert (j as real) * freq < (k as real) * freq;
  }

  /** The bins run from 0 Hz up to at most the Nyquist frequency freq / 2,
      strictly rising, and reach it exactly when n is even. */
  lemma {:induction false} RfftFreqSpansZeroToNyquist(n: nat, freq: real)
    requires n > 0 && freq > 0.0
    ensures RfftFreq(n, freq)[0] == 0.0
    ensures forall j, k :: 0 <= j < k < n / 2 + 1 ==> RfftFreq(n, freq)[j] < RfftFreq(n, freq)[k]
    ensures RfftFreq(n, freq)[n / 2] <= freq / 2.0
    ensures RfftFreq(n, freq)[n / 2] == freq / 2.0 <==> n % 2 == 0
  {
    var f := RfftFreq(n, freq);
    forall j, k | 0 <= j < k < n / 2 + 1
      ensures f[j] < f[k]
    {
      BinFrequencyStrict(j, k, n, freq);
    }
    NyquistBin(n, n / 2, n % 2, freq);
  }

  /** With n == 2h + r, bin h lies r * freq / (2n) below freq / 2. */
  lemma NyquistBin(n: nat, h: nat, r: nat, freq: real)
    requires n > 0 && freq > 0.0 && r <= 1 && n == 2 * h + r
    ensures (h as real) * freq / (n as real) <= freq / 2.0
    ensures (h as real) * freq / (n as real) == freq / 2.0 <==> r == 0
  {
    var x := freq / (n as real);
    assert x > 0.0;
    assert (h as real) * freq / (n as real) == (h as real) * x;
    assert freq == (n as real) * x;
    assert freq / 2.0 == (h as real) * x + (r as real) * x / 2.0;
  }

  /** The kept bins form one contiguous band: a bin between two kept bins
      is kept too, since `low` cuts a prefix and `high` a suffix. */
  lemma {:induction false} KeptBinsContiguous(n: nat, freq: real, low: Option<real>, high: Option<real>, i: nat, j: nat, k: nat)
    requires n > 0 && freq > 0.0 && i <= j <= k <= n / 2
    requires !BandPassMask(n, freq, low, high).value[i] && !BandPassMask(n, freq, low, high).value[k]
    ensures !BandPassMask(n, freq, low, high).value[j]
  {
    BinFrequencyMonotone(i, j, n, freq);
    BinFrequencyMonotone(j, k, n, freq);
  }

  /** With only a low cutoff the rejected bins are exactly those at or
      below it, so they form a prefix of the bins; the first bin (0 Hz) is
      rejected by any low cutoff >= 0. */
  lemma {:induction false} LowCutoffRejectsPrefix(n: nat, freq: real, low: real, k: nat)
    requires n > 0 && freq > 0.0 && k <= n / 2
    ensures BandPassMask(n, freq, Some(low), None).value[k] <==> (k as real) * freq / (n as real) <= low
    ensures low >= 0.0 ==> BandPassMask(n, freq, Some(low), None).value[0]
    ensures forall j :: 0 <= j <= k && BandPassMask(n, freq, Some(low), None).value[k] ==>
              BandPassMask(n, freq, Some(low), None).value[j]
  {
    var mask := BandPassMask(n, freq, Some(low), None).value;
    forall j | 0 <= j <= k && mask[k]
      ensures mask[j]
    {
      BinFrequencyMonotone(j, k, n, freq);
    }
  }
}
