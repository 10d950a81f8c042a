/** The resampler: `resample_signals` stretches or shrinks every channel
    of a signal to `newLength` samples by linear interpolation between the
    two original samples around each of `newLength` evenly spaced
    positions spanning [0, T - 1]. Floating point is abstracted to `real`. */
module Resampling {
  import opened Arrays

  /** `np.linspace(0, t - 1, n)[i]` as numba computes it:
      `start + delta * (i / div)` with `div == n - 1`, and `start` alone at i == 0. */
  function Position(i: nat, t: nat, n: nat): real
    requires i < n
  {
    if i == 0 then 0.0 else (t as real - 1.0) * ((i as real) / ((n - 1) as real))
  }

  /** `x_left`: the position cast to int32, which truncates toward zero
      (the floor for the non-negative positions of a non-empty signal). */
  function XLeft(i: nat, t: nat, n: nat): int
    requires i < n
  {
    var p := Position(i, t, n);
    if p >= 0.0 then p.Floor else -((-p).Floor)
  }

  /** `x_right`: one past `x_left`, except at the last position, where the
      source overwrites it with `x_left` itself. */
  function XRight(i: nat, t: nat, n: nat): int
    requires i < n
  {
    if i == n - 1 then XLeft(i, t, n) else XLeft(i, t, n) + 1
  }

  /** `alpha`: how far the position lies past `x_left`. */
  function Alpha(i: nat, t: nat, n: nat): real
    requires i < n
  {
    Position(i, t, n) - XLeft(i, t, n) as real
  }

  /** Every sample the source reads, at `x_left` and `x_right`, lies on the time axis. */
  predicate ReadsInBounds(t: nat, n: nat) {
    forall i :: 0 <= i < n ==> 0 <= XLeft(i, t, n) < t && 0 <= XRight(i, t, n) < t
  }

  /** One output sample: `y_left + (y_right - y_left) * alpha`. */
  function Interpolate(row: seq<real>, i: nat, n: nat): real
    requires i < n && ReadsInBounds(|row|, n)
  {
    var yl := row[XLeft(i, |row|, n)];
    var yr := row[XRight(i, |row|, n)];
    yl + (yr - yl) * Alpha(i, |row|, n)
  }

  /** resample_signals. A negative length makes linspace ask np.empty for a
      negative extent; otherwise the call fails exactly when some index it
      reads lies off the time axis (with no positions, `x_right[-1]` itself). */
  function ResampleSignals(s: Array2, newLength: int): (r: Result<Array2>)
    requires s.WellShaped()
    ensures newLength < 0 ==> r == Err(NegativeDimension)
    ensures r.Err? && newLength >= 0 ==> r.error == IndexOutOfBounds
    ensures r.Ok? ==> newLength > 0 && s.cols > 0 && ReadsInBounds(s.cols, newLength)
    ensures r.Ok? ==> r.value.WellShaped() && r.value.cols == newLength && |r.value.rows| == |s.rows|
  {
    if newLength < 0 then Err(NegativeDimension)
    else if newLength == 0 || !ReadsInBounds(s.cols, newLength) then Err(IndexOutOfBounds)
    else
      assert XLeft(0, s.cols, newLength) < s.cols;
      Ok(Array2(newLength, seq(|s.rows|, c requires 0 <= c < |s.rows| =>
                                  seq(newLength, i requires 0 <= i < newLength => Interpolate(s.rows[c], i, newLength)))))
  }

  lemma DivBelowOne(i: nat, d: nat)
    requires i < d
    ensures 0.0 <= (i as real) / (d as real) < 1.0
  {
  }

  lemma ScaleBelow(x: real, f: real)
    requires x > 0.0 && 0.0 <= f < 1.0
    ensures 0.0 <= x * f < x
  {
    assert x - x * f == x * (1.0 - f);
  }

  /** For a signal of at least two samples the positions run from 0 to
      T - 1, `x_left` is their floor, and the clamped `x_right` is
      `min(x_left + 1, T - 1)`: both indices stay on the axis. */
  lemma {:induction false} IndicesInBounds(t: nat, n: nat, i: nat)
    requires t >= 2 && i < n
    ensures 0.0 <= Position(i, t, n) <= t as real - 1.0
    ensures XLeft(i, t, n) == Position(i, t, n).Floor
    ensures 0 <= XLeft(i, t, n) <= XRight(i, t, n) <= t - 1
    ensures n >= 2 ==> XRight(i, t, n) == if XLeft(i, t, n) + 1 < t - 1 then XLeft(i, t, n) + 1 else t - 1
    ensures 0.0 <= Alpha(i, t, n) < 1.0
  {
    var p := Position(i, t, n);
    var span := t as real - 1.0;
    if i == n - 1 {
      if i > 0 {
        assert (i as real) / ((n - 1) as real) == 1.0;
      }
      assert p == span || i == 0;
    } else {
      DivBelowOne(i, n - 1);
      var frac := (i as real) / ((n - 1) as real);
      if i > 0 {
        assert p == span * frac;
        ScaleBelow(span, frac);
      } else {
        assert p == 0.0;
      }
      assert p < span;
      assert p.Floor as real <= p;
      assert p.Floor < t - 1;
    }
  }

  /** The call succeeds exactly for a positive new length and either a
      signal of at least two samples or a single sample resampled to one. */
  lemma {:induction false} ResampleOkIff(s: Array2, newLength: int)
    requires s.WellShaped()
    ensures ResampleSignals(s, newLength).Ok? <==>
              newLength >= 1 && (s.cols >= 2 || (s.cols == 1 && newLength == 1))
  {
    var t := s.cols;
    if newLength >= 1 {
      if t >= 2 {
        forall i | 0 <= i < newLength
          ensures 0 <= XLeft(i, t, newLength) < t && 0 <= XRight(i, t, newLength) < t
        {
          IndicesInBounds(t, newLength, i);
        }
      } else if t == 1 && newLength >= 2 {
        assert XRight(0, t, newLength) == 1;
      } else if t == 0 {
        assert XLeft(0, t, newLength) == 0;
      }
    }
  }

  /** Without the overwrite of the last `x_right`, the last position would
      read one sample past the end of the signal: the clamp is needed. */
  lemma UnclampedLastReadOverflows(t: nat, n: nat)
    requires t >= 1 && n >= 2
    ensures Position(n - 1, t, n) == t as real - 1.0
    ensures XLeft(n - 1, t, n) + 1 == t
  {
    assert (((n - 1) as real) / ((n - 1) as real)) == 1.0;
  }

  /** The source's `y_left + (y_right - y_left) * alpha` is the convex
      combination `(1 - alpha) * y_left + alpha * y_right` with alpha in [0, 1). */
  lemma {:induction false} InterpolateIsConvexCombination(row: seq<real>, i: nat, n: nat)
    requires |row| >= 2 && i < n
    ensures ReadsInBounds(|row|, n)
    ensures Interpolate(row, i, n) ==
              (1.0 - Alpha(i, |row|, n)) * row[XLeft(i, |row|, n)] + Alpha(i, |row|, n) * row[XRight(i, |row|, n)]
    ensures 0.0 <= Alpha(i, |row|, n) < 1.0
  {
    ResampleOkIff(Array2(|row|, [row]), n);
    IndicesInBounds(|row|, n, i);
  }

  /** The first output column is the first input column, and with at least
      two output positions the last output column is the last input column. */
  lemma {:induction false} ResampleEndpoints(s: Array2, newLength: nat, c: nat)
    requires s.WellShaped() && c < |s.rows|
    requires ResampleSignals(s, newLength).Ok?
    ensures ResampleSignals(s, newLength).value.rows[c][0] == s.rows[c][0]
    ensures newLength >= 2 ==> ResampleSignals(s, newLength).value.rows[c][newLength - 1] == s.rows[c][s.cols - 1]
  {
    var t := s.cols;
    ResampleOkIff(s, newLength);
    assert Position(0, t, newLength) == 0.0;
    assert XLeft(0, t, newLength) == 0;
    if newLength >= 2 {
      UnclampedLastReadOverflows(t, newLength);
      assert Alpha(newLength - 1, t, newLength) == 0.0;
    }
  }

  /** On a grid of the signal's own length every position is a sample index. */
  lemma {:induction false} SameLengthPositions(t: nat, i: nat)
    requires 1 <= t && i < t
    ensures Position(i, t, t) == i as real
    ensures XLeft(i, t, t) == i && Alpha(i, t, t) == 0.0
  {
    if i > 0 {
      assert ((i as real) / ((t - 1) as real)) * ((t - 1) as real) == i as real;
    }
  }

  /** Resampling to the signal's own length returns the signal unchanged:
      every position lands on a sample and every alpha is zero. */
  lemma {:induction false} ResampleIdentity(s: Array2)
    requires s.WellShaped() && s.cols >= 1
    ensures ResampleSignals(s, s.cols) == Ok(s)
  {
    var t := s.cols;
    ResampleOkIff(s, t);
    var out := ResampleSignals(s, t).value;
    forall c | 0 <= c < |s.rows|
      ensures out.rows[c] == s.rows[c]
    {
      forall i | 0 <= i < t
        ensures out.rows[c][i] == s.rows[c][i]
      {
        SameLengthPositions(t, i);
      }
    }
    assert out.rows == s.rows;
  }

  /** For any non-empty signal the positions lie in [0, T - 1], so `x_left` does. */
  lemma {:induction false} LeftInBounds(t: nat, n: nat, i: nat)
    requires t >= 1 && i < n
    ensures 0 <= XLeft(i, t, n) <= t - 1
  {
    if t >= 2 {
      IndicesInBounds(t, n, i);
    }
  }

  /** One output sample with `x_right` clamped to `min(x_left + 1, T - 1)`
      at every position rather than only at the last one. */
  function InterpolateClamped(row: seq<real>, i: nat, n: nat): real
    requires |row| >= 1 && i < n
  {
    LeftInBounds(|row|, n, i);
    var l := XLeft(i, |row|, n);
    var rgt := if l + 1 < |row| - 1 then l + 1 else |row| - 1;
    row[l] + (row[rgt] - row[l]) * Alpha(i, |row|, n)
  }

  /** The corrected resampler: the right index is clamped at every
      position, so a single-sample signal can be stretched to any length. */
  function ResampleClamped(s: Array2, newLength: int): (r: Result<Array2>)
    requires s.WellShaped()
    ensures r.Ok? <==> newLength >= 1 && s.cols >= 1
    ensures r.Ok? ==> r.value.WellShaped() && r.value.cols == newLength && |r.value.rows| == |s.rows|
  {
    if newLength < 0 then Err(NegativeDimension)
    else if newLength == 0 || s.cols == 0 then Err(IndexOutOfBounds)
    else Ok(Array2(newLength, seq(|s.rows|, c requires 0 <= c < |s.rows| =>
                                seq(newLength, i requires 0 <= i < newLength => InterpolateClamped(s.rows[c], i, newLength)))))
  }

  /** The single-sample case that ResampleSignals reads past: stretching
      one sample to two positions asks for sample 1 of a one-sample axis. */
  lemma SingleSampleStretchReadsPastEnd(x: real)
    ensures XRight(0, 1, 2) == 1
    ensures ResampleSignals(Array2(1, [[x]]), 2) == Err(IndexOutOfBounds)
  {
    ResampleOkIff(Array2(1, [[x]]), 2);
  }

  /** The clamped resampler repeats the single sample of a one-sample signal. */
  lemma {:induction false} ResampleClampedSingleSample(s: Array2, newLength: nat, c: nat, i: nat)
    requires s.WellShaped() && s.cols == 1 && c < |s.rows| && i < newLength
    ensures ResampleClamped(s, newLength).Ok?
    ensures ResampleClamped(s, newLength).value.rows[c][i] == s.rows[c][0]
  {
    LeftInBounds(1, newLength, i);
  }

  /** Wherever the source succeeds, the clamped resampler returns the same array. */
  lemma {:induction false} ResampleClampedAgrees(s: Array2, newLength: int)
    requires s.WellShaped() && ResampleSignals(s, newLength).Ok?
    ensures ResampleClamped(s, newLength) == ResampleSignals(s, newLength)
  {
    ResampleOkIff(s, newLength);
    var t := s.cols;
    var a := ResampleSignals(s, newLength).value;
    var b := ResampleClamped(s, newLength).value;
    forall c | 0 <= c < |s.rows|
      ensures a.rows[c] == b.rows[c]
    {
      forall i | 0 <= i < newLength
        ensures a.rows[c][i] == b.rows[c][i]
      {
        if t >= 2 {
          IndicesInBounds(t, newLength, i);
          if newLength == 1 {
            assert Alpha(i, t, newLength) == 0.0;
          }
        }
      }
    }
    assert a.rows == b.rows;
  }
}
