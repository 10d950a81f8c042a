/** Shared vocabulary of the ECG batch tools: two-dimensional arrays of
    samples (channels × time), the exceptions the tools raise, and the
    Option/Result wrappers used for optional arguments and error paths. */
module Arrays {

  /** The exceptions the numeric tools raise, one constructor per cause. */
  datatype Error =
    | ZeroDivision                 // integer division by a zero step
    | NegativeDimension            // allocating an array with a negative extent
    | EmptyRandomRange             // randint(0, high) with high <= 0
    | IndexOutOfBounds             // reading outside an axis (IndexError; unchecked under numba)
    | KernelNotOneDimensional      // "Kernel must be 1-D array"
    | KernelNotNumeric             // "Kernel must have numeric dtype"
    | AxisOutOfRange               // an axis argument a 2-D array does not have
    | NoIterationDimensions        // apply_along_axis over an empty set of slices
    | EmptyPadAxis                 // np.pad "edge" asked to extend an empty axis
    | EmptyConvolutionOperand      // np.convolve with an empty operand
    | NonPositiveRate              // "Sampling rate must be a positive float"
    | EmptyFFTAxis                 // np.fft.rfft over an axis of length 0
    | EmptyArgMax                  // argmax of an empty row
    | MissingLayer(name: string)   // KeyError on the annotation mapping
    | NothingToConcatenate         // np.concatenate of an empty list
    | ShapeMismatch                // np.concatenate of arrays whose time lengths differ

  datatype Option<T> = None | Some(value: T)

  datatype Result<T> = Ok(value: T) | Err(error: Error) {
    predicate IsFailure() { Err? }

    function PropagateFailure<U>(): Result<U>
      requires Err?
    {
      Err(error)
    }

    function Extract(): T
      requires Ok?
    {
      value
    }
  }

  /** A two-dimensional numpy array: `rows` holds one sequence per index of
      axis 0 and `cols` is the extent of axis 1, kept apart so that an
      array without rows still has a time length. */
  datatype Array2 = Array2(cols: nat, rows: seq<seq<real>>) {
    predicate WellShaped() {
      forall c :: 0 <= c < |rows| ==> |rows[c]| == cols
    }
  }

  function Max(a: int, b: int): int {
    if a < b then b else a
  }

  /** The array with its two axes exchanged (numpy's `.T`). */
  function Transpose(a: Array2): (t: Array2)
    requires a.WellShaped()
    ensures t.WellShaped() && t.cols == |a.rows| && |t.rows| == a.cols
    ensures forall j, c :: 0 <= j < a.cols && 0 <= c < |a.rows| ==> t.rows[j][c] == a.rows[c][j]
  {
    Array2(|a.rows|, seq(a.cols, j requires 0 <= j < a.cols =>
      seq(|a.rows|, c requires 0 <= c < |a.rows| => a.rows[c][j])))
  }

  lemma TransposeTwice(a: Array2)
    requires a.WellShaped()
    ensures Transpose(Transpose(a)) == a
  {
    var tt := Transpose(Transpose(a));
    assert |tt.rows| == |a.rows|;
    forall c | 0 <= c < |a.rows|
      ensures tt.rows[c] == a.rows[c]
    {
      assert |tt.rows[c]| == a.cols;
    }
  }
}
