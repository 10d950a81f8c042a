# ECG batch tools: a verified model of the numeric core

This project models the array transforms of `batch/ecg_batch_tools.py` in
Dafny and proves what they promise:

- the **windowing engine** (`segment_signals`, `random_segment_signals`),
  numba-compiled loops that allocate a window × channel × sample array and
  fill it one window at a time (module `Windowing`, imperative);
- the **resampler** (`resample_signals`), linear interpolation of every
  channel onto `new_length` evenly spaced positions (module `Resampling`);
- the **convolution engine** (`convolve_signals`): kernel checks, padding by
  `len(kernel) // 2`, numpy's "same" convolution, trimming, applied along
  either axis of a channels × time array (module `Convolution`);
- the **spectral filter's** guard and rejection mask (`band_pass_signals`;
  module `BandPass`);
- the **row labeller** (`get_pos_of_max`), a numba loop writing a 1 at each
  row's arg-max (module `RowLabels`, imperative);
- the **layer adapters** `merge_list_of_layers` and `convolve_layer`
  (module `Layers`).

Shared vocabulary lives in module `Arrays`: a 2-D array is the value
`Array2(cols, rows)`, where `cols` keeps the time length of an array
without rows. Every way a call can raise becomes one constructor of
`Arrays.Error`, returned in `Result`. Examples are a zero step, a
negative extent for `np.empty`, a bad kernel, a missing layer and an
out-of-bounds read. numba does not bounds-check its reads; the model
treats such a read as the error `IndexOutOfBounds` rather than reading
garbage. Floating point is abstracted to `real`.

The model follows the code as written; in particular:

- `segment_signals` accepts `length == 0` and allocates an empty batch
  when the window overshoots by at most one step. A zero step fails by
  division by zero.
- `random_segment_signals` accepts `n_segments == 0` for any non-negative
  length, even one longer than T.
- `resample_signals` succeeds on a one-sample signal resampled to one
  sample. It is not refused for `T < 2` as such.
- `resample_signals` clamps `x_right` only at the last position, not at
  every position. See Findings.

## Model

| member | source | states |
|---|---|---|
| Windowing.SegmentCountExact | batch/ecg_batch_tools.py:53-55 | when the window fits, the count `(T - length) // step + 1` is at least 1 and window i fits inside the signal exactly when i is below the count |
| Windowing.WindowsFit | batch/ecg_batch_tools.py:53-55 | every window the allocated count admits, `[i*step, i*step + length)`, lies inside the time axis |
| Windowing.CopyWindow | batch/ecg_batch_tools.py:55 | `res[i, :, :]` becomes the slice of every channel starting at `start`; every other window is unchanged |
| Windowing.SegmentSignals | batch/ecg_batch_tools.py:53-56 | a zero step divides by zero. Otherwise the call succeeds exactly when the length and the window count are non-negative, and else fails with a negative dimension. A window that fits gives at least one segment. The result is fresh, of shape (count, channels, length), and holds `signals[c][i*step + j]` at `[i, c, j]` |
| Windowing.RandomSegmentSignals | batch/ecg_batch_tools.py:77-81 | fails exactly for a negative count or length, or for a draw from an empty range when a segment is requested and the length exceeds T. Otherwise the result is fresh, of shape (n_segments, channels, length), and window i is the slice at the i-th drawn offset |
| Resampling.ResampleSignals | batch/ecg_batch_tools.py:100-107 | a negative length fails like np.empty; any other failure is an out-of-bounds read; success implies every read index is on the axis and gives shape (channels, new_length) |
| Resampling.IndicesInBounds | batch/ecg_batch_tools.py:100-104 | for T >= 2: positions lie in [0, T-1]; `x_left` is their floor; `x_left <= x_right <= T-1`; with two or more positions, `x_right == min(x_left + 1, T - 1)`; alpha lies in [0, 1) |
| Resampling.ResampleOkIff | batch/ecg_batch_tools.py:100-106 | the call succeeds if and only if new_length >= 1 and either T >= 2 or T == new_length == 1 |
| Resampling.UnclampedLastReadOverflows | batch/ecg_batch_tools.py:102-103 | for T >= 1 and at least two positions, the last position is exactly T - 1, so without the overwrite of `x_right[-1]` it would read sample T |
| Resampling.ResampleEndpoints | batch/ecg_batch_tools.py:100-107 | the first output column is the first input column; with two or more positions the last output column is the last input column |
| Resampling.SameLengthPositions | batch/ecg_batch_tools.py:100-104 | on a grid of the signal's own length, position i is exactly i, `x_left` is i and alpha is 0 |
| Resampling.ResampleIdentity | batch/ecg_batch_tools.py:100-107 | resampling a non-empty signal to its own length returns it unchanged |
| Resampling.SingleSampleStretchReadsPastEnd | batch/ecg_batch_tools.py:102-106 | a one-sample signal resampled to two samples reads `x_right == 1`, past the end of the axis |
| Resampling.ResampleClamped | batch/ecg_batch_tools.py:100-107 | with `x_right` clamped at every position, the call succeeds if and only if new_length >= 1 and T >= 1, with shape (channels, new_length) |
| Resampling.ResampleClampedSingleSample | batch/ecg_batch_tools.py:100-107 | the clamped resampler repeats the single sample of a one-sample signal at every output position |
| Resampling.ResampleClampedAgrees | batch/ecg_batch_tools.py:100-107 | wherever the source's resampler succeeds, the clamped one returns the same array |
| Convolution.ValidateKernel | batch/ecg_batch_tools.py:131-137 | a 0-D kernel becomes one element. The kernel is accepted if and only if it is then 1-D and numeric. A kernel that is not 1-D is refused first, then a non-numeric one. The accepted kernel keeps its values |
| Convolution.PadRow | batch/ecg_batch_tools.py:142 | edge padding of an empty slice by a positive width fails, and any other padding succeeds. The padded slice has `w` extra samples on each side, each the sample of the chosen mode |
| Convolution.SameOrdered | batch/ecg_batch_tools.py:143 | "same" mode with the longer operand first fails exactly on an empty kernel and keeps the longer operand's length |
| Convolution.ConvolveSame | batch/ecg_batch_tools.py:143 | np.convolve "same" fails exactly when an operand is empty; otherwise its length is the longer operand's |
| Convolution.ConvolveRow | batch/ecg_batch_tools.py:138-146 | conv_func succeeds exactly for a non-empty kernel, a non-empty padded slice and, in edge mode, a non-empty slice. Its output length is the "same" length less the trimmed padding |
| Convolution.ConvSumMatchesReference | batch/ecg_batch_tools.py:142-145 | each full-convolution term the trimmed output keeps reads inside the padded slice and equals the reference sum over the extended signal |
| Convolution.ConvolveRowMatchesReference | batch/ecg_batch_tools.py:138-146 | for a non-empty slice and kernel, the output has the slice's length and sample i is the reference sum, for odd and even kernels |
| Convolution.ConvolveRowUnitKernel | batch/ecg_batch_tools.py:138-146 | the kernel [1] leaves a non-empty slice unchanged in either pad mode |
| Convolution.ApplyAlongRows | batch/ecg_batch_tools.py:148 | apply_along_axis over rows fails without rows. Otherwise it succeeds exactly when one row can be convolved, and each output row is that row's conv_func |
| Convolution.ConvolveSignals | batch/ecg_batch_tools.py:131-149 | kernel errors come first, then an axis outside [-2, 1]. Along the last axis the channel count is kept and the time length is the convolved length; along the first axis the reverse holds |
| Convolution.ConvolveSignalsPreservesShape | batch/ecg_batch_tools.py:131-149 | a valid non-empty kernel on a non-empty array succeeds along either axis and keeps the array's shape. Each sample is the reference sum over its row (last axis) or its column (first axis) |
| Convolution.ConvolveSignalsUnitKernel | batch/ecg_batch_tools.py:131-149 | the unit kernel, as [1] or as the scalar 1, returns the array unchanged along either axis |
| BandPass.RfftFreqSpansZeroToNyquist | batch/ecg_batch_tools.py:176 | the bin frequencies start at 0 Hz, rise strictly with the bin index, and end at or below the Nyquist frequency freq / 2, reaching it exactly when n is even |
| BandPass.BandPassMask | batch/ecg_batch_tools.py:173-181 | a non-positive rate is refused first, then an empty axis. On success there are n // 2 + 1 bins, and a bin is masked iff its frequency is at or below `low` or at or above `high` |
| BandPass.NoCutoffRejectsNothing | batch/ecg_batch_tools.py:177-181 | with neither cutoff no bin is masked |
| BandPass.KeptBinsContiguous | batch/ecg_batch_tools.py:177-181 | a bin between two kept bins is kept: the passed bins form one band |
| BandPass.LowCutoffRejectsPrefix | batch/ecg_batch_tools.py:178-179 | with only `low`, a bin is masked iff its frequency is at or below `low`, so the masked bins are a prefix (a masked bin has every lower bin masked); a non-negative `low` masks the 0 Hz bin |
| RowLabels.ArgMax | batch/ecg_batch_tools.py:198 | argmax of a non-empty row is the first index holding the row's maximum |
| RowLabels.FirstMaxUnique | batch/ecg_batch_tools.py:198 | a row has only one first maximum, so the label position is determined |
| RowLabels.ArgMaxExamples | batch/ecg_batch_tools.py:198 | [1, 5, 2] peaks at 1, [9, 3, 3] at 0, and the tie in [3, 3, 1] goes to index 0 |
| RowLabels.GetPosOfMax | batch/ecg_batch_tools.py:196-199 | fails exactly when there are rows but no columns. Otherwise the result is fresh and of the input's shape. Each row holds 1 at its first maximum and 0 elsewhere |
| Layers.LookupAll | batch/ecg_batch_tools.py:249-254 | on success the list has one layer per name, in order, each the one its name selects. On failure some name fails and every name before it resolves |
| Layers.LookupAllExtends | batch/ecg_batch_tools.py:249-254 | appending a name that resolves appends its layer to the list |
| Layers.LookupAllStopsAtMissing | batch/ecg_batch_tools.py:250-253 | the first name that resolves to nothing makes the whole call fail with that name's KeyError |
| Layers.Concatenate | batch/ecg_batch_tools.py:255 | np.concatenate succeeds iff there is at least one layer and all share a time length; it fails with nothing to concatenate or with a shape mismatch. On success the rows are the layers' rows in order |
| Layers.ConcatShape | batch/ecg_batch_tools.py:255 | concatenating well-shaped layers of one time length gives a well-shaped array whose channel count is the sum of theirs |
| Layers.ConcatSliceRecoversLayer | batch/ecg_batch_tools.py:255 | slicing the concatenation at a layer's offset gives back that layer's rows |
| Layers.MergeListOfLayers | batch/ecg_batch_tools.py:248-256 | the loop's result equals looking up every name in order and concatenating. The merged array has a leading axis of extent 1 and the annotation mapping is returned unchanged |
| Layers.MergedLayout | batch/ecg_batch_tools.py:248-255 | the merged array is 1 × (total channels) × T, and each named layer's rows sit, unchanged, at the offset of the layers before it |
| Layers.ConvolveLayer | batch/ecg_batch_tools.py:232-237 | a missing layer raises KeyError. The call succeeds iff the layer has rows and samples and the kernel is non-empty. On success only the key `<layer>_conv` is added or replaced, and its row c is np.convolve "same" of row c squared |

## Left out

- `load_wfdb` (file I/O), `predict_hmm_classes` (external model call) and `get_gradient` (np.gradient) are not part of this model.
- `band_pass_signals`: the forward and inverse FFT and the zeroing at lines 175 and 182-185 are not modelled. The model covers the rate check, the bin frequencies and the mask only.
- `random_segment_signals`: `np.random.randint` is replaced by an injected sequence of offsets, which the caller promises lie in `[0, T - length]`.
- Windowing.SegmentSignals: `step` is a `nat`. A negative step (Python floor division, negative slice starts) is not modelled.
- All arrays are 2-D (channels × time). The axis-generic behaviour of `convolve_signals` is modelled for the two axes of such an array only.
- BandPass.BandPassMask: the mask is modelled from the length of the chosen axis only. There is no array and no axis argument, so the error `np.fft.rfft` raises for an axis the array does not have (line 175) is not modelled.
- Convolution.ConvolveSignals: only the "edge" and "constant" pad modes are modelled, and no other np.pad keyword options. Complex kernels are not modelled.
- The element type is `real`: rounding, NaN (and argmax's treatment of NaN), int32 overflow of `x_left` and dtype preservation are not modelled.
- Out-of-bounds reads, which numba leaves unchecked, are modelled as the error `IndexOutOfBounds` instead of undefined values.
- The layer adapters are modelled on values. `convolve_layer` returns the updated mapping rather than mutating the caller's dictionary in place. The pass-through `meta` and `index` are not modelled.

## Findings

| source | as written | input that shows it | evidently intended | confidence | as-written member | corrected member |
|---|---|---|---|---|---|---|
| batch/ecg_batch_tools.py:102-106 | `x_right = x_left + 1` is clamped only at the last position (`x_right[-1] = x_left[-1]`) | a signal of one sample (T == 1) with `new_length == 2`: position 0 reads `x_right == 1` on a one-sample axis | `x_right = min(x_left + 1, T - 1)` at every position, so a single sample is repeated | medium; not executed | Resampling.SingleSampleStretchReadsPastEnd | Resampling.ResampleClamped |
