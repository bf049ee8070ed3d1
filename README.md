# earshot data pipeline, modelled in Dafny

This project models the data pipeline of `earshot/data.py`. It has four parts:

- the `Manifest` constructor, which walks a directory of `word_talker.wav` recordings and builds the table of
  (path, word, talker) rows;
- `pad`, which places a matrix in the top-left corner of a larger one filled with a sentinel;
- the `DataGenerator` Keras sequence, which serves the manifest in batches of spectrograms padded to the
  longest item in the batch, with the targets either tiled once per time step (`return_seq`) or given once per item;
- the framing step `AudioTools._enframe`, which cuts a signal into overlapping windows.

Modules:

- `Slicing` (`slicing.dfy`): Python's clamped slice `s[lo:hi]` for non-negative bounds.
- `Grid` (`grid.dfy`): integer matrices; `pad` on a 2-D array together with its value-level meaning `Padded`;
  `numpy.matlib.repmat`; the copy of a matrix into one slot of a 3-D array.
- `Batching` (`batching.dfy`): the `DataGenerator` class with `__len__`, `__getitem__` and
  `__data_generation`, and the predicate `IsBatchOf` that states what a finished batch holds.
- `Manifest` (`manifest.dfy`): the walk filter, POSIX `os.path.join`, Python `str.split`, the name parse and
  the manifest loop itself.
- `Framing` (`framing.dfy`): the frame count with Python's truncating `int(a / b)`, the frame slices, numpy's
  broadcasting of the window product, and the framing loop.

Modelling choices:

- numpy arrays are Dafny arrays of `int`: `array2` for matrices; `array3` for the batch buffer `X` and, in
  sequence mode, for `y`; `array2` for `y` otherwise.
  The ghost views `Cells`, `Slab` and `RowOf` read them back as sequences.
- `spectro_calc` is a function parameter `spectro: string -> Matrix`. Its one promise, 256 frequency columns,
  is a precondition (`IsSpectrogram`).
- The directory walk is a parameter: the sequence of `(dirpath, filenames)` that `os.walk` yields, in order.
- The Hamming product `frame * w` is an opaque `taper(k, x)`, standing for `x * w[k]`.
  numpy's broadcasting rules decide which `k` goes with which sample, and when the product is an error.
- Python exceptions become error values:
  - `max()` of an empty batch is `EmptyBatchError`;
  - a name that does not split into exactly two parts is `NotWordTalker(name, parts)`;
  - `/ 0` in `_enframe` is `ZeroSkip`;
  - a broadcasting failure is `ShapeMismatch`.

## Model

| member | source | states |
|---|---|---|
| Slicing.Slice | earshot/data.py:122 | A Python slice with non-negative bounds: its length is the clamped width, and element `k` is `s[lo + k]`. |
| Grid.Pad | earshot/data.py:17-27 | The result is a freshly allocated array of shape `ref_shape`, and its contents equal `Padded(data)`: the input's cell where it has one, the sentinel everywhere else. |
| Grid.PadKeepsBlock | earshot/data.py:17-27 | The top-left block of the padded matrix is the input, and every cell outside that block is the sentinel. Cropping the result back to the input's shape gives the input. |
| Grid.PadOwnShape | earshot/data.py:17-27 | Padding a matrix to its own shape is the identity. |
| Grid.PadTwice | earshot/data.py:17-27 | Padding to one shape and then to a larger one is the same as padding once to the larger shape. |
| Grid.PaddedRow | earshot/data.py:17-27 | Row `r` of a padded matrix is the input row followed by sentinels, or a row of sentinels below the input. |
| Grid.PadEach | earshot/data.py:142-143 | Each matrix is padded downwards into a fresh array of `M` rows and keeps its own width. Its contents are `Padded` of the input. |
| Grid.Repmat | earshot/data.py:148 | `repmat(v, n, 1)` is a fresh `n` by `len(v)` array whose rows are all `v`. |
| Grid.PaddedTiledRow | earshot/data.py:148-149 | A tiled target padded to `M` rows holds the target in its first `n` rows and sentinel rows after them. |
| Grid.CopySlab | earshot/data.py:151-152 | `X[i, ] = m` puts `m` into slot `i` and leaves every other slot unchanged. |
| Grid.CopyRow | earshot/data.py:158 | `y[i] = v` puts `v` into row `i` and leaves every other row unchanged. |
| Batching.SpectroCalc | earshot/data.py:30-36 | Returns the spectrogram of the path as a fresh array with `len` rows and 256 columns. |
| Batching.Max | earshot/data.py:140 | `max` of a non-empty sequence is an upper bound of every element and is one of them. |
| Batching.SpectroCalcEach | earshot/data.py:138 | Spectrogram `j` of the list is a fresh array holding `spectro_calc` of pair `j`'s path. |
| Batching.RepmatEach | earshot/data.py:148 | Target `i` is tiled once per time step of spectrogram `i`, into a fresh array. |
| Batching.PaddedTargets | earshot/data.py:148-149 | Target `j` tiled once per time step of spectrogram `j` and padded to `M` rows, as a fresh `M` by `L` array. |
| Batching.StackSlabs | earshot/data.py:144-152 | `X` and `y` are fresh arrays of shape `(batch_size, M, 256)` and `(batch_size, M, L)`. After the loop, slot `i` of `X` holds padded spectrogram `i` and slot `i` of `y` holds padded target `i`. |
| Batching.StackRows | earshot/data.py:144-158 | `X` and `y` are fresh arrays of shape `(batch_size, M, 256)` and `(batch_size, L)`. After the loop, slot `i` of `X` holds padded spectrogram `i` and row `i` of `y` is target `i`. |
| Batching.BatchContents | earshot/data.py:138-160 | For a finished batch: `M` bounds every spectrogram length and equals one of them. Row `r` of slot `i` of `X` is spectrogram row `r`, or pad values past that spectrogram's length. In sequence mode, row `r` of slot `i` of `y` is target `i` on exactly those rows and pad values after them. Otherwise `y[i]` is target `i`. |
| Batching.DataGenerator.constructor | earshot/data.py:101-113 | Keeps the paths and targets of the frame in order and the batch settings. `indexes` is `arange(len)`. |
| Batching.DataGenerator.NumBatches | earshot/data.py:115-117 | `__len__` is `floor(len / batch_size)`: the largest `n` with `n * batch_size <= len`. |
| Batching.DataGenerator.BatchPairs | earshot/data.py:122-127 | Batch `index` is the consecutive pairs from `index * batch_size`, at most `batch_size` of them, cut at the end of the data. |
| Batching.DataGenerator.WholeBatch | earshot/data.py:115-127 | Every index below `__len__` selects exactly `batch_size` pairs, all in bounds. Pair `j` is item `index * batch_size + j`. |
| Batching.DataGenerator.BatchOfItem | earshot/data.py:115-127 | Every item before `__len__ * batch_size` is pair `k % batch_size` of whole batch `k / batch_size`. |
| Batching.DataGenerator.ItemOfBatch | earshot/data.py:115-127 | Pair `j` of whole batch `index` is an item inside the served prefix, and it maps back to `(index, j)`. No item is served twice. |
| Batching.DataGenerator.GatherPairs | earshot/data.py:122-127 | The slice of `indexes` and the gathering loop give exactly `BatchPairs(index)`. |
| Batching.DataGenerator.GetItem | earshot/data.py:119-132 | The error case happens exactly when the batch starts at or past the end of the data. Otherwise `(X, y)` is the padded batch of `BatchPairs(index)`, held in freshly allocated arrays. |
| Batching.DataGenerator.DataGeneration | earshot/data.py:134-160 | The result is an error exactly for an empty list. Otherwise `X` and `y` satisfy `IsBatchOf`: `X` has shape `(batch_size, M, 256)` with `M` the longest spectrogram, and slot `i` is spectrogram `i` padded. `y` is per frame exactly when `return_seq` is set: shape `(batch_size, M, L)` with target `i` tiled and padded, or `(batch_size, L)` with `y[i]` equal to target `i`. Both arrays are freshly allocated. |
| Batching.DataGenerator.FramesBatch | earshot/data.py:146-152 | The `return_seq` branch yields a batch satisfying `IsBatchOf` with per-frame targets. |
| Batching.DataGenerator.ItemsBatch | earshot/data.py:153-158 | The other branch yields a batch satisfying `IsBatchOf` with one target row per item. |
| Batching.DivModUnique | earshot/data.py:117-122 | Quotient and remainder by the batch size are unique. Batch membership rests on this. |
| Manifest.AudioNames | earshot/data.py:51-54 | A name is kept exactly when it is in the directory listing and ends in `.wav` or `.WAV`. |
| Manifest.AudioNamesCount | earshot/data.py:51-54 | The filter keeps every audio name as often as it occurs in the listing and drops every other name. |
| Manifest.JoinPath | earshot/data.py:51 | `os.path.join(dir, file)` ends with `file`. |
| Manifest.Chunk | earshot/data.py:51-54 | One directory contributes its audio names, in order, each paired with that directory. |
| Manifest.Sources | earshot/data.py:50-54 | The (directory, name) pairs the walk contributes, directory by directory in walk order, each directory's audio names in listing order. Every name collected is an audio file; `SourcesOfWalk` proves that membership is exactly the walk's audio files. |
| Manifest.SourcesOfWalk | earshot/data.py:50-54 | A (directory, name) pair is collected exactly when the walk lists that name under that directory and the name is an audio file. |
| Manifest.Split | earshot/data.py:57 | `str.split('_')` gives one more piece than there are separators, and no piece contains one. |
| Manifest.SplitThenJoin | earshot/data.py:57 | Joining the pieces of a split with the separator gives the string back. |
| Manifest.JoinThenSplit | earshot/data.py:57 | Splitting a join of separator-free pieces gives the pieces back. |
| Manifest.ParseName | earshot/data.py:57 | `word, talker = name[:-4].split('_')`: on success neither part contains `_`; on failure the error names the file and a part count other than two. `ParseNameMeaning` proves both directions of when it succeeds. |
| Manifest.ParseNameMeaning | earshot/data.py:57 | A name parses exactly when `name[:-4]` holds one `_`. The word and the talker are the parts around it and contain no `_`. Otherwise the error records how many parts there were. |
| Manifest.NameRoundTrip | earshot/data.py:57 | `word_talker` plus a 4-character extension parses back to `(word, talker)`. |
| Manifest.CollectAudio | earshot/data.py:48-54 | `path_list` and `file_list` run in step over the collected sources: entry `i` is name `i` and its joined path. |
| Manifest.BuildManifest | earshot/data.py:44-58 | The manifest is built exactly when every collected name parses. It then has one row per audio file, in walk order, each row being (joined path, word, talker). Otherwise the error is the first name that fails to parse. |
| Framing.TruncDiv | earshot/data.py:185 | `int(a / b)` rounds toward zero: the quotient is bounded in both directions on each side of zero. |
| Framing.NumFrames | earshot/data.py:185-186 | If the signal is at least a window long, the frames that fit are cut and the next one would run past the end. A shorter signal gets one frame when it is less than `skip_len` short of the window, and none otherwise. |
| Framing.Taper | earshot/data.py:183-188 | The numpy product with the `window_len`-point window is defined exactly when the lengths agree or one of them is 1. It is element-wise, or stretches the length-1 operand. |
| Framing.Enframe | earshot/data.py:179-189 | Zero `skip_len` is the division error. Otherwise the result succeeds exactly when every frame can be tapered. It then has `NumFrames` frames, and frame `t` is the tapered slice `[t*skip, t*skip + window)`. A failure names the first frame that cannot be tapered. |
| Framing.FramesInBounds | earshot/data.py:185-188 | For a signal at least a window long, every frame's slice lies inside the signal. |
| Framing.FullWindows | earshot/data.py:185-188 | For a signal at least a window long, frame `t` is exactly `signal[t*skip : t*skip + window]`. It tapers without error, and its entry `k` is `taper(k, signal[t*skip + k])`. |
| Framing.ShortSignal | earshot/data.py:185-188 | The single frame of a shorter signal is the whole signal. It tapers only when the signal has one sample or the window has one point, so any other short signal, the empty one included, ends in numpy's broadcasting error. |

## Left out

- Audio loading and trimming with librosa, `spectrogram`, `_stft`, `_stft2level` and `sgram` involve floating
  point and FFTs. `spectro_calc` is an opaque function parameter.
- `generate_srvs` (random sparse targets), `calc_spec` (a loop over `spectro_calc`), `plot_spec` and the
  pandas summaries and prints of `Manifest` are randomness, plotting and output. `train.py` is not part of this model.
- All array entries are integers. The `float32` casts and the Hamming weights are not modelled. The window
  product appears only through the opaque `taper`.
- Batching.DataGenerator.NumBatches: the value is exact floor division. The source divides in floating point
  first, which can differ only for counts beyond 2^53.
- Framing.TruncDiv: the value is exact truncating division. The source truncates a float quotient, which can
  differ only for huge signals.
- Batching.DataGenerator.GetItem: `index` is a natural number. Python's negative indexing of the `indexes`
  slice is not modelled.
- Framing.Enframe: `skip_len` and `window_len` are natural numbers. Negative values, which would trigger
  Python's negative slicing and `np.hamming`'s empty window, are not modelled.
- Batching.DataGenerator.constructor: it requires a positive batch size, and `batchSize` is a natural
  number, so negative batch sizes are not modelled either. With a batch size of zero, `__len__` raises a
  division error, and `__getitem__` slices an empty batch, on which `max` in `__data_generation` raises
  `ValueError`.
- Batching.DataGenerator.constructor: it requires that all targets have one length, because on ragged
  targets the source's constructor raises `ValueError` in `np.array(...).astype(np.float32)` (data.py:110).
  Newer numpy raises it in `np.array`; older numpy builds an object array and `.astype` raises it. The raising
  path is not modelled as an error value.
- Batching.DataGenerator.DataGeneration: slots of `X` and `y` past the number of pairs are left unspecified,
  as `np.empty` leaves them. Only a final short batch, which `__len__` excludes, has such slots.
- Grid.Pad: it requires the input to fit inside `ref_shape`. When it does not, the numpy assignment
  generally fails with a broadcasting error. Every call in `__data_generation` fits,
  since `M` is the largest row count.
- Batching.SpectroCalc: the 256-column shape of `spectro_calc`'s result is a precondition on the opaque
  `spectro` rather than something derived.
- Manifest.BuildManifest: the walk is given as its sequence of directories. The order `os.walk` visits them
  in, symbolic links and I/O errors are outside the model. So is the `DataFrame` wrapping of the rows.
