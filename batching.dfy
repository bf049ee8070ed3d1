/** `DataGenerator` (earshot/data.py:98-160): serves the manifest in
    batches of `batchSize` utterances, each batch padded to its own longest
    spectrogram. */
module Batching {
  import opened Slicing
  import opened Grid

  /** The number of frequency bins `spectro_calc` produces (`dimension=256`). */
  const Dimension: nat := 256

  /** What `spectro_calc` promises of its result: a time-by-frequency
      matrix with `Dimension` entries in every row. */
  predicate IsSpectrogram(m: Matrix)
  {
    IsShape(m, |m|, Dimension)
  }

  /** `spectro_calc(path)`: the audio maths is the opaque `spectro`; the
      method returns its value as a fresh 2-D array. */
  method SpectroCalc(spectro: string -> Matrix, path: string) returns (s: array2<int>)
    requires IsSpectrogram(spectro(path))
    ensures fresh(s)
    ensures s.Length0 == |spectro(path)| && s.Length1 == Dimension
    ensures Cells(s) == spectro(path)
  {
    var m := spectro(path);
    s := new int[|m|, Dimension]((r, c) requires 0 <= r < |m| && 0 <= c < Dimension => m[r][c]);
    SameEntries(Cells(s), m, |m|, Dimension);
  }

  /** Python's `max` of a non-empty sequence: an upper bound that is one of
      the elements. */
  function Max(xs: seq<nat>): (m: nat)
    requires xs != []
    ensures forall i :: 0 <= i < |xs| ==> xs[i] <= m
    ensures exists i :: 0 <= i < |xs| && xs[i] == m
  {
    if |xs| == 1 then xs[0]
    else
      var rest := Max(xs[1..]);
      assert forall i :: 1 <= i < |xs| ==> xs[i] == xs[1..][i - 1];
      if xs[0] >= rest then xs[0] else rest
  }

  /** One entry of `list_pairs_temp`: a path and its target vector. */
  type Pair = (string, seq<int>)

  /** The time lengths of the spectrograms of a batch. */
  function RowCounts(pairs: seq<Pair>, spectro: string -> Matrix): (counts: seq<nat>)
    ensures |counts| == |pairs|
    ensures forall i :: 0 <= i < |pairs| ==> counts[i] == |spectro(pairs[i].0)|
  {
    seq(|pairs|, i requires 0 <= i < |pairs| => |spectro(pairs[i].0)|)
  }

  /** The target array `y`: one row of targets per time step and item when
      `return_seq` is set, one target per item otherwise. */
  datatype Labels = PerFrame(frames: array3<int>) | PerItem(items: array2<int>)
  {
    function Footprint(): set<object>
    {
      match this
      case PerFrame(a) => {a}
      case PerItem(a) => {a}
    }
  }

  /** What `__data_generation` gives back: the pair `(X, y)`, or the
      `ValueError` that `max` raises on a batch with no items. */
  datatype BatchResult = Batch(X: array3<int>, y: Labels) | EmptyBatchError

  /** `X` and `y` are the padded batch built from `pairs`: `X` holds
      `batchSize` slots of (longest spectrogram) by `Dimension`, slot `i`
      being spectrogram `i` padded downwards; `y` holds target `i` either
      tiled once per real time step and padded, or as it is. Slots past
      `|pairs|` are left as `numpy.empty` leaves them, unspecified. */
  ghost predicate IsBatchOf(X: array3<int>, y: Labels, pairs: seq<Pair>, spectro: string -> Matrix,
                            batchSize: nat, padValue: int, returnSeq: bool)
    requires pairs != []
    reads X, y.Footprint()
  {
    var M := Max(RowCounts(pairs, spectro));
    var L := |pairs[0].1|;
    && |pairs| <= batchSize
    && X.Length0 == batchSize && X.Length1 == M && X.Length2 == Dimension
    && (forall i :: 0 <= i < |pairs| ==> Slab(X, i) == Padded(spectro(pairs[i].0), M, Dimension, padValue))
    && y.PerFrame? == returnSeq
    && (y.PerFrame? ==>
          && y.frames.Length0 == batchSize && y.frames.Length1 == M && y.frames.Length2 == L
          && forall i :: 0 <= i < |pairs| ==>
               Slab(y.frames, i) == Padded(Tiled(pairs[i].1, |spectro(pairs[i].0)|), M, L, padValue))
    && (y.PerItem? ==>
          && y.items.Length0 == batchSize && y.items.Length1 == L
          && forall i :: 0 <= i < |pairs| ==> RowOf(y.items, i) == pairs[i].1)
  }

  /** Every spectrogram of a batch is padded to the same time length, the
      batch's longest; slot `i` of `X` holds spectrogram `i` in its first
      rows and sentinel rows after them, and in sequence mode slot `i` of
      `y` holds target `i` on exactly those first rows. */
  lemma BatchContents(X: array3<int>, y: Labels, pairs: seq<Pair>, spectro: string -> Matrix,
                      batchSize: nat, padValue: int, returnSeq: bool, i: nat, r: nat)
    requires pairs != [] && IsBatchOf(X, y, pairs, spectro, batchSize, padValue, returnSeq)
    requires forall j :: 0 <= j < |pairs| ==> IsSpectrogram(spectro(pairs[j].0))
    requires forall j :: 0 <= j < |pairs| ==> |pairs[j].1| == |pairs[0].1|
    requires i < |pairs| && r < X.Length1
    ensures forall j :: 0 <= j < |pairs| ==> |spectro(pairs[j].0)| <= X.Length1
    ensures exists j :: 0 <= j < |pairs| && |spectro(pairs[j].0)| == X.Length1
    ensures Slab(X, i)[r] == if r < |spectro(pairs[i].0)| then spectro(pairs[i].0)[r] else Fill(Dimension, padValue)
    ensures y.PerFrame? ==>
              Slab(y.frames, i)[r] == if r < |spectro(pairs[i].0)| then pairs[i].1 else Fill(|pairs[i].1|, padValue)
    ensures y.PerItem? ==> RowOf(y.items, i) == pairs[i].1
  {
    var counts := RowCounts(pairs, spectro);
    var M := Max(counts);
    assert counts[i] <= M;
    var j :| 0 <= j < |counts| && counts[j] == M;
    PaddedRow(spectro(pairs[i].0), Dimension, M, Dimension, padValue, r);
    assert Fill(0, padValue) == [];
    if r < |spectro(pairs[i].0)| {
      assert spectro(pairs[i].0)[r] + [] == spectro(pairs[i].0)[r];
    }
    if y.PerFrame? {
      PaddedTiledRow(pairs[i].1, |spectro(pairs[i].0)|, M, padValue, r);
    }
  }

  /** Two columns of the manifest frame the generator is built from. */
  datatype Row = Row(path: string, target: seq<int>)

  class DataGenerator {
    const pathList: seq<string>
    const targets: seq<seq<int>>
    const indexes: seq<nat>
    const batchSize: nat
    const padValue: int
    const returnSeq: bool

    /** The generator's fixed state: one target per path, `indexes` is
        `numpy.arange`, a positive batch size, and one target length. */
    ghost predicate Valid()
    {
      && batchSize > 0
      && |targets| == |pathList| && |indexes| == |pathList|
      && (forall k :: 0 <= k < |indexes| ==> indexes[k] == k)
      && (forall k :: 0 <= k < |targets| ==> |targets[k]| == |targets[0]|)
    }

    /** `DataGenerator(df, batch_size, pad_value, return_seq)`; the source's
        defaults are `batch_size = 32`, `pad_value = -9999` and
        `return_seq = True`. */
    constructor (df: seq<Row>, batchSize: nat, padValue: int, returnSeq: bool)
      requires batchSize > 0
      requires forall k :: 0 <= k < |df| ==> |df[k].target| == |df[0].target|
      ensures Valid()
      ensures |pathList| == |df| && forall k :: 0 <= k < |df| ==> pathList[k] == df[k].path && targets[k] == df[k].target
      ensures this.batchSize == batchSize && this.padValue == padValue && this.returnSeq == returnSeq
    {
      this.batchSize := batchSize;
      this.padValue := padValue;
      this.targets := seq(|df|, k requires 0 <= k < |df| => df[k].target);
      this.pathList := seq(|df|, k requires 0 <= k < |df| => df[k].path);
      this.indexes := seq(|df|, k => k);
      this.returnSeq := returnSeq;
    }

    /** `__len__`: the number of whole batches; the items past the last
        whole batch, fewer than `batchSize`, are never served. */
    function NumBatches(): (n: nat)
      requires Valid()
      ensures n * batchSize <= |pathList| < (n + 1) * batchSize
    {
      |pathList| / batchSize
    }

    /** The pairs batch `index` covers: consecutive positions from
        `index * batchSize`, at most `batchSize` of them, cut at the end of
        the data. */
    function BatchPairs(index: nat): (pairs: seq<Pair>)
      requires Valid()
      ensures |pairs| == if index * batchSize < |pathList| then Min(batchSize, |pathList| - index * batchSize) else 0
    {
      var start := index * batchSize;
      var n := if start < |pathList| then Min(batchSize, |pathList| - start) else 0;
      seq(n, j requires 0 <= j < n => (pathList[start + j], targets[start + j]))
    }

    /** A batch below `NumBatches()` has exactly `batchSize` pairs, all in
        bounds: pair `j` is `(pathList[k], targets[k])` for `k = index * batchSize + j`. */
    lemma WholeBatch(index: nat)
      requires Valid() && index < NumBatches()
      ensures (index + 1) * batchSize <= |pathList|
      ensures |BatchPairs(index)| == batchSize
      ensures forall j :: 0 <= j < batchSize ==>
                BatchPairs(index)[j] == (pathList[index * batchSize + j], targets[index * batchSize + j])
    {
      var n := NumBatches();
      assert index + 1 <= n;
      assert (index + 1) * batchSize <= n * batchSize;
    }

    /** Item `k` of the data, when it lies before `NumBatches() * batchSize`,
        is pair `k % batchSize` of whole batch `k / batchSize`. */
    lemma BatchOfItem(k: nat)
      requires Valid() && k < NumBatches() * batchSize
      ensures k / batchSize < NumBatches()
      ensures |BatchPairs(k / batchSize)| == batchSize
      ensures BatchPairs(k / batchSize)[k % batchSize] == (pathList[k], targets[k])
    {
      var b, n := batchSize, NumBatches();
      var q, m := k / b, k % b;
      assert k == q * b + m;
      if n < q {
        MulGap(n, q, b);
      }
      assert q < n;
      WholeBatch(q);
      assert BatchPairs(q)[m] == (pathList[q * b + m], targets[q * b + m]);
    }

    /** Pair `j` of whole batch `index` is item `index * batchSize + j`,
        which lies before `NumBatches() * batchSize` and maps back to
        `(index, j)`: no item is served by two whole batches and none past
        that prefix is served at all. */
    lemma ItemOfBatch(index: nat, j: nat)
      requires Valid() && index < NumBatches() && j < batchSize
      ensures index * batchSize + j < NumBatches() * batchSize
      ensures (index * batchSize + j) / batchSize == index && (index * batchSize + j) % batchSize == j
    {
      var b, n := batchSize, NumBatches();
      MulGap(index, n, b);
      DivModUnique(index * b + j, b, index, j);
    }

    /** The first half of `__getitem__(index)`: slices `indexes` for batch
        `index` and gathers the `(path, target)` pairs in order. */
    method GatherPairs(index: nat) returns (pairs: seq<Pair>)
      requires Valid()
      ensures pairs == BatchPairs(index)
    {
      var window := Slice(indexes, index * batchSize, (index + 1) * batchSize);
      ghost var want := BatchPairs(index);
      assert |window| == |want|;
      pairs := [];
      for j := 0 to |window|
        invariant pairs == want[..j]
      {
        var k := window[j];
        pairs := pairs + [(pathList[k], targets[k])];
      }
      assert pairs == want[..|window|];
    }

    /** `__getitem__(index)`: gathers the pairs of batch `index` and pads
        them into a batch. */
    method GetItem(index: nat, spectro: string -> Matrix) returns (out: BatchResult)
      requires Valid()
      requires forall k :: 0 <= k < |pathList| ==> IsSpectrogram(spectro(pathList[k]))
      ensures out.EmptyBatchError? <==> |pathList| <= index * batchSize
      ensures out.Batch? ==> fresh(out.X) && fresh(out.y.Footprint())
      ensures out.Batch? ==>
                BatchPairs(index) != [] &&
                IsBatchOf(out.X, out.y, BatchPairs(index), spectro, batchSize, padValue, returnSeq)
    {
      var pairs := GatherPairs(index);
      assert forall i :: 0 <= i < |pairs| ==> pairs[i].0 in pathList && |pairs[i].1| == |pairs[0].1|;
      out := DataGeneration(pairs, spectro);
    }

    /** `__data_generation(pairs)`: computes each spectrogram, pads all of
        them to the batch's longest, tiles and pads the targets in sequence
        mode, and copies everything into the `X` and `y` buffers. */
    method DataGeneration(pairs: seq<Pair>, spectro: string -> Matrix) returns (out: BatchResult)
      requires |pairs| <= batchSize
      requires forall i :: 0 <= i < |pairs| ==> IsSpectrogram(spectro(pairs[i].0))
      requires forall i :: 0 <= i < |pairs| ==> |pairs[i].1| == |pairs[0].1|
      ensures out.EmptyBatchError? <==> pairs == []
      ensures out.Batch? ==> fresh(out.X) && fresh(out.y.Footprint())
      ensures out.Batch? ==> pairs != [] && IsBatchOf(out.X, out.y, pairs, spectro, batchSize, padValue, returnSeq)
    {
      var spec := SpectroCalcEach(spectro, pairs);
      if |pairs| == 0 {
        return EmptyBatchError;
      }
      var M := Max(seq(|spec|, i requires 0 <= i < |spec| => spec[i].Length0));
      assert M == Max(RowCounts(pairs, spectro)) by {
        assert seq(|spec|, i requires 0 <= i < |spec| => spec[i].Length0) == RowCounts(pairs, spectro);
      }
      ghost var specs := seq(|pairs|, j requires 0 <= j < |pairs| => spectro(pairs[j].0));
      var paddedSpec := PadEach(spec, M, padValue, specs);
      if returnSeq {
        out := FramesBatch(pairs, spectro, spec, M, paddedSpec);
      } else {
        out := ItemsBatch(pairs, spectro, M, paddedSpec);
      }
    }

    /** The `return_seq` branch of `__data_generation`: tiles target `i` once
        per time step of spectrogram `i`, pads the result to `M` rows, and
        copies spectrograms and targets into fresh `X` and `y` buffers. */
    method FramesBatch(pairs: seq<Pair>, spectro: string -> Matrix, spec: seq<array2<int>>, M: nat,
                       paddedSpec: seq<array2<int>>)
      returns (out: BatchResult)
      requires pairs != [] && |pairs| == |spec| == |paddedSpec| <= batchSize && returnSeq
      requires M == Max(RowCounts(pairs, spectro))
      requires forall j :: 0 <= j < |pairs| ==> |pairs[j].1| == |pairs[0].1|
      requires forall j :: 0 <= j < |pairs| ==> spec[j].Length0 == |spectro(pairs[j].0)|
      requires forall j :: 0 <= j < |pairs| ==>
                 paddedSpec[j].Length0 == M && paddedSpec[j].Length1 == Dimension &&
                 Cells(paddedSpec[j]) == Padded(spectro(pairs[j].0), M, Dimension, padValue)
      ensures out.Batch? && fresh(out.X) && fresh(out.y.Footprint())
      ensures IsBatchOf(out.X, out.y, pairs, spectro, batchSize, padValue, returnSeq)
    {
      ghost var ts := seq(|pairs|, j requires 0 <= j < |pairs| => Tiled(pairs[j].1, |spectro(pairs[j].0)|));
      ghost var xs := seq(|pairs|, j requires 0 <= j < |pairs| => Padded(spectro(pairs[j].0), M, Dimension, padValue));
      ghost var ys := seq(|pairs|, j requires 0 <= j < |pairs| => Padded(ts[j], M, |pairs[0].1|, padValue));
      var paddedTargets := PaddedTargets(pairs, spec, M, padValue, ts, ys);
      var X, Y := StackSlabs(paddedSpec, paddedTargets, batchSize, M, Dimension, |pairs[0].1|, xs, ys);
      FramesBatchOf(X, Y, pairs, spectro, batchSize, padValue, xs, ys);
      out := Batch(X, PerFrame(Y));
    }

    /** The other branch of `__data_generation`: copies spectrograms into
        a fresh `X` and each target as it is into a row of a fresh `y`. */
    method ItemsBatch(pairs: seq<Pair>, spectro: string -> Matrix, M: nat, paddedSpec: seq<array2<int>>)
      returns (out: BatchResult)
      requires pairs != [] && |pairs| == |paddedSpec| <= batchSize && !returnSeq
      requires M == Max(RowCounts(pairs, spectro))
      requires forall j :: 0 <= j < |pairs| ==> |pairs[j].1| == |pairs[0].1|
      requires forall j :: 0 <= j < |pairs| ==>
                 paddedSpec[j].Length0 == M && paddedSpec[j].Length1 == Dimension &&
                 Cells(paddedSpec[j]) == Padded(spectro(pairs[j].0), M, Dimension, padValue)
      ensures out.Batch? && fresh(out.X) && fresh(out.y.Footprint())
      ensures IsBatchOf(out.X, out.y, pairs, spectro, batchSize, padValue, returnSeq)
    {
      ghost var xs := seq(|pairs|, j requires 0 <= j < |pairs| => Padded(spectro(pairs[j].0), M, Dimension, padValue));
      var X, Y := StackRows(paddedSpec, seq(|pairs|, i requires 0 <= i < |pairs| => pairs[i].1),
                            batchSize, M, Dimension, |pairs[0].1|, xs);
      out := Batch(X, PerItem(Y));
    }
  }

  /** Buffers whose slots hold the padded spectrograms `xs` and the padded
      tiled targets `ys` form a sequence-mode batch of `pairs`. */
  lemma FramesBatchOf(X: array3<int>, Y: array3<int>, pairs: seq<Pair>, spectro: string -> Matrix,
                      batchSize: nat, padValue: int, xs: seq<Matrix>, ys: seq<Matrix>)
    requires pairs != [] && |pairs| <= batchSize && |xs| == |ys| == |pairs|
    requires X.Length0 == batchSize && X.Length1 == Max(RowCounts(pairs, spectro)) && X.Length2 == Dimension
    requires Y.Length0 == batchSize && Y.Length1 == X.Length1 && Y.Length2 == |pairs[0].1|
    requires forall j :: 0 <= j < |pairs| ==>
               xs[j] == Padded(spectro(pairs[j].0), X.Length1, Dimension, padValue) &&
               ys[j] == Padded(Tiled(pairs[j].1, |spectro(pairs[j].0)|), X.Length1, |pairs[0].1|, padValue)
    requires forall j :: 0 <= j < |pairs| ==> Slab(X, j) == xs[j] && Slab(Y, j) == ys[j]
    ensures IsBatchOf(X, PerFrame(Y), pairs, spectro, batchSize, padValue, true)
  {
  }

  /** `[pad(t, (M, t.shape[1])) for t in repmat targets]`: target `j` tiled
      once per time step of `spec[j]` and padded to `M` rows; `ts` and `ys`
      name the tiled and the padded matrices. */
  method PaddedTargets(pairs: seq<Pair>, spec: seq<array2<int>>, M: nat, padValue: int,
                       ghost ts: seq<Matrix>, ghost ys: seq<Matrix>) returns (pt: seq<array2<int>>)
    requires pairs != [] && |spec| == |pairs| == |ts| == |ys|
    requires forall j :: 0 <= j < |pairs| ==>
               spec[j].Length0 <= M && |pairs[j].1| == |pairs[0].1| &&
               ts[j] == Tiled(pairs[j].1, spec[j].Length0) && ys[j] == Padded(ts[j], M, |pairs[0].1|, padValue)
    ensures |pt| == |pairs|
    ensures forall j :: 0 <= j < |pairs| ==> fresh(pt[j])
    ensures forall j :: 0 <= j < |pairs| ==>
              pt[j].Length0 == M && pt[j].Length1 == |pairs[0].1| && Cells(pt[j]) == ys[j]
  {
    var tiled := RepmatEach(pairs, spec);
    pt := PadEach(tiled, M, padValue, ts);
  }

  /** The sequence-mode buffers and copy loop: `X` and `y` as `np.empty`
      arrays of `n` slots of `M` rows, then `X[i, ] = xm[i]` and
      `y[i, ] = ym[i]` for every item `i`; `xs` and `ys` are the matrices
      they hold. */
  method StackSlabs(xm: seq<array2<int>>, ym: seq<array2<int>>, n: nat, M: nat, W: nat, L: nat,
                    ghost xs: seq<Matrix>, ghost ys: seq<Matrix>) returns (X: array3<int>, Y: array3<int>)
    requires |xm| == |ym| == |xs| == |ys| <= n
    requires forall j :: 0 <= j < |xm| ==>
               xm[j].Length0 == M && xm[j].Length1 == W && Cells(xm[j]) == xs[j]
    requires forall j :: 0 <= j < |ym| ==>
               ym[j].Length0 == M && ym[j].Length1 == L && Cells(ym[j]) == ys[j]
    ensures fresh(X) && X.Length0 == n && X.Length1 == M && X.Length2 == W
    ensures fresh(Y) && Y.Length0 == n && Y.Length1 == M && Y.Length2 == L
    ensures forall j :: 0 <= j < |xs| ==> Slab(X, j) == xs[j] && Slab(Y, j) == ys[j]
  {
    X := new int[n, M, W];
    Y := new int[n, M, L];
    for i := 0 to |xm|
      invariant forall j :: 0 <= j < i ==> Slab(X, j) == xs[j] && Slab(Y, j) == ys[j]
    {
      CopySlab(X, i, xm[i]);
      CopySlab(Y, i, ym[i]);
    }
  }

  /** The other buffers and copy loop: `X` and `y` as `np.empty` arrays of
      `n` slots, then `X[i, ] = xm[i]` and `y[i] = ts[i]` for every item
      `i`; `xs` are the matrices `xm` hold. */
  method StackRows(xm: seq<array2<int>>, ts: seq<seq<int>>, n: nat, M: nat, W: nat, L: nat, ghost xs: seq<Matrix>)
    returns (X: array3<int>, Y: array2<int>)
    requires |xm| == |ts| == |xs| <= n
    requires forall j :: 0 <= j < |xm| ==>
               xm[j].Length0 == M && xm[j].Length1 == W && Cells(xm[j]) == xs[j]
    requires forall j :: 0 <= j < |ts| ==> |ts[j]| == L
    ensures fresh(X) && X.Length0 == n && X.Length1 == M && X.Length2 == W
    ensures fresh(Y) && Y.Length0 == n && Y.Length1 == L
    ensures forall j :: 0 <= j < |xs| ==> Slab(X, j) == xs[j] && RowOf(Y, j) == ts[j]
  {
    X := new int[n, M, W];
    Y := new int[n, L];
    for i := 0 to |xm|
      invariant forall j :: 0 <= j < i ==> Slab(X, j) == xs[j] && RowOf(Y, j) == ts[j]
    {
      CopySlab(X, i, xm[i]);
      CopyRow(Y, i, ts[i]);
    }
  }

  /** `[spectro_calc(path[0]) for path in pairs]`. */
  method SpectroCalcEach(spectro: string -> Matrix, pairs: seq<Pair>) returns (spec: seq<array2<int>>)
    requires forall i :: 0 <= i < |pairs| ==> IsSpectrogram(spectro(pairs[i].0))
    ensures |spec| == |pairs|
    ensures forall j :: 0 <= j < |pairs| ==> fresh(spec[j])
    ensures forall j :: 0 <= j < |pairs| ==>
              spec[j].Length0 == |spectro(pairs[j].0)| && spec[j].Length1 == Dimension &&
              Cells(spec[j]) == spectro(pairs[j].0)
  {
    spec := [];
    for i := 0 to |pairs|
      invariant |spec| == i
      invariant forall j :: 0 <= j < i ==> fresh(spec[j])
      invariant forall j :: 0 <= j < i ==>
                  spec[j].Length0 == |spectro(pairs[j].0)| && spec[j].Length1 == Dimension &&
                  Cells(spec[j]) == spectro(pairs[j].0)
    {
      var s := SpectroCalc(spectro, pairs[i].0);
      spec := spec + [s];
    }
  }

  /** `[repmat(pair[1], spec[i].shape[0], 1) for i, pair in enumerate(pairs)]`:
      target `i` once per time step of spectrogram `i`. */
  method RepmatEach(pairs: seq<Pair>, spec: seq<array2<int>>) returns (tiled: seq<array2<int>>)
    requires |spec| == |pairs|
    ensures |tiled| == |pairs|
    ensures forall j :: 0 <= j < |pairs| ==> fresh(tiled[j])
    ensures forall j :: 0 <= j < |pairs| ==>
              tiled[j].Length0 == spec[j].Length0 && tiled[j].Length1 == |pairs[j].1| &&
              Cells(tiled[j]) == Tiled(pairs[j].1, spec[j].Length0)
  {
    tiled := [];
    for i := 0 to |pairs|
      invariant |tiled| == i
      invariant forall j :: 0 <= j < i ==> fresh(tiled[j])
      invariant forall j :: 0 <= j < i ==>
                  tiled[j].Length0 == spec[j].Length0 && tiled[j].Length1 == |pairs[j].1| &&
                  Cells(tiled[j]) == Tiled(pairs[j].1, spec[j].Length0)
    {
      var t := Repmat(pairs[i].1, spec[i].Length0);
      tiled := tiled + [t];
    }
  }

  /** Quotient and remainder of a non-negative `k` by a positive `b` are unique. */
  lemma DivModUnique(k: nat, b: nat, q: nat, m: nat)
    requires b > 0 && m < b && k == q * b + m
    ensures q == k / b && m == k % b
  {
    if q < k / b {
      MulGap(q, k / b, b);
    } else if k / b < q {
      MulGap(k / b, q, b);
    }
  }

  /** Multiples of `b` at distinct factors lie at least `b` apart. */
  lemma {:induction false} MulGap(x: nat, y: nat, b: nat)
    requires x < y
    ensures x * b + b <= y * b
  {
    if x + 1 < y {
      MulGap(x, y - 1, b);
    }
  }
}
