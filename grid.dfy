/** Integer matrices standing for the repository's 2-D numpy arrays, and
    `pad` (earshot/data.py:17-27), which places a matrix in the top-left
    corner of a larger one filled with a sentinel. */
module Grid {

  /** A matrix as a sequence of rows. */
  type Matrix = seq<seq<int>>

  /** `m` has `rows` rows of `cols` entries each. */
  predicate IsShape(m: Matrix, rows: nat, cols: nat)
  {
    |m| == rows && forall r :: 0 <= r < rows ==> |m[r]| == cols
  }

  /** A row of `n` copies of `v`. */
  function Fill(n: nat, v: int): (row: seq<int>)
    ensures |row| == n && forall c :: 0 <= c < n ==> row[c] == v
  {
    seq(n, _ => v)
  }

  /** The contents of a 2-D array, row by row. */
  ghost function Cells(a: array2<int>): (m: Matrix)
    reads a
    ensures IsShape(m, a.Length0, a.Length1)
  {
    seq(a.Length0, r requires 0 <= r < a.Length0 reads a =>
      seq(a.Length1, c requires 0 <= c < a.Length1 reads a => a[r, c]))
  }

  /** Slot `i` of a 3-D array, as a matrix. */
  ghost function Slab(a: array3<int>, i: nat): (m: Matrix)
    requires i < a.Length0
    reads a
    ensures IsShape(m, a.Length1, a.Length2)
  {
    seq(a.Length1, r requires 0 <= r < a.Length1 reads a =>
      seq(a.Length2, c requires 0 <= c < a.Length2 reads a => a[i, r, c]))
  }

  /** Row `i` of a 2-D array. */
  ghost function RowOf(a: array2<int>, i: nat): (row: seq<int>)
    requires i < a.Length0
    reads a
    ensures |row| == a.Length1
  {
    seq(a.Length1, c requires 0 <= c < a.Length1 reads a => a[i, c])
  }

  /** Two matrices with the same shape and the same entries are equal. */
  lemma {:induction false} SameEntries(m: Matrix, n: Matrix, rows: nat, cols: nat)
    requires IsShape(m, rows, cols) && IsShape(n, rows, cols)
    requires forall r, c :: 0 <= r < rows && 0 <= c < cols ==> m[r][c] == n[r][c]
    ensures m == n
  {
    forall r | 0 <= r < rows
      ensures m[r] == n[r]
    {
      assert |m[r]| == |n[r]| == cols;
      assert forall c :: 0 <= c < cols ==> m[r][c] == n[r][c];
    }
  }

  /** What `pad(m, (rows, cols), padVal)` returns: entry `(r, c)` is `m`'s
      own where `m` has one, and `padVal` everywhere else. */
  function Padded(m: Matrix, rows: nat, cols: nat, padVal: int): (p: Matrix)
    ensures IsShape(p, rows, cols)
  {
    seq(rows, r => seq(cols, c => if 0 <= r < |m| && 0 <= c < |m[r]| then m[r][c] else padVal))
  }

  /** The block of `m` with `rows` rows and `cols` columns at its top left. */
  function Crop(m: Matrix, rows: nat, cols: nat): (b: Matrix)
    requires rows <= |m| && forall r :: 0 <= r < rows ==> cols <= |m[r]|
    ensures IsShape(b, rows, cols)
    ensures forall r, c :: 0 <= r < rows && 0 <= c < cols ==> b[r][c] == m[r][c]
  {
    seq(rows, r requires 0 <= r < rows => m[r][..cols])
  }

  /** `pad` keeps the input in the top-left block, fills every other cell
      with the sentinel, and never loses anything: cropping the result back
      to the input's shape gives the input. */
  lemma {:induction false} PadKeepsBlock(m: Matrix, rows: nat, cols: nat, R: nat, C: nat, padVal: int)
    requires IsShape(m, rows, cols) && rows <= R && cols <= C
    ensures forall r, c :: 0 <= r < rows && 0 <= c < cols ==> Padded(m, R, C, padVal)[r][c] == m[r][c]
    ensures forall r, c :: 0 <= r < R && 0 <= c < C && (rows <= r || cols <= c) ==>
              Padded(m, R, C, padVal)[r][c] == padVal
    ensures Crop(Padded(m, R, C, padVal), rows, cols) == m
  {
    var p := Padded(m, R, C, padVal);
    SameEntries(Crop(p, rows, cols), m, rows, cols);
  }

  /** Padding a matrix to its own shape gives it back unchanged. */
  lemma {:induction false} PadOwnShape(m: Matrix, rows: nat, cols: nat, padVal: int)
    requires IsShape(m, rows, cols)
    ensures Padded(m, rows, cols, padVal) == m
  {
    SameEntries(Padded(m, rows, cols, padVal), m, rows, cols);
  }

  /** Padding in two steps with one sentinel is padding once to the final
      shape; in particular padding twice to one shape is padding once. */
  lemma {:induction false} PadTwice(m: Matrix, rows: nat, cols: nat, R1: nat, C1: nat, R2: nat, C2: nat, padVal: int)
    requires IsShape(m, rows, cols) && rows <= R1 <= R2 && cols <= C1 <= C2
    ensures Padded(Padded(m, R1, C1, padVal), R2, C2, padVal) == Padded(m, R2, C2, padVal)
  {
    SameEntries(Padded(Padded(m, R1, C1, padVal), R2, C2, padVal), Padded(m, R2, C2, padVal), R2, C2);
  }

  /** Row `r` of a padded matrix: the input's row followed by sentinels, or
      only sentinels below the input. */
  lemma {:induction false} PaddedRow(m: Matrix, cols: nat, R: nat, C: nat, padVal: int, r: nat)
    requires IsShape(m, |m|, cols) && |m| <= R && cols <= C && r < R
    ensures Padded(m, R, C, padVal)[r] == if r < |m| then m[r] + Fill(C - cols, padVal) else Fill(C, padVal)
  {
    var row := Padded(m, R, C, padVal)[r];
    var want := if r < |m| then m[r] + Fill(C - cols, padVal) else Fill(C, padVal);
    assert |row| == |want| == C;
    forall c | 0 <= c < C
      ensures row[c] == want[c]
    {
    }
  }

  /** What `numpy.matlib.repmat(v, n, 1)` returns: `n` copies of `v`, one per row. */
  function Tiled(v: seq<int>, n: nat): (m: Matrix)
    ensures IsShape(m, n, |v|)
  {
    seq(n, _ => v)
  }

  /** A tiled vector padded downwards has the vector in its first `n` rows
      and sentinel rows after them. */
  lemma {:induction false} PaddedTiledRow(v: seq<int>, n: nat, R: nat, padVal: int, r: nat)
    requires n <= R && r < R
    ensures Padded(Tiled(v, n), R, |v|, padVal)[r] == if r < n then v else Fill(|v|, padVal)
  {
    PaddedRow(Tiled(v, n), |v|, R, |v|, padVal, r);
    if r < n {
      assert Fill(0, padVal) == [];
      assert v + [] == v;
    }
  }

  /** `pad(data, (rows, cols), padVal)`: allocate a `rows` by `cols` array
      filled with `padVal` (the source's default is -9999), then overwrite
      its top-left block with `data`. */
  method Pad(data: array2<int>, rows: nat, cols: nat, padVal: int) returns (padded: array2<int>)
    requires data.Length0 <= rows && data.Length1 <= cols
    ensures fresh(padded)
    ensures padded.Length0 == rows && padded.Length1 == cols
    ensures Cells(padded) == Padded(Cells(data), rows, cols, padVal)
  {
    padded := new int[rows, cols]((_, _) => padVal);
    for r := 0 to data.Length0
      invariant forall i, j :: 0 <= i < rows && 0 <= j < cols ==>
                  padded[i, j] == if i < r && j < data.Length1 then data[i, j] else padVal
    {
      for c := 0 to data.Length1
        invariant forall i, j :: 0 <= i < rows && 0 <= j < cols ==>
                    padded[i, j] == if (i < r && j < data.Length1) || (i == r && j < c) then data[i, j] else padVal
      {
        padded[r, c] := data[r, c];
      }
    }
    SameEntries(Cells(padded), Padded(Cells(data), rows, cols, padVal), rows, cols);
  }

  /** `[pad(s, (rows, s.shape[1]), padVal) for s in ms]`: each matrix padded
      downwards to `rows` rows, keeping its own width; `vals` are the
      matrices `ms` hold. */
  method PadEach(ms: seq<array2<int>>, rows: nat, padVal: int, ghost vals: seq<Matrix>) returns (ps: seq<array2<int>>)
    requires |vals| == |ms|
    requires forall j :: 0 <= j < |ms| ==> ms[j].Length0 <= rows && Cells(ms[j]) == vals[j]
    ensures |ps| == |ms|
    ensures forall j :: 0 <= j < |ms| ==> fresh(ps[j])
    ensures forall j :: 0 <= j < |ms| ==>
              ps[j].Length0 == rows && ps[j].Length1 == ms[j].Length1 &&
              Cells(ps[j]) == Padded(vals[j], rows, ms[j].Length1, padVal)
  {
    ps := [];
    for i := 0 to |ms|
      invariant |ps| == i
      invariant forall j :: 0 <= j < i ==> fresh(ps[j])
      invariant forall j :: 0 <= j < i ==>
                  ps[j].Length0 == rows && ps[j].Length1 == ms[j].Length1 &&
                  Cells(ps[j]) == Padded(vals[j], rows, ms[j].Length1, padVal)
    {
      var p := Pad(ms[i], rows, ms[i].Length1, padVal);
      ps := ps + [p];
    }
  }

  /** `numpy.matlib.repmat(v, n, 1)`: an `n` by `|v|` array whose every row is `v`. */
  method Repmat(v: seq<int>, n: nat) returns (a: array2<int>)
    ensures fresh(a)
    ensures a.Length0 == n && a.Length1 == |v|
    ensures Cells(a) == Tiled(v, n)
  {
    a := new int[n, |v|]((_, c) requires 0 <= c < |v| => v[c]);
    SameEntries(Cells(a), Tiled(v, n), n, |v|);
  }

  /** `dst[i, ] = src`: copies a matrix into slot `i` of a 3-D array and
      leaves every other slot as it was. */
  method CopySlab(dst: array3<int>, i: nat, src: array2<int>)
    requires i < dst.Length0 && src.Length0 == dst.Length1 && src.Length1 == dst.Length2
    modifies dst
    ensures Slab(dst, i) == Cells(src)
    ensures forall j :: 0 <= j < dst.Length0 && j != i ==> Slab(dst, j) == old(Slab(dst, j))
  {
    for r := 0 to src.Length0
      invariant forall j, x, y :: 0 <= j < dst.Length0 && 0 <= x < dst.Length1 && 0 <= y < dst.Length2 ==>
                  dst[j, x, y] == if j == i && x < r then src[x, y] else old(dst[j, x, y])
    {
      for c := 0 to src.Length1
        invariant forall j, x, y :: 0 <= j < dst.Length0 && 0 <= x < dst.Length1 && 0 <= y < dst.Length2 ==>
                    dst[j, x, y] == if j == i && (x < r || (x == r && y < c)) then src[x, y] else old(dst[j, x, y])
      {
        dst[i, r, c] := src[r, c];
      }
    }
    SameEntries(Slab(dst, i), Cells(src), src.Length0, src.Length1);
    forall j | 0 <= j < dst.Length0 && j != i
      ensures Slab(dst, j) == old(Slab(dst, j))
    {
      SameEntries(Slab(dst, j), old(Slab(dst, j)), dst.Length1, dst.Length2);
    }
  }

  /** `dst[i] = v`: copies a vector into row `i` of a 2-D array and leaves
      every other row as it was. */
  method CopyRow(dst: array2<int>, i: nat, v: seq<int>)
    requires i < dst.Length0 && |v| == dst.Length1
    modifies dst
    ensures RowOf(dst, i) == v
    ensures forall j :: 0 <= j < dst.Length0 && j != i ==> RowOf(dst, j) == old(RowOf(dst, j))
  {
    for c := 0 to |v|
      invariant forall j, y :: 0 <= j < dst.Length0 && 0 <= y < dst.Length1 ==>
                  dst[j, y] == if j == i && y < c then v[y] else old(dst[j, y])
    {
      dst[i, c] := v[c];
    }
    forall j | 0 <= j < dst.Length0 && j != i
      ensures RowOf(dst, j) == old(RowOf(dst, j))
    {
      assert forall y :: 0 <= y < dst.Length1 ==> RowOf(dst, j)[y] == old(RowOf(dst, j))[y];
    }
  }
}
