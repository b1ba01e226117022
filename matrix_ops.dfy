/**
 * The list-of-lists helpers of `MatrixOps` (js/math.js; `sum`, `mul`, `sub`, `shifter` and
 * `makeArray` also in math.js). A matrix is a list of rows. `deepClone` is the identity on
 * these values, and the `console.log` in `matrixMap` is not modelled.
 */
module MatrixOps {
  import opened Wrappers
  import opened JsArrays

  type Matrix = seq<seq<real>>

  /** m has `rows` rows of `cols` entries each. */
  predicate IsShape(m: Matrix, rows: nat, cols: nat) {
    |m| == rows && forall i | 0 <= i < |m| :: |m[i]| == cols
  }

  /** The sum of a list, taken from the right: the textbook definition. */
  function Total(s: seq<real>): real {
    if |s| == 0 then 0.0 else s[0] + Total(s[1..])
  }

  /** The product of a list, taken from the right. */
  function ProductOf(s: seq<real>): real {
    if |s| == 0 then 1.0 else s[0] * ProductOf(s[1..])
  }

  // ---------------------------------------------------------------- sum, mul, sub

  /** `reduce((a, b) => a + b)` continued from accumulator acc over rest, left to right. */
  function FoldAdd(acc: real, rest: seq<real>): real
    decreases |rest|
  {
    if |rest| == 0 then acc else FoldAdd(acc + rest[0], rest[1..])
  }

  lemma {:induction false} FoldAddIsTotal(acc: real, rest: seq<real>)
    ensures FoldAdd(acc, rest) == acc + Total(rest)
    decreases |rest|
  {
    if |rest| > 0 {
      FoldAddIsTotal(acc + rest[0], rest[1..]);
    }
  }

  /** `sum(arr)`: a seedless reduce, which throws on an empty array, hence the precondition. */
  function Sum(arr: seq<real>): (r: real)
    requires |arr| > 0
    ensures r == Total(arr)
  {
    FoldAddIsTotal(arr[0], arr[1..]);
    FoldAdd(arr[0], arr[1..])
  }

  /** `reduce((a, b) => a * b)` continued from accumulator acc over rest. */
  function FoldMul(acc: real, rest: seq<real>): real
    decreases |rest|
  {
    if |rest| == 0 then acc else FoldMul(acc * rest[0], rest[1..])
  }

  lemma {:induction false} FoldMulIsProduct(acc: real, rest: seq<real>)
    ensures FoldMul(acc, rest) == acc * ProductOf(rest)
    decreases |rest|
  {
    if |rest| > 0 {
      FoldMulIsProduct(acc * rest[0], rest[1..]);
      assert (acc * rest[0]) * ProductOf(rest[1..]) == acc * (rest[0] * ProductOf(rest[1..]));
    }
  }

  /** `mul(arr)`: the product of a non-empty array. */
  function Mul(arr: seq<real>): (r: real)
    requires |arr| > 0
    ensures r == ProductOf(arr)
  {
    FoldMulIsProduct(arr[0], arr[1..]);
    FoldMul(arr[0], arr[1..])
  }

  /** `reduce((a, b) => a - b, acc)` over rest. */
  function FoldSub(acc: real, rest: seq<real>): real
    decreases |rest|
  {
    if |rest| == 0 then acc else FoldSub(acc - rest[0], rest[1..])
  }

  lemma {:induction false} FoldSubIsDifference(acc: real, rest: seq<real>)
    ensures FoldSub(acc, rest) == acc - Total(rest)
    decreases |rest|
  {
    if |rest| > 0 {
      FoldSubIsDifference(acc - rest[0], rest[1..]);
    }
  }

  /**
   * `sub(arr)`: `arr.splice(1)` runs first, so `arr[0]` is read afterwards, and `arr` is left
   * holding its first element only. On an empty array the seed is `undefined`, which `reduce`
   * over no elements returns: None.
   */
  method Sub(arr: JsArray<real>) returns (r: Option<real>)
    modifies arr
    ensures old(arr.items) == [] ==> r == None && arr.items == []
    ensures old(arr.items) != [] ==>
      r == Some(old(arr.items)[0] - Total(old(arr.items)[1..])) && arr.items == [old(arr.items)[0]]
  {
    var rest := arr.Splice(1);
    if |arr.items| == 0 {
      r := None;
    } else {
      FoldSubIsDifference(arr.items[0], rest);
      r := Some(FoldSub(arr.items[0], rest));
    }
  }

  // ---------------------------------------------------------------- shifter

  /**
   * What `shifter(arr, step)` returns, paired with what it leaves in `arr`: the first splice
   * cuts at `step`, the second at the shortened length minus `step`.
   */
  function Shifted<T>(s: seq<T>, step: int): (seq<T>, seq<T>) {
    var k1 := SpliceStart(step, |s|);
    var k2 := SpliceStart(k1 - step, k1);
    (s[k1..] + s[..k1][k2..], s[..k2])
  }

  /** `shifter(arr, step)`: two splices on the same array, concatenated. */
  method Shifter<T>(arr: JsArray<T>, step: int) returns (r: seq<T>)
    modifies arr
    ensures (r, arr.items) == Shifted(old(arr.items), step)
  {
    ghost var s := arr.items;
    var first := arr.Splice(step);
    ghost var k1 := SpliceStart(step, |s|);
    assert arr.items == s[..k1];
    var second := arr.Splice(|arr.items| - step);
    r := first + second;
    assert r == Shifted(s, step).0 && arr.items == Shifted(s, step).1;
  }

  /** For 0 <= step <= |s|, `shifter` rotates left by step and empties its argument. */
  lemma ShiftedRotates<T>(s: seq<T>, step: int)
    requires 0 <= step <= |s|
    ensures Shifted(s, step) == (s[step..] + s[..step], [])
  {
    assert s[..step][0..] == s[..step];
  }

  /** `shifter([r, c], 1)` is `[c, r]`, and leaves the pair empty. */
  lemma ShiftedPair<T>(r: T, c: T)
    ensures Shifted([r, c], 1) == ([c, r], [])
  {
    ShiftedRotates([r, c], 1);
    assert [r, c][1..] + [r, c][..1] == [c, r];
  }

  // ---------------------------------------------------------------- makeArray, makeMatrix

  /** `makeArray(n, cb)`: the keys 0..n-1, each passed through cb when one is given. */
  function MakeArray(n: nat, cb: Option<nat -> real>): (r: seq<real>)
    ensures |r| == n
  {
    seq(n, i requires 0 <= i < n => if cb.Some? then cb.value(i) else i as real)
  }

  /** The list 0, 1, ..., n - 1, built by appending. */
  function Keys(n: nat): seq<real> {
    if n == 0 then [] else Keys(n - 1) + [(n - 1) as real]
  }

  /** Each entry of xs passed through f. */
  function Map(f: nat -> real, xs: seq<nat>): (r: seq<real>)
    ensures |r| == |xs|
  {
    if |xs| == 0 then [] else [f(xs[0])] + Map(f, xs[1..])
  }

  /** The indices 0, 1, ..., n - 1 as naturals. */
  function Indices(n: nat): (r: seq<nat>)
    ensures |r| == n && forall i | 0 <= i < n :: r[i] == i
  {
    seq(n, i requires 0 <= i < n => i)
  }

  /** Without a callback `makeArray(n)` is the list of keys 0..n-1. */
  lemma {:induction false} MakeArrayKeys(n: nat)
    ensures MakeArray(n, None) == Keys(n)
  {
    if n > 0 {
      MakeArrayKeys(n - 1);
      assert MakeArray(n, None) == MakeArray(n - 1, None) + [(n - 1) as real];
    }
  }

  lemma {:induction false} MapAt(f: nat -> real, xs: seq<nat>, i: nat)
    requires i < |xs|
    ensures Map(f, xs)[i] == f(xs[i])
  {
    if i > 0 {
      MapAt(f, xs[1..], i - 1);
    }
  }

  /** With a callback, `makeArray(n, cb)` is cb mapped over the keys. */
  lemma MakeArrayMaps(n: nat, cb: nat -> real)
    ensures MakeArray(n, Some(cb)) == Map(cb, Indices(n))
  {
    forall i | 0 <= i < n
      ensures MakeArray(n, Some(cb))[i] == Map(cb, Indices(n))[i]
    {
      MapAt(cb, Indices(n), i);
    }
  }

  /**
   * `makeMatrix(len, wid, fill)`: len rows of `makeArray(wid, j => fill ? fill(i, j) : 0)`.
   * The inner callback is a function, hence always present.
   */
  function MakeMatrix(len: nat, wid: nat, fill: Option<(nat, nat) -> real>): (r: Matrix)
    ensures IsShape(r, len, wid)
    ensures forall i, j | 0 <= i < len && 0 <= j < wid ::
      r[i][j] == if fill.Some? then fill.value(i, j) else 0.0
  {
    seq(len, i requires 0 <= i < len => MakeRow(i, wid, fill))
  }

  /** Row i of `makeMatrix`: `makeArray(wid, j => fill ? fill(i, j) : 0)`. */
  function MakeRow(i: nat, wid: nat, fill: Option<(nat, nat) -> real>): (r: seq<real>)
    ensures |r| == wid
    ensures forall j | 0 <= j < wid :: r[j] == if fill.Some? then fill.value(i, j) else 0.0
  {
    MakeArray(wid, Some((j: nat) => if fill.Some? then fill.value(i, j) else 0.0))
  }

  /** `matrixSize(matrix)`: rows and the length of the first row, which must exist. */
  function MatrixSize(matrix: Matrix): (r: seq<nat>)
    requires |matrix| > 0
    ensures |r| == 2
    ensures forall len: nat, wid: nat | IsShape(matrix, len, wid) :: r == [len, wid]
  {
    [|matrix|, |matrix[0]|]
  }

  /** Without a fill `makeMatrix(len, wid)` is all zeros, and `matrixSize` gives back [len, wid]. */
  lemma MakeMatrixZeros(len: nat, wid: nat)
    ensures MakeMatrix(len, wid, None) == seq(len, i => seq(wid, j => 0.0))
    ensures len > 0 ==> MatrixSize(MakeMatrix(len, wid, None)) == [len, wid]
  {
    var m, z := MakeMatrix(len, wid, None), seq(len, i => seq(wid, j => 0.0));
    forall i | 0 <= i < len
      ensures m[i] == z[i]
    {
      assert forall j | 0 <= j < wid :: m[i][j] == 0.0;
    }
  }

  // ---------------------------------------------------------------- arr2mat

  /** `arr.slice(b, e)` for non-negative bounds, which both stop at the end of arr. */
  function Slice(arr: seq<real>, b: nat, e: nat): (r: seq<real>)
    ensures e <= |arr| && b <= e ==> r == arr[b..e]
  {
    var b', e' := if b < |arr| then b else |arr|, if e < |arr| then e else |arr|;
    if b' < e' then arr[b'..e'] else []
  }

  /** `arr2mat(len, wid, arr)`: row i is the slice of arr from i * wid of length wid. */
  function Arr2Mat(len: nat, wid: nat, arr: seq<real>): (r: Matrix)
    ensures |r| == len
  {
    seq(len, i requires 0 <= i < len => Slice(arr, i * wid, i * wid + wid))
  }

  lemma RowEnd(i: nat, len: nat, wid: nat)
    requires i < len
    ensures i * wid + wid <= len * wid
  {
    assert i * wid + wid == (i + 1) * wid;
    assert (i + 1) * wid <= len * wid;
  }

  lemma Arr2MatRow(len: nat, wid: nat, arr: seq<real>, i: nat)
    requires |arr| == len * wid && i < len
    ensures i * wid + wid <= |arr| && Arr2Mat(len, wid, arr)[i] == arr[i * wid..i * wid + wid]
  {
    RowEnd(i, len, wid);
  }

  /** Cutting a list of len * wid numbers gives len rows of wid, read in row-major order. */
  lemma Arr2MatRowMajor(len: nat, wid: nat, arr: seq<real>)
    requires |arr| == len * wid
    ensures IsShape(Arr2Mat(len, wid, arr), len, wid)
    ensures forall i, j | 0 <= i < len && 0 <= j < wid :: i * wid + j < |arr| && Arr2Mat(len, wid, arr)[i][j] == arr[i * wid + j]
  {
    Arr2MatShape(len, wid, arr);
    forall i, j | 0 <= i < len && 0 <= j < wid
      ensures i * wid + j < |arr| && Arr2Mat(len, wid, arr)[i][j] == arr[i * wid + j]
    {
      Arr2MatEntry(len, wid, arr, i, j);
    }
  }

  lemma Arr2MatShape(len: nat, wid: nat, arr: seq<real>)
    requires |arr| == len * wid
    ensures IsShape(Arr2Mat(len, wid, arr), len, wid)
  {
    forall i | 0 <= i < len
      ensures |Arr2Mat(len, wid, arr)[i]| == wid
    {
      Arr2MatRow(len, wid, arr, i);
    }
  }

  lemma Arr2MatEntry(len: nat, wid: nat, arr: seq<real>, i: nat, j: nat)
    requires |arr| == len * wid && i < len && j < wid
    ensures i * wid + j < |arr| && Arr2Mat(len, wid, arr)[i][j] == arr[i * wid + j]
  {
    RowEnd(i, len, wid);
    var a := i * wid;
    assert Arr2Mat(len, wid, arr)[i] == Slice(arr, a, a + wid) == arr[a..a + wid];
  }

  // ---------------------------------------------------------------- matrixMap and its users

  /** The record `{ i, ix, j, jx, matrix }` `matrixMap` hands to its callback. */
  datatype Cell = Cell(i: seq<real>, ix: nat, j: real, jx: nat, matrix: Matrix)

  /**
   * `matrixMap(matrix, cb)`: every entry replaced by cb of its cell; the shape is kept.
   * Its logging reads `matrix[0]`, which throws for an empty matrix.
   */
  function MatrixMap(matrix: Matrix, cb: Cell -> real): (r: Matrix)
    requires |matrix| > 0
    ensures |r| == |matrix| && forall ix | 0 <= ix < |r| :: |r[ix]| == |matrix[ix]|
    ensures forall ix, jx | 0 <= ix < |matrix| && 0 <= jx < |matrix[ix]| ::
      r[ix][jx] == cb(Cell(matrix[ix], ix, matrix[ix][jx], jx, matrix))
  {
    seq(|matrix|, ix requires 0 <= ix < |matrix| =>
      seq(|matrix[ix]|, jx requires 0 <= jx < |matrix[ix]| => cb(Cell(matrix[ix], ix, matrix[ix][jx], jx, matrix))))
  }

  /** `matrixScalar(n, matrix)`: every entry multiplied by n. */
  function MatrixScalar(n: real, matrix: Matrix): (r: Matrix)
    requires |matrix| > 0
    ensures |r| == |matrix| && forall ix | 0 <= ix < |r| :: |r[ix]| == |matrix[ix]|
    ensures forall ix, jx | 0 <= ix < |r| && 0 <= jx < |r[ix]| :: r[ix][jx] == n * matrix[ix][jx]
  {
    MatrixMap(matrix, (c: Cell) => n * c.j)
  }

  /** Scaling by 1 changes nothing, and scaling twice multiplies the factors. */
  lemma MatrixScalarLaws(a: real, b: real, m: Matrix)
    requires |m| > 0
    ensures MatrixScalar(1.0, m) == m
    ensures MatrixScalar(a, MatrixScalar(b, m)) == MatrixScalar(a * b, m)
  {
    forall ix | 0 <= ix < |m|
      ensures MatrixScalar(1.0, m)[ix] == m[ix]
      ensures MatrixScalar(a, MatrixScalar(b, m))[ix] == MatrixScalar(a * b, m)[ix]
    {
      forall jx | 0 <= jx < |m[ix]|
        ensures MatrixScalar(a, MatrixScalar(b, m))[ix][jx] == MatrixScalar(a * b, m)[ix][jx]
      {
        assert a * (b * m[ix][jx]) == (a * b) * m[ix][jx];
      }
    }
  }

  /** Entry (i, j) of inc, for callbacks that read a second matrix at the cell's position. */
  function EntryOf(inc: Matrix, ix: nat, jx: nat): real {
    if ix < |inc| && jx < |inc[ix]| then inc[ix][jx] else 0.0
  }

  /** The callback of `matrixAdd`: `({ j, ix, jx }) => j + inc[ix][jx]`. */
  function PlusEntry(inc: Matrix): Cell -> real {
    (c: Cell) => c.j + EntryOf(inc, c.ix, c.jx)
  }

  /** The callback of `matrixSub`: `({ j, ix, jx }) => j - inc[ix][jx]`. */
  function MinusEntry(inc: Matrix): Cell -> real {
    (c: Cell) => c.j - EntryOf(inc, c.ix, c.jx)
  }

  /** Every matrix of ms has at least the shape rows x cols, so the callbacks read defined entries. */
  predicate Covers(ms: seq<Matrix>, rows: nat, cols: nat) {
    forall k | 0 <= k < |ms| :: |ms[k]| >= rows && forall i | 0 <= i < rows :: |ms[k][i]| >= cols
  }

  /** The sum over the matrices of ms of their entries (i, j). */
  function EntryTotal(ms: seq<Matrix>, i: nat, j: nat): real {
    if |ms| == 0 then 0.0 else EntryOf(ms[0], i, j) + EntryTotal(ms[1..], i, j)
  }

  /** The reduce of `matrixAdd`: acc plus each matrix of rest in turn, on acc's shape. */
  function AddFold(acc: Matrix, rest: seq<Matrix>): (r: Matrix)
    requires |rest| > 0 ==> |acc| > 0
    ensures |r| == |acc| && forall ix | 0 <= ix < |r| :: |r[ix]| == |acc[ix]|
    decreases |rest|
  {
    if |rest| == 0 then acc
    else
      var inc := rest[0];
      AddFold(MatrixMap(acc, PlusEntry(inc)), rest[1..])
  }

  lemma {:induction false} AddFoldSums(acc: Matrix, rest: seq<Matrix>, i: nat, j: nat)
    requires i < |acc| && j < |acc[i]|
    ensures AddFold(acc, rest)[i][j] == acc[i][j] + EntryTotal(rest, i, j)
    decreases |rest|
  {
    if |rest| > 0 {
      var inc := rest[0];
      var next := MatrixMap(acc, PlusEntry(inc));
      AddFoldSums(next, rest[1..], i, j);
    }
  }

  /**
   * `matrixAdd(matrices)`: starting from zeros of the first matrix's size, adds each matrix
   * entrywise. `matrixSize(matrices[0])` needs a first matrix with a first row.
   */
  function MatrixAdd(matrices: seq<Matrix>): (r: Matrix)
    requires |matrices| > 0 && |matrices[0]| > 0
    requires Covers(matrices, |matrices[0]|, |matrices[0][0]|)
    ensures IsShape(r, |matrices[0]|, |matrices[0][0]|)
    ensures forall i, j | 0 <= i < |matrices[0]| && 0 <= j < |matrices[0][0]| ::
      r[i][j] == EntryTotal(matrices, i, j)
  {
    var size := MatrixSize(matrices[0]);
    var zero := MakeMatrix(size[0], size[1], None);
    var r := AddFold(zero, matrices);
    assert forall i, j | 0 <= i < size[0] && 0 <= j < size[1] :: r[i][j] == EntryTotal(matrices, i, j) by {
      forall i, j | 0 <= i < size[0] && 0 <= j < size[1]
        ensures r[i][j] == EntryTotal(matrices, i, j)
      {
        AddFoldSums(zero, matrices, i, j);
      }
    }
    r
  }

  /** The reduce of `matrixSub`: acc minus each matrix of rest in turn, on acc's shape. */
  function SubFold(acc: Matrix, rest: seq<Matrix>): (r: Matrix)
    requires |rest| > 0 ==> |acc| > 0
    ensures |r| == |acc| && forall ix | 0 <= ix < |r| :: |r[ix]| == |acc[ix]|
    decreases |rest|
  {
    if |rest| == 0 then acc
    else
      var inc := rest[0];
      SubFold(MatrixMap(acc, MinusEntry(inc)), rest[1..])
  }

  lemma {:induction false} SubFoldSubtracts(acc: Matrix, rest: seq<Matrix>, i: nat, j: nat)
    requires i < |acc| && j < |acc[i]|
    ensures SubFold(acc, rest)[i][j] == acc[i][j] - EntryTotal(rest, i, j)
    decreases |rest|
  {
    if |rest| > 0 {
      var inc := rest[0];
      var next := MatrixMap(acc, MinusEntry(inc));
      SubFoldSubtracts(next, rest[1..], i, j);
    }
  }

  /**
   * `matrixSub(matrices)`: `matrices.splice(1)` runs before `matrices[0]` is read, so the list
   * is truncated to its first matrix, from which the others are subtracted. An empty list
   * makes the seed `undefined`, which the reduce returns: None. Each step maps the running
   * difference, which has the first matrix's shape, so a first matrix without rows throws
   * as soon as there is something to subtract, and every other matrix is read on that shape.
   */
  method MatrixSub(matrices: JsArray<Matrix>) returns (r: Option<Matrix>)
    requires |matrices.items| > 1 ==> |matrices.items[0]| > 0
    requires forall k | 0 <= k < |matrices.items| ::
      && |matrices.items[k]| >= |matrices.items[0]|
      && forall i | 0 <= i < |matrices.items[0]| :: |matrices.items[k][i]| >= |matrices.items[0][i]|
    modifies matrices
    ensures old(matrices.items) == [] ==> r == None && matrices.items == []
    ensures old(matrices.items) != [] ==> matrices.items == [old(matrices.items)[0]] && r.Some?
    ensures old(matrices.items) != [] ==> var m0 := old(matrices.items)[0];
      |r.value| == |m0| && forall i | 0 <= i < |m0| :: (|r.value[i]| == |m0[i]|
        && forall j | 0 <= j < |m0[i]| :: r.value[i][j] == m0[i][j] - EntryTotal(old(matrices.items)[1..], i, j))
  {
    var rest := matrices.Splice(1);
    if |matrices.items| == 0 {
      r := None;
    } else {
      var m0 := matrices.items[0];
      var diff := SubFold(m0, rest);
      forall i, j | 0 <= i < |m0| && 0 <= j < |m0[i]|
        ensures diff[i][j] == m0[i][j] - EntryTotal(rest, i, j)
      {
        SubFoldSubtracts(m0, rest, i, j);
      }
      r := Some(diff);
    }
  }

  // ---------------------------------------------------------------- matrixMul, matrixMuls

  /** What `matrixMul(m1, m2)` reads is defined: m2 has a first row, every row of m1 is non-empty
   * (`sum` throws on an empty list) and no longer than m2, and every row of m2 that some row of
   * m1 reaches covers m2's first row. */
  predicate MulReady(m1: Matrix, m2: Matrix) {
    && |m2| > 0
    && (forall i | 0 <= i < |m1| :: 0 < |m1[i]| <= |m2|)
    && (forall i, kx | 0 <= i < |m1| && 0 <= kx < |m1[i]| :: |m2[kx]| >= |m2[0]|)
  }

  /** `m1[i].map((k, kx) => k * m2[kx][j])`. */
  function Products(row: seq<real>, m2: Matrix, j: nat): (r: seq<real>)
    requires |row| <= |m2| && forall kx | 0 <= kx < |row| :: j < |m2[kx]|
    ensures |r| == |row|
  {
    seq(|row|, kx requires 0 <= kx < |row| => row[kx] * m2[kx][j])
  }

  /** The fill of `matrixMul`: `(i, j) => sum(m1[i].map((k, kx) => k * m2[kx][j]))`. */
  function MulFill(m1: Matrix, m2: Matrix): (nat, nat) -> real {
    (i: nat, j: nat) =>
      if i < |m1| && 0 < |m1[i]| <= |m2| && forall kx | 0 <= kx < |m1[i]| :: j < |m2[kx]|
      then Sum(Products(m1[i], m2, j))
      else 0.0
  }

  /** `matrixMul(m1, m2)`: |m1| rows of |m2[0]| entries, entry (i, j) the sum of m1[i][k] * m2[k][j]. */
  function MatrixMul(m1: Matrix, m2: Matrix): (r: Matrix)
    requires MulReady(m1, m2)
    ensures IsShape(r, |m1|, |m2[0]|)
    ensures forall i, j | 0 <= i < |m1| && 0 <= j < |m2[0]| :: r[i][j] == Total(Products(m1[i], m2, j))
  {
    MakeMatrix(|m1|, |m2[0]|, Some(MulFill(m1, m2)))
  }

  /** The n x n identity, built with `makeMatrix`. */
  function IdentityMatrix(n: nat): Matrix {
    MakeMatrix(n, n, Some((i: nat, j: nat) => if i == j then 1.0 else 0.0))
  }

  /** A sum whose only non-zero term sits at index j. */
  lemma {:induction false} TotalOneHot(s: seq<real>, j: nat)
    requires j < |s| && forall k | 0 <= k < |s| && k != j :: s[k] == 0.0
    ensures Total(s) == s[j]
  {
    if j == 0 {
      TotalZero(s[1..]);
    } else {
      TotalOneHot(s[1..], j - 1);
    }
  }

  lemma {:induction false} TotalZero(s: seq<real>)
    requires forall k | 0 <= k < |s| :: s[k] == 0.0
    ensures Total(s) == 0.0
  {
    if |s| > 0 {
      TotalZero(s[1..]);
    }
  }

  /** Multiplying by the identity on the right gives the matrix back. */
  lemma MatrixMulIdentity(m: Matrix, p: nat)
    requires p > 0 && IsShape(m, |m|, p)
    ensures MulReady(m, IdentityMatrix(p))
    ensures MatrixMul(m, IdentityMatrix(p)) == m
  {
    var id := IdentityMatrix(p);
    var r := MatrixMul(m, id);
    forall i | 0 <= i < |m|
      ensures r[i] == m[i]
    {
      forall j | 0 <= j < p
        ensures r[i][j] == m[i][j]
      {
        var terms := Products(m[i], id, j);
        assert forall k | 0 <= k < p && k != j :: terms[k] == 0.0;
        TotalOneHot(terms, j);
      }
    }
  }

  /** Only the rows of m2 that m1 reaches are read: a short second row is no obstacle. */
  lemma MatrixMulShortRow()
    ensures MulReady([[1.0]], [[1.0, 2.0], [3.0]])
    ensures MatrixMul([[1.0]], [[1.0, 2.0], [3.0]]) == [[1.0, 2.0]]
  {
    var m2 := [[1.0, 2.0], [3.0]];
    var r := MatrixMul([[1.0]], m2);
    assert Total(Products([1.0], m2, 0)) == 1.0;
    assert Total(Products([1.0], m2, 1)) == 2.0;
    assert r[0] == [1.0, 2.0];
  }

  /** The precondition of every multiplication of the reduce in `matrixMuls`. */
  predicate ChainReady(acc: Matrix, rest: seq<Matrix>)
    decreases |rest|
  {
    |rest| == 0 || (MulReady(acc, rest[0]) && ChainReady(MatrixMul(acc, rest[0]), rest[1..]))
  }

  /** The reduce of `matrixMuls`: acc multiplied on the right by each matrix of rest in turn. */
  function MulsFold(acc: Matrix, rest: seq<Matrix>): (r: Matrix)
    requires ChainReady(acc, rest)
    ensures |r| == |acc|
    ensures |rest| > 0 ==> |rest[|rest| - 1]| > 0 && IsShape(r, |acc|, |rest[|rest| - 1][0]|)
    decreases |rest|
  {
    if |rest| == 0 then acc else MulsFold(MatrixMul(acc, rest[0]), rest[1..])
  }

  /**
   * `matrixMuls(matrices)`: the product of the list from left to right. It works on a deep
   * clone, so the argument is not truncated; the clone of an absent first matrix throws.
   */
  function MatrixMuls(matrices: seq<Matrix>): (r: Matrix)
    requires |matrices| > 0 && ChainReady(matrices[0], matrices[1..])
    ensures |r| == |matrices[0]|
    ensures |matrices| > 1 ==> var last := matrices[|matrices| - 1];
      |last| > 0 && IsShape(r, |matrices[0]|, |last[0]|)
  {
    MulsFold(matrices[0], matrices[1..])
  }

  lemma {:induction false} MulsFoldSnoc(acc: Matrix, rest: seq<Matrix>, m: Matrix)
    requires ChainReady(acc, rest) && MulReady(MulsFold(acc, rest), m)
    ensures ChainReady(acc, rest + [m])
    ensures MulsFold(acc, rest + [m]) == MatrixMul(MulsFold(acc, rest), m)
    decreases |rest|
  {
    if |rest| == 0 {
      assert rest + [m] == [m];
    } else {
      assert (rest + [m])[1..] == rest[1..] + [m];
      MulsFoldSnoc(MatrixMul(acc, rest[0]), rest[1..], m);
    }
  }

  /**
   * `matrixMuls` nests to the left: a single matrix is its own product, and appending a matrix
   * multiplies the product so far by it on the right.
   */
  lemma MatrixMulsNestsLeft(matrices: seq<Matrix>, m: Matrix)
    requires |matrices| > 0 && ChainReady(matrices[0], matrices[1..])
    requires MulReady(MatrixMuls(matrices), m)
    ensures MatrixMuls([m]) == m
    ensures ChainReady((matrices + [m])[0], (matrices + [m])[1..])
    ensures MatrixMuls(matrices + [m]) == MatrixMul(MatrixMuls(matrices), m)
  {
    assert (matrices + [m])[1..] == matrices[1..] + [m];
    MulsFoldSnoc(matrices[0], matrices[1..], m);
  }

  // ---------------------------------------------------------------- matrixTrans

  /** The fill of `matrixTrans`: `(i, j) => matrix[j][i]`. */
  function TransFill(matrix: Matrix): (nat, nat) -> real {
    (i: nat, j: nat) => if j < |matrix| && i < |matrix[j]| then matrix[j][i] else 0.0
  }

  /** Every row is at least as long as the first, so `matrix[j][i]` is defined below matrixSize. */
  predicate TransReady(matrix: Matrix) {
    |matrix| > 0 && forall j | 0 <= j < |matrix| :: |matrix[j]| >= |matrix[0]|
  }

  /**
   * `matrixTrans(matrix)`: `makeMatrix` of the size with rows and columns swapped by
   * `shifter(size, 1)`, filled with `matrix[j][i]`.
   */
  function MatrixTrans(matrix: Matrix): (r: Matrix)
    requires TransReady(matrix)
    ensures IsShape(r, |matrix[0]|, |matrix|)
    ensures forall i, j | 0 <= i < |matrix[0]| && 0 <= j < |matrix| :: r[i][j] == matrix[j][i]
  {
    var size := Shifted(MatrixSize(matrix), 1).0;
    ShiftedPair(|matrix|, |matrix[0]|);
    MakeMatrix(size[0], size[1], Some(TransFill(matrix)))
  }

  /** Transposing a non-empty rectangular matrix twice gives it back. */
  lemma MatrixTransTwice(matrix: Matrix, rows: nat, cols: nat)
    requires rows > 0 && cols > 0 && IsShape(matrix, rows, cols)
    ensures TransReady(MatrixTrans(matrix))
    ensures MatrixTrans(MatrixTrans(matrix)) == matrix
  {
    var t := MatrixTrans(matrix);
    var tt := MatrixTrans(t);
    forall j | 0 <= j < rows
      ensures tt[j] == matrix[j]
    {
    }
  }
}
