/**
 * Row-major walks over height grids (`Vec<Vec<f32>>`), the `chunks(k)` split of a flat
 * sample vector into rows, `flatten` back, and `take(k)` cropping.
 */
module Grid {

  function Min(a: int, b: int): int {
    if a <= b then a else b
  }

  /** The grid has `rows` rows of `cols` values each. */
  predicate IsRect(g: seq<seq<real>>, rows: nat, cols: nat) {
    |g| == rows && forall i :: 0 <= i < |g| ==> |g[i]| == cols
  }

  /** What the inner `for (z_index, y_height) in z_list.iter().enumerate()` loop emits for row `x`. */
  function RowCells<T>(x: nat, row: seq<real>, f: (nat, nat, real) -> T): seq<T> {
    seq(|row|, z requires 0 <= z < |row| => f(x, z, row[z]))
  }

  /**
   * What the nested `enumerate` loops emit over the whole grid: `f(x, z, g[x][z])`, row by
   * row, each row in column order. Rows may differ in length, as a `Vec<Vec<f32>>` may.
   */
  function RowMajor<T>(g: seq<seq<real>>, f: (nat, nat, real) -> T): seq<T>
    decreases |g|
  {
    if g == [] then [] else RowMajor(g[..|g| - 1], f) + RowCells(|g| - 1, g[|g| - 1], f)
  }

  /** One more column of row `x` appends one more element. */
  lemma RowCellsSnoc<T>(x: nat, row: seq<real>, z: nat, f: (nat, nat, real) -> T)
    requires z < |row|
    ensures RowCells(x, row[..z + 1], f) == RowCells(x, row[..z], f) + [f(x, z, row[z])]
  {
  }

  /** One more row appends that row's cells. */
  lemma RowMajorSnoc<T>(g: seq<seq<real>>, x: nat, f: (nat, nat, real) -> T)
    requires x < |g|
    ensures RowMajor(g[..x + 1], f) == RowMajor(g[..x], f) + RowCells(x, g[x], f)
  {
    assert g[..x + 1][..x] == g[..x];
  }

  lemma MulMonotone(a: nat, b: nat, c: nat)
    requires a <= b
    ensures a * c <= b * c
  {
  }

  lemma {:induction false} RowMajorLength<T>(g: seq<seq<real>>, f: (nat, nat, real) -> T, rows: nat, cols: nat)
    requires IsRect(g, rows, cols)
    ensures |RowMajor(g, f)| == rows * cols
  {
    if rows > 0 {
      assert IsRect(g[..rows - 1], rows - 1, cols);
      RowMajorLength(g[..rows - 1], f, rows - 1, cols);
      assert (rows - 1) * cols + cols == rows * cols;
    }
  }

  /** On a `rows x cols` grid, element `x * cols + z` of the walk is `f(x, z, g[x][z])`. */
  lemma {:induction false} RowMajorAt<T>(g: seq<seq<real>>, f: (nat, nat, real) -> T, rows: nat, cols: nat, x: nat, z: nat)
    requires IsRect(g, rows, cols) && x < rows && z < cols
    ensures |RowMajor(g, f)| == rows * cols
    ensures x * cols + z < rows * cols
    ensures RowMajor(g, f)[x * cols + z] == f(x, z, g[x][z])
  {
    RowMajorLength(g, f, rows, cols);
    var init := g[..rows - 1];
    assert IsRect(init, rows - 1, cols);
    RowMajorLength(init, f, rows - 1, cols);
    assert RowMajor(g, f) == RowMajor(init, f) + RowCells(rows - 1, g[rows - 1], f);
    assert (rows - 1) * cols + cols == rows * cols;
    MulMonotone(x + 1, rows, cols);
    if x < rows - 1 {
      RowMajorAt(init, f, rows - 1, cols, x, z);
      assert g[x] == init[x];
    } else {
      assert x * cols + z == (rows - 1) * cols + z;
    }
  }

  /** `slice.chunks(k)`: consecutive pieces of length `k`, the last one possibly shorter. */
  function Chunks<T>(s: seq<T>, k: nat): seq<seq<T>>
    requires k > 0
    decreases |s|
  {
    if |s| == 0 then [] else if |s| <= k then [s] else [s[..k]] + Chunks(s[k..], k)
  }

  /** `iter().flatten()` over the rows. */
  function Flatten<T>(g: seq<seq<T>>): seq<T> {
    if g == [] then [] else g[0] + Flatten(g[1..])
  }

  /** Chunking loses and reorders nothing: flattening the chunks gives the input back. */
  lemma {:induction false} FlattenChunks<T>(s: seq<T>, k: nat)
    requires k > 0
    ensures Flatten(Chunks(s, k)) == s
    decreases |s|
  {
    if |s| == 0 {
    } else if |s| <= k {
      assert Chunks(s, k) == [s];
      assert Flatten([s]) == s + Flatten([]);
    } else {
      var rest := Chunks(s[k..], k);
      assert Chunks(s, k) == [s[..k]] + rest;
      FlattenCons(s[..k], rest);
      FlattenChunks(s[k..], k);
      assert s[..k] + s[k..] == s;
    }
  }

  /** Flattening a rows x cols grid gives rows * cols values, cell `(i, j)` at `cols * i + j`. */
  lemma {:induction false} FlattenGrid(g: seq<seq<real>>, rows: nat, cols: nat)
    ensures IsRect(g, rows, cols) ==> |Flatten(g)| == rows * cols
    ensures IsRect(g, rows, cols) ==> forall i, j :: 0 <= i < rows && 0 <= j < cols && cols * i + j < |Flatten(g)| ==>
      Flatten(g)[cols * i + j] == g[i][j]
  {
    if IsRect(g, rows, cols) {
      FlattenLength(g, rows, cols);
      forall i, j | 0 <= i < rows && 0 <= j < cols && cols * i + j < |Flatten(g)|
        ensures Flatten(g)[cols * i + j] == g[i][j]
      {
        FlattenAt(g, rows, cols, i, j);
      }
    }
  }

  lemma {:induction false} FlattenLength(g: seq<seq<real>>, rows: nat, cols: nat)
    requires IsRect(g, rows, cols)
    ensures |Flatten(g)| == rows * cols
    decreases rows
  {
    if rows > 0 {
      assert IsRect(g[1..], rows - 1, cols);
      FlattenLength(g[1..], rows - 1, cols);
      assert cols + (rows - 1) * cols == rows * cols;
    }
  }

  lemma {:induction false} FlattenAt(g: seq<seq<real>>, rows: nat, cols: nat, i: nat, j: nat)
    requires IsRect(g, rows, cols) && i < rows && j < cols
    ensures cols * i + j < |Flatten(g)| && Flatten(g)[cols * i + j] == g[i][j]
    decreases i
  {
    FlattenLength(g, rows, cols);
    MulMonotone(i + 1, rows, cols);
    assert cols * i + j < rows * cols;
    assert Flatten(g) == g[0] + Flatten(g[1..]);
    if i > 0 {
      assert IsRect(g[1..], rows - 1, cols);
      FlattenAt(g[1..], rows - 1, cols, i - 1, j);
      ChunkIndex(cols, i, j);
    }
  }

  lemma FlattenCons<T>(h: seq<T>, t: seq<seq<T>>)
    ensures Flatten([h] + t) == h + Flatten(t)
  {
    assert ([h] + t)[1..] == t;
  }

  /** Splitting `k * m` values into chunks of `k` gives `m` full rows, row `i` holding values `k*i ..`. */
  lemma {:induction false} ChunksExact<T>(s: seq<T>, k: nat, m: nat)
    requires k > 0 && |s| == k * m
    ensures |Chunks(s, k)| == m
    ensures forall i :: 0 <= i < m ==> |Chunks(s, k)[i]| == k
    ensures forall i, j :: 0 <= i < m && 0 <= j < k && k * i + j < |s| ==> Chunks(s, k)[i][j] == s[k * i + j]
  {
    ChunksShape(s, k, m);
    forall i, j | 0 <= i < m && 0 <= j < k && k * i + j < |s|
      ensures Chunks(s, k)[i][j] == s[k * i + j]
    {
      ChunkAt(s, k, m, i, j);
    }
  }

  lemma {:induction false} ChunksShape<T>(s: seq<T>, k: nat, m: nat)
    requires k > 0 && |s| == k * m
    ensures |Chunks(s, k)| == m
    ensures forall i :: 0 <= i < m ==> |Chunks(s, k)[i]| == k
    decreases m
  {
    if m == 0 {
    } else if m == 1 {
      assert Chunks(s, k) == [s];
    } else {
      MulSplit(k, m);
      ChunksShape(s[k..], k, m - 1);
      assert Chunks(s, k) == [s[..k]] + Chunks(s[k..], k);
    }
  }

  lemma {:induction false} ChunkAt<T>(s: seq<T>, k: nat, m: nat, i: nat, j: nat)
    requires k > 0 && |s| == k * m && i < m && j < k
    ensures i < |Chunks(s, k)| && j < |Chunks(s, k)[i]| && k * i + j < |s|
    ensures Chunks(s, k)[i][j] == s[k * i + j]
    decreases m
  {
    ChunksShape(s, k, m);
    if m == 1 {
      assert Chunks(s, k) == [s];
    } else {
      MulSplit(k, m);
      assert Chunks(s, k) == [s[..k]] + Chunks(s[k..], k);
      if i > 0 {
        ChunkAt(s[k..], k, m - 1, i - 1, j);
        ChunkIndex(k, i, j);
      }
    }
  }

  lemma MulSplit(k: nat, m: nat)
    requires k > 0 && m > 1
    ensures k * m == k * (m - 1) + k && k * m > k
  {
  }

  lemma ChunkIndex(k: nat, i: nat, j: nat)
    requires i > 0
    ensures k * (i - 1) + j + k == k * i + j
  {
  }

  /** `iter().take(k)` on the rows and on each row. */
  function Crop(g: seq<seq<real>>, k: nat): (r: seq<seq<real>>)
    ensures |r| == Min(k, |g|)
    ensures forall i :: 0 <= i < |r| ==> |r[i]| == Min(k, |g[i]|) && r[i] <= g[i]
  {
    seq(Min(k, |g|), i requires 0 <= i < Min(k, |g|) => g[i][..Min(k, |g[i]|)])
  }

  /** Cropping a grid of at least `k` by `k` gives a `k` by `k` grid with the same leading values. */
  lemma CropRect(g: seq<seq<real>>, k: nat, rows: nat, cols: nat)
    requires IsRect(g, rows, cols) && k <= rows && k <= cols
    ensures IsRect(Crop(g, k), k, k)
    ensures forall x, z :: 0 <= x < k && 0 <= z < k ==> Crop(g, k)[x][z] == g[x][z]
  {
  }
}
