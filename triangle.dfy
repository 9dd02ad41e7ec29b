/**
 * `Triangle` of util.rs: three parallel vectors of points, normals and uvs (a uv is a `Vec3`
 * whose last component is unused), and `patch`, which cuts a triangle into a lattice of
 * smaller ones. `patch` is modelled as written: it emits `n(n+1)/2` triangles, places the
 * lattice origin at `row*(p1-p0) + col*(p2-p0)` (neither scaled by `1/n` nor shifted by `p0`),
 * and treats normals and uvs with the very same formula as points.
 */
module Triangles {
  import opened Geometry

  datatype Triangle = Triangle(points: seq<Vec3>, normal: seq<Vec3>, uv: seq<Vec3>)

  /** `Triangle::from`: stores the three vectors as given, checking no lengths. */
  function From(points: seq<Vec3>, normal: seq<Vec3>, uv: seq<Vec3>): (t: Triangle)
    ensures t.points == points && t.normal == normal && t.uv == uv
  {
    Triangle(points, normal, uv)
  }

  /** `patch` either returns its vector or panics on an `unwrap` of a missing element. */
  datatype PatchResult = Patched(tris: seq<Triangle>) | Panicked

  /** Every channel has the elements 0, 1 and 2 that `patch` reads for `n >= 2`. */
  predicate HasCorners(t: Triangle) {
    |t.points| >= 3 && |t.normal| >= 3 && |t.uv| >= 3
  }

  /** `*_tiny`: the zero vector and the two edge vectors divided by `n`. */
  function Tiny(c: seq<Vec3>, n: nat): seq<Vec3>
    requires |c| >= 3 && n > 0
  {
    [Zero, Div(Sub(c[1], c[0]), n as real), Div(Sub(c[2], c[0]), n as real)]
  }

  /** `*_start = v1 * row + v2 * column`, with the edge vectors `v1 = c1 - c0`, `v2 = c2 - c0` unscaled. */
  function Start(c: seq<Vec3>, row: nat, col: nat): Vec3
    requires |c| >= 3
  {
    Add(Scale(Sub(c[1], c[0]), row as real), Scale(Sub(c[2], c[0]), col as real))
  }

  /** `tiny.iter().map(|p| *p + start)`, one channel of output `(row, col)`. */
  function Shifted(c: seq<Vec3>, n: nat, row: nat, col: nat): seq<Vec3>
    requires |c| >= 3 && n > 0
  {
    seq(3, k requires 0 <= k < 3 => Add(Tiny(c, n)[k], Start(c, row, col)))
  }

  /** Output `(row, col)`: the same formula in all three channels, each with its own edge vectors. */
  function SubTriangle(t: Triangle, n: nat, row: nat, col: nat): (s: Triangle)
    requires HasCorners(t) && n > 0
    ensures |s.points| == 3 && |s.normal| == 3 && |s.uv| == 3
    ensures s.points[0] == Start(t.points, row, col) && s.normal[0] == Start(t.normal, row, col) && s.uv[0] == Start(t.uv, row, col)
  {
    From(Shifted(t.points, n, row, col), Shifted(t.normal, n, row, col), Shifted(t.uv, n, row, col))
  }

  /** Outputs `(row, 0) .. (row, cols - 1)`. */
  function RowPrefix(t: Triangle, n: nat, row: nat, cols: nat): seq<Triangle>
    requires HasCorners(t) && n > 0
  {
    seq(cols, col requires 0 <= col < cols => SubTriangle(t, n, row, col))
  }

  /** Number of outputs of rows `0 .. rows - 1`: row `r` has `n - r`. */
  function RowOffset(n: nat, rows: nat): nat
    requires rows <= n
  {
    if rows == 0 then 0 else RowOffset(n, rows - 1) + (n - (rows - 1))
  }

  /** Rows `0 .. rows - 1`, in order, row `r` holding columns `0 .. n - r - 1`. */
  function PatchRows(t: Triangle, n: nat, rows: nat): (r: seq<Triangle>)
    requires HasCorners(t) && n > 0 && rows <= n
    ensures |r| == RowOffset(n, rows)
  {
    if rows == 0 then [] else PatchRows(t, n, rows - 1) + RowPrefix(t, n, rows - 1, n - (rows - 1))
  }

  /** Closed form of the row sum: `2 * sum_{r < rows} (n - r) == rows * (2n - rows + 1)`. */
  lemma {:induction false} RowOffsetClosed(n: nat, rows: nat)
    requires rows <= n
    ensures 2 * RowOffset(n, rows) == rows * (2 * n - rows + 1)
  {
    if rows > 0 {
      RowOffsetClosed(n, rows - 1);
    }
  }

  /** `patch(n)` for `n >= 2` emits `n(n+1)/2` triangles, not the `n^2` of a full lattice. */
  lemma PatchCount(t: Triangle, n: nat)
    requires HasCorners(t) && n >= 2
    ensures |PatchRows(t, n, n)| == n * (n + 1) / 2
  {
    RowOffsetClosed(n, n);
  }

  lemma {:induction false} RowOffsetMonotone(n: nat, a: nat, b: nat)
    requires a <= b <= n
    ensures RowOffset(n, a) <= RowOffset(n, b)
  {
    if a < b {
      RowOffsetMonotone(n, a, b - 1);
    }
  }

  /** Output `RowOffset(n, row) + col` is `(row, col)`: row ascending, then column ascending. */
  lemma {:induction false} PatchRowsAt(t: Triangle, n: nat, rows: nat, row: nat, col: nat)
    requires HasCorners(t) && n > 0 && rows <= n && row < rows && col < n - row
    ensures RowOffset(n, row) + col < |PatchRows(t, n, rows)|
    ensures PatchRows(t, n, rows)[RowOffset(n, row) + col] == SubTriangle(t, n, row, col)
  {
    RowOffsetMonotone(n, row + 1, rows);
    if row < rows - 1 {
      PatchRowsAt(t, n, rows - 1, row, col);
    }
  }

  /**
   * Output `(row, col)` starts at `row*(c1 - c0) + col*(c2 - c0)`: output `(0, 0)` (the first
   * one emitted, by `PatchRowsAt`) starts at the origin whatever the corners are.
   */
  lemma AsWrittenOrigin(t: Triangle, n: nat)
    requires HasCorners(t) && n >= 2
    ensures RowOffset(n, 0) == 0
    ensures SubTriangle(t, n, 0, 0).points[0] == Zero
    ensures SubTriangle(t, n, 0, 0).normal[0] == Zero && SubTriangle(t, n, 0, 0).uv[0] == Zero
  {
  }

  /** `Triangle::patch(&self, subdivisions)`. */
  method Patch(t: Triangle, n: nat) returns (r: PatchResult)
    ensures n <= 1 ==> r == Patched([t])
    ensures n >= 2 && !HasCorners(t) ==> r == Panicked
    ensures n >= 2 && HasCorners(t) ==> r == Patched(PatchRows(t, n, n))
  {
    if n == 0 || n == 1 {
      return Patched([From(t.points, t.normal, t.uv)]);
    }
    if !HasCorners(t) {
      return Panicked;
    }
    var pointsTiny := [Zero, Div(Sub(t.points[1], t.points[0]), n as real), Div(Sub(t.points[2], t.points[0]), n as real)];
    var normalTiny := [Zero, Div(Sub(t.normal[1], t.normal[0]), n as real), Div(Sub(t.normal[2], t.normal[0]), n as real)];
    var uvTiny := [Zero, Div(Sub(t.uv[1], t.uv[0]), n as real), Div(Sub(t.uv[2], t.uv[0]), n as real)];
    var pointsV1, pointsV2 := Sub(t.points[1], t.points[0]), Sub(t.points[2], t.points[0]);
    var normalV1, normalV2 := Sub(t.normal[1], t.normal[0]), Sub(t.normal[2], t.normal[0]);
    var uvV1, uvV2 := Sub(t.uv[1], t.uv[0]), Sub(t.uv[2], t.uv[0]);
    var triangles: seq<Triangle> := [];
    var row := 0;
    while row < n
      invariant 0 <= row <= n
      invariant triangles == PatchRows(t, n, row)
    {
      var pointRow, normalRow, uvRow := Scale(pointsV1, row as real), Scale(normalV1, row as real), Scale(uvV1, row as real);
      var column := 0;
      while column < n - row
        invariant 0 <= column <= n - row
        invariant triangles == PatchRows(t, n, row) + RowPrefix(t, n, row, column)
      {
        var pointStart := Add(pointRow, Scale(pointsV2, column as real));
        var normalStart := Add(normalRow, Scale(normalV2, column as real));
        var uvStart := Add(uvRow, Scale(uvV2, column as real));
        var newPoints := seq(3, k requires 0 <= k < 3 => Add(pointsTiny[k], pointStart));
        var newNormal := seq(3, k requires 0 <= k < 3 => Add(normalTiny[k], normalStart));
        var newUv := seq(3, k requires 0 <= k < 3 => Add(uvTiny[k], uvStart));
        assert newPoints == Shifted(t.points, n, row, column);
        assert newNormal == Shifted(t.normal, n, row, column);
        assert newUv == Shifted(t.uv, n, row, column);
        triangles := triangles + [From(newPoints, newNormal, newUv)];
        assert RowPrefix(t, n, row, column + 1) == RowPrefix(t, n, row, column) + [SubTriangle(t, n, row, column)];
        column := column + 1;
      }
      row := row + 1;
    }
    r := Patched(triangles);
  }

  // The evidently intended subdivision, for comparison with the code as written.

  /** Lattice point `(row, col)` of one channel: `c0 + row * (c1 - c0)/n + col * (c2 - c0)/n`. */
  function LatticePoint(c: seq<Vec3>, n: nat, row: nat, col: nat): Vec3
    requires |c| >= 3 && n > 0
  {
    Add(c[0], Add(Scale(Div(Sub(c[1], c[0]), n as real), row as real), Scale(Div(Sub(c[2], c[0]), n as real), col as real)))
  }

  /** The "downward" sub-triangle with lattice corner `(row, col)`. */
  function DownCorners(c: seq<Vec3>, n: nat, row: nat, col: nat): seq<Vec3>
    requires |c| >= 3 && n > 0
  {
    [LatticePoint(c, n, row, col), LatticePoint(c, n, row + 1, col), LatticePoint(c, n, row, col + 1)]
  }

  /** The "upward" sub-triangle filling the gap to the right of downward `(row, col)`. */
  function UpCorners(c: seq<Vec3>, n: nat, row: nat, col: nat): seq<Vec3>
    requires |c| >= 3 && n > 0
  {
    [LatticePoint(c, n, row + 1, col), LatticePoint(c, n, row + 1, col + 1), LatticePoint(c, n, row, col + 1)]
  }

  function IntendedDown(t: Triangle, n: nat, row: nat, col: nat): Triangle
    requires HasCorners(t) && n > 0
  {
    From(DownCorners(t.points, n, row, col), DownCorners(t.normal, n, row, col), DownCorners(t.uv, n, row, col))
  }

  function IntendedUp(t: Triangle, n: nat, row: nat, col: nat): Triangle
    requires HasCorners(t) && n > 0
  {
    From(UpCorners(t.points, n, row, col), UpCorners(t.normal, n, row, col), UpCorners(t.uv, n, row, col))
  }

  /** Row `row` of the intended lattice: `n - row` downward then `n - row - 1` upward triangles. */
  function IntendedRow(t: Triangle, n: nat, row: nat): (r: seq<Triangle>)
    requires HasCorners(t) && row < n
    ensures |r| == 2 * (n - row) - 1
  {
    seq(n - row, col requires 0 <= col < n - row => IntendedDown(t, n, row, col)) +
    seq(n - row - 1, col requires 0 <= col < n - row - 1 => IntendedUp(t, n, row, col))
  }

  function IntendedRows(t: Triangle, n: nat, rows: nat): seq<Triangle>
    requires HasCorners(t) && rows <= n
  {
    if rows == 0 then [] else IntendedRows(t, n, rows - 1) + IntendedRow(t, n, rows - 1)
  }

  /** The corrected `patch`: `n <= 1` returns the input, otherwise the full lattice. */
  function IntendedPatch(t: Triangle, n: nat): seq<Triangle>
    requires HasCorners(t)
  {
    if n <= 1 then [t] else IntendedRows(t, n, n)
  }

  lemma {:induction false} IntendedRowsCount(t: Triangle, n: nat, rows: nat)
    requires HasCorners(t) && rows <= n
    ensures |IntendedRows(t, n, rows)| == rows * (2 * n - rows)
  {
    if rows > 0 {
      IntendedRowsCount(t, n, rows - 1);
    }
  }

  /** The intended subdivision yields exactly `n^2` triangles (one for `n <= 1`). */
  lemma IntendedCount(t: Triangle, n: nat)
    requires HasCorners(t)
    ensures |IntendedPatch(t, n)| == if n <= 1 then 1 else n * n
  {
    if n > 1 {
      IntendedRowsCount(t, n, n);
    }
  }

  /** The first intended output is the downward triangle at the lattice origin. */
  lemma {:induction false} IntendedFirst(t: Triangle, n: nat, rows: nat)
    requires HasCorners(t) && 0 < rows <= n
    ensures |IntendedRows(t, n, rows)| > 0
    ensures IntendedRows(t, n, rows)[0] == IntendedDown(t, n, 0, 0)
  {
    if rows > 1 {
      IntendedFirst(t, n, rows - 1);
    }
  }

  /** One coordinate of the lattice: `n` steps of `(b - a)/n` from `a` reach `b`, none stays at `a`. */
  lemma LatticeAxis(a: real, b: real, d: real, n: nat)
    requires n > 0
    ensures a + ((b - a) / n as real * n as real + (d - a) / n as real * 0.0) == b
    ensures a + ((b - a) / n as real * 0.0 + (d - a) / n as real * n as real) == d
    ensures a + ((b - a) / n as real * 0.0 + (d - a) / n as real * 0.0) == a
  {
    assert (b - a) / n as real * n as real == b - a;
    assert (d - a) / n as real * n as real == d - a;
  }

  /** The intended lattice starts at corner 0 and its extreme sub-triangles reach corners 1 and 2. */
  lemma IntendedCorners(c: seq<Vec3>, n: nat)
    requires |c| >= 3 && n > 0
    ensures DownCorners(c, n, 0, 0)[0] == c[0]
    ensures DownCorners(c, n, n - 1, 0)[1] == c[1]
    ensures DownCorners(c, n, 0, n - 1)[2] == c[2]
  {
    LatticeAxis(c[0].x, c[1].x, c[2].x, n);
    LatticeAxis(c[0].y, c[1].y, c[2].y, n);
    LatticeAxis(c[0].z, c[1].z, c[2].z, n);
    assert LatticePoint(c, n, 0, 0) == c[0];
    assert LatticePoint(c, n, n, 0) == c[1];
    assert LatticePoint(c, n, 0, n) == c[2];
  }

  /** A right triangle at `(1, 0, 0)` with unit legs, the same corners in every channel. */
  const SampleCorners: seq<Vec3> := [Vec3(1.0, 0.0, 0.0), Vec3(2.0, 0.0, 0.0), Vec3(1.0, 1.0, 0.0)]

  const Sample: Triangle := Triangle(SampleCorners, SampleCorners, SampleCorners)

  /** On `Sample` with `n = 2` the code as written emits 3 triangles where the lattice has 4. */
  lemma AsWrittenSampleCount()
    ensures HasCorners(Sample) && Sample.points[0] != Zero
    ensures |PatchRows(Sample, 2, 2)| == 3 && |IntendedPatch(Sample, 2)| == 4
  {
    PatchCount(Sample, 2);
    IntendedCount(Sample, 2);
  }

  /**
   * Whenever corner 0 is not the origin (as for `Sample`), the first vertex the code emits is
   * not corner 0, while the corrected lattice's first vertex is.
   */
  lemma AsWrittenMisplaced(t: Triangle, n: nat)
    requires HasCorners(t) && n >= 2 && t.points[0] != Zero
    ensures |PatchRows(t, n, n)| > 0 && |PatchRows(t, n, n)[0].points| == 3
    ensures |IntendedPatch(t, n)| > 0 && |IntendedPatch(t, n)[0].points| == 3
    ensures PatchRows(t, n, n)[0].points[0] != t.points[0]
    ensures IntendedPatch(t, n)[0].points[0] == t.points[0]
  {
    PatchRowsAt(t, n, n, 0, 0);
    AsWrittenOrigin(t, n);
    IntendedCount(t, n);
    IntendedFirst(t, n, n);
    IntendedCorners(t.points, n);
  }
}
