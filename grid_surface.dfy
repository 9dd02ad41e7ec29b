/**
 * `create_plain_mesh`: a continuous surface over a height grid. Every sample becomes one
 * vertex; the index buffer splits each of the `n * n` unit cells of an `(n+1) x (n+1)` vertex
 * grid into two triangles along a fixed diagonal. The generic version takes `n`
 * (`plain_size`); the copies in the region streamer and the noise viewer fix `n` at 16.
 */
module GridSurface {
  import opened Geometry
  import opened Grid

  /** The attribute and index buffers handed to `Mesh::new`. */
  datatype Mesh = Mesh(positions: seq<Vec3>, uvs: seq<Vec2>, normals: seq<Vec3>, indices: seq<int>)

  /** Vertex for sample `(x, z)` of height `h`: unit spacing, shifted by the transform's x and z. */
  function PositionAt(tx: real, tz: real): (nat, nat, real) -> Vec3 {
    (x: nat, z: nat, h: real) => Vec3(x as real + tx, h, z as real + tz)
  }

  /** Texture coordinate for sample `(x, z)`: `uv_size * index` with `uv_size = 1 / n`, over the reals `index / n`. */
  function UvAt(n: nat): (nat, nat, real) -> Vec2
    requires n > 0
  {
    (x: nat, z: nat, h: real) => Vec2(x as real / n as real, z as real / n as real)
  }

  /** Every normal is `[0.0, 1.0, 0.0]`. */
  function NormalAt(): (nat, nat, real) -> Vec3 {
    (x: nat, z: nat, h: real) => Up
  }

  /** `vec![0, 1, n + 1, 1, n + 2, n + 1]`. */
  function CellOffsets(n: nat): seq<int> {
    [0, 1, n + 1, 1, n + 2, n + 1]
  }

  /** The six indices cell `(x, z)` contributes: the offsets added to `start_index = x * (n + 1) + z`. */
  function CellIndices(n: nat, x: nat, z: nat): seq<int> {
    var start := x * (n + 1) + z;
    seq(6, j requires 0 <= j < 6 => CellOffsets(n)[j] + start)
  }

  /** Cells `(x, 0) .. (x, zEnd - 1)` in order. */
  function RowIndices(n: nat, x: nat, zEnd: nat): (r: seq<int>)
    ensures |r| == 6 * zEnd
  {
    if zEnd == 0 then [] else RowIndices(n, x, zEnd - 1) + CellIndices(n, x, zEnd - 1)
  }

  /** Rows `0 .. xEnd - 1`, each over `n` cells. */
  function GridIndices(n: nat, xEnd: nat): (r: seq<int>)
    ensures |r| == xEnd * (6 * n)
  {
    if xEnd == 0 then [] else GridIndices(n, xEnd - 1) + RowIndices(n, xEnd - 1, n)
  }

  /** The index buffer: it depends on `n` only, never on the grid it is paired with. */
  function PlainIndices(n: nat): seq<int> {
    GridIndices(n, n)
  }

  /** The whole mesh `create_plain_mesh(n, grid, transform)` builds. */
  function PlainMeshOf(n: nat, grid: seq<seq<real>>, tx: real, tz: real): Mesh
    requires n > 0
  {
    Mesh(RowMajor(grid, PositionAt(tx, tz)), RowMajor(grid, UvAt(n)), RowMajor(grid, NormalAt()), PlainIndices(n))
  }

  /** Cell `(x, z)` is the triangles `(s, s+1, s+n+1)` and `(s+1, s+n+2, s+n+1)` with `s = x*(n+1) + z`. */
  lemma CellTriangles(n: nat, x: nat, z: nat)
    ensures var s := x * (n + 1) + z;
      CellIndices(n, x, z) == [s, s + 1, s + n + 1, s + 1, s + n + 2, s + n + 1]
  {
    var s := x * (n + 1) + z;
    var c := CellIndices(n, x, z);
    var o := CellOffsets(n);
    assert o[0] == 0 && o[1] == 1 && o[2] == n + 1 && o[3] == 1 && o[4] == n + 2 && o[5] == n + 1;
    assert c[0] == s && c[1] == s + 1 && c[2] == s + n + 1;
    assert c[3] == s + 1 && c[4] == s + n + 2 && c[5] == s + n + 1;
  }

  /** The largest index any cell of an `n x n` cell grid uses is `(n+1)^2 - 1`, the last vertex. */
  lemma CellBound(n: nat, x: nat, z: nat, j: nat)
    requires x < n && z < n && j < 6
    ensures 0 <= CellIndices(n, x, z)[j] < (n + 1) * (n + 1)
  {
    CellTriangles(n, x, z);
    MulMonotone(x, n - 1, n + 1);
    assert (n - 1) * (n + 1) == n * n - 1;
  }

  lemma {:induction false} RowIndicesBound(n: nat, x: nat, zEnd: nat)
    requires x < n && zEnd <= n
    ensures forall k :: 0 <= k < |RowIndices(n, x, zEnd)| ==> 0 <= RowIndices(n, x, zEnd)[k] < (n + 1) * (n + 1)
  {
    if zEnd > 0 {
      RowIndicesBound(n, x, zEnd - 1);
      var cell := CellIndices(n, x, zEnd - 1);
      forall j | 0 <= j < 6 ensures 0 <= cell[j] < (n + 1) * (n + 1) {
        CellBound(n, x, zEnd - 1, j);
      }
    }
  }

  lemma {:induction false} RowIndicesAt(n: nat, x: nat, zEnd: nat, z: nat, j: nat)
    requires z < zEnd && j < 6
    ensures RowIndices(n, x, zEnd)[6 * z + j] == CellIndices(n, x, z)[j]
  {
    if z < zEnd - 1 {
      RowIndicesAt(n, x, zEnd - 1, z, j);
    }
  }

  lemma {:induction false} GridIndicesBound(n: nat, xEnd: nat)
    requires xEnd <= n
    ensures forall k :: 0 <= k < |GridIndices(n, xEnd)| ==> 0 <= GridIndices(n, xEnd)[k] < (n + 1) * (n + 1)
  {
    if xEnd > 0 {
      GridIndicesBound(n, xEnd - 1);
      RowIndicesBound(n, xEnd - 1, n);
    }
  }

  lemma {:induction false} GridIndicesAt(n: nat, xEnd: nat, x: nat, k: nat)
    requires x < xEnd && k < 6 * n
    ensures x * (6 * n) + k < xEnd * (6 * n)
    ensures GridIndices(n, xEnd)[x * (6 * n) + k] == RowIndices(n, x, n)[k]
  {
    var w := 6 * n;
    MulMonotone(x + 1, xEnd, w);
    assert (xEnd - 1) * w + w == xEnd * w;
    if x < xEnd - 1 {
      GridIndicesAt(n, xEnd - 1, x, k);
    }
  }

  /** The index buffer has `6 n^2` entries, and every entry addresses one of the `(n+1)^2` vertices. */
  lemma PlainIndicesShape(n: nat)
    ensures |PlainIndices(n)| == 6 * n * n
    ensures forall k :: 0 <= k < |PlainIndices(n)| ==> 0 <= PlainIndices(n)[k] < (n + 1) * (n + 1)
  {
    GridIndicesBound(n, n);
    assert n * (6 * n) == 6 * n * n;
  }

  /** Entries `6(x n + z) .. 6(x n + z) + 5` of the index buffer are cell `(x, z)`'s: cells go in x-then-z order. */
  lemma PlainIndicesCell(n: nat, x: nat, z: nat, j: nat)
    requires x < n && z < n && j < 6
    ensures 6 * (x * n + z) + j < |PlainIndices(n)|
    ensures PlainIndices(n)[6 * (x * n + z) + j] == CellIndices(n, x, z)[j]
  {
    GridIndicesAt(n, n, x, 6 * z + j);
    RowIndicesAt(n, x, n, z, j);
    SlotSplit(n, x, z, j);
  }

  lemma SlotSplit(n: nat, x: nat, z: nat, j: nat)
    ensures 6 * (x * n + z) + j == x * (6 * n) + (6 * z + j)
  {
  }

  /** The last cell's second triangle reaches vertex `(n+1)^2 - 1`. */
  lemma LastIndex(n: nat)
    requires n > 0
    ensures |PlainIndices(n)| == 6 * n * n
    ensures PlainIndices(n)[6 * n * n - 2] == (n + 1) * (n + 1) - 1
  {
    PlainIndicesShape(n);
    var x, z := n - 1, n - 1;
    PlainIndicesCell(n, x, z, 4);
    assert 6 * (x * n + z) + 4 == 6 * n * n - 2;
    CellTriangles(n, x, z);
    assert x * (n + 1) == n * n - 1;
  }

  /**
   * Because the indices depend on `n` alone, they stay inside a vertex buffer of `count`
   * vertices exactly when `count >= (n+1)^2`.
   */
  lemma IndicesFit(n: nat, count: nat)
    requires n > 0
    ensures (forall k :: 0 <= k < |PlainIndices(n)| ==> PlainIndices(n)[k] < count) <==> count >= (n + 1) * (n + 1)
  {
    PlainIndicesShape(n);
    LastIndex(n);
  }

  /**
   * On an `(n+1) x (n+1)` grid: one vertex per sample in row-major order, at
   * `(x + tx, grid[x][z], z + tz)` with uv `(x/n, z/n)` and normal up; `6 n^2` indices, every
   * one naming an existing vertex.
   */
  lemma PlainMeshRect(n: nat, grid: seq<seq<real>>, tx: real, tz: real)
    requires n > 0 && IsRect(grid, n + 1, n + 1)
    ensures var m := PlainMeshOf(n, grid, tx, tz);
      |m.positions| == |m.uvs| == |m.normals| == (n + 1) * (n + 1) &&
      |m.indices| == 6 * n * n &&
      (forall k :: 0 <= k < |m.indices| ==> 0 <= m.indices[k] < |m.positions|)
    ensures var m := PlainMeshOf(n, grid, tx, tz);
      forall x, z :: 0 <= x <= n && 0 <= z <= n && x * (n + 1) + z < |m.positions| ==>
        m.positions[x * (n + 1) + z] == Vec3(x as real + tx, grid[x][z], z as real + tz) &&
        m.uvs[x * (n + 1) + z] == Vec2(x as real / n as real, z as real / n as real) &&
        m.normals[x * (n + 1) + z] == Up
  {
    var m := PlainMeshOf(n, grid, tx, tz);
    PlainMeshCounts(n, grid, tx, tz);
    forall x, z | 0 <= x <= n && 0 <= z <= n && x * (n + 1) + z < |m.positions|
      ensures m.positions[x * (n + 1) + z] == Vec3(x as real + tx, grid[x][z], z as real + tz)
      ensures m.uvs[x * (n + 1) + z] == Vec2(x as real / n as real, z as real / n as real)
      ensures m.normals[x * (n + 1) + z] == Up
    {
      RowMajorAt(grid, PositionAt(tx, tz), n + 1, n + 1, x, z);
      RowMajorAt(grid, UvAt(n), n + 1, n + 1, x, z);
      RowMajorAt(grid, NormalAt(), n + 1, n + 1, x, z);
    }
  }

  lemma PlainMeshCounts(n: nat, grid: seq<seq<real>>, tx: real, tz: real)
    requires n > 0 && IsRect(grid, n + 1, n + 1)
    ensures var m := PlainMeshOf(n, grid, tx, tz);
      |m.positions| == |m.uvs| == |m.normals| == (n + 1) * (n + 1) &&
      |m.indices| == 6 * n * n &&
      (forall k :: 0 <= k < |m.indices| ==> 0 <= m.indices[k] < |m.positions|)
  {
    RowMajorLength(grid, PositionAt(tx, tz), n + 1, n + 1);
    RowMajorLength(grid, UvAt(n), n + 1, n + 1);
    RowMajorLength(grid, NormalAt(), n + 1, n + 1);
    PlainIndicesShape(n);
  }

  /** `create_plain_mesh(plain_size, height_mesh, transform)`: the vertex loops, then the index loops. */
  method CreatePlainMesh(n: nat, grid: seq<seq<real>>, tx: real, tz: real) returns (m: Mesh)
    requires n > 0
    ensures m == PlainMeshOf(n, grid, tx, tz)
  {
    var positions, uvs, normals := FillVertices(n, grid, tx, tz);
    var indices := FillIndices(n);
    m := Mesh(positions, uvs, normals, indices);
  }

  /**
   * `create_plain_mesh(height_mesh, transform)` of src/region.rs and of the noise-show
   * example, fixed at 16 cells: on a 17 x 17 map, 289 vertices at
   * `(x + tx, height, z + tz)` with uv `(x/16, z/16)` and normal up, and 1536 indices all
   * naming one of them.
   */
  method CreatePlainMesh16(heightMesh: seq<seq<real>>, translation: Vec3) returns (m: Mesh)
    ensures m == PlainMeshOf(16, heightMesh, translation.x, translation.z)
    ensures IsRect(heightMesh, 17, 17) ==>
      |m.positions| == |m.uvs| == |m.normals| == 289 && |m.indices| == 1536 &&
      (forall k :: 0 <= k < |m.indices| ==> 0 <= m.indices[k] < 289)
    ensures IsRect(heightMesh, 17, 17) ==>
      forall x, z :: 0 <= x <= 16 && 0 <= z <= 16 && x * 17 + z < |m.positions| ==>
        m.positions[x * 17 + z] == Vec3(x as real + translation.x, heightMesh[x][z], z as real + translation.z) &&
        m.uvs[x * 17 + z] == Vec2(x as real / 16.0, z as real / 16.0) &&
        m.normals[x * 17 + z] == Up
  {
    m := CreatePlainMesh(16, heightMesh, translation.x, translation.z);
    if IsRect(heightMesh, 17, 17) {
      PlainMeshRect(16, heightMesh, translation.x, translation.z);
      forall x, z | 0 <= x <= 16 && 0 <= z <= 16 && x * 17 + z < |m.positions|
        ensures m.positions[x * 17 + z] == Vec3(x as real + translation.x, heightMesh[x][z], z as real + translation.z)
        ensures m.uvs[x * 17 + z] == Vec2(x as real / 16.0, z as real / 16.0)
        ensures m.normals[x * 17 + z] == Up
      {
        assert x * (16 + 1) + z == x * 17 + z;
      }
    }
  }

  /** The first pair of loops: one position, uv and normal per sample, row by row. */
  method FillVertices(n: nat, grid: seq<seq<real>>, tx: real, tz: real) returns (positions: seq<Vec3>, uvs: seq<Vec2>, normals: seq<Vec3>)
    requires n > 0
    ensures positions == RowMajor(grid, PositionAt(tx, tz))
    ensures uvs == RowMajor(grid, UvAt(n))
    ensures normals == RowMajor(grid, NormalAt())
  {
    positions, uvs, normals := [], [], [];
    var xIndex := 0;
    while xIndex < |grid|
      invariant 0 <= xIndex <= |grid|
      invariant positions == RowMajor(grid[..xIndex], PositionAt(tx, tz))
      invariant uvs == RowMajor(grid[..xIndex], UvAt(n))
      invariant normals == RowMajor(grid[..xIndex], NormalAt())
    {
      var zList := grid[xIndex];
      var zIndex := 0;
      while zIndex < |zList|
        invariant 0 <= zIndex <= |zList|
        invariant positions == RowMajor(grid[..xIndex], PositionAt(tx, tz)) + RowCells(xIndex, zList[..zIndex], PositionAt(tx, tz))
        invariant uvs == RowMajor(grid[..xIndex], UvAt(n)) + RowCells(xIndex, zList[..zIndex], UvAt(n))
        invariant normals == RowMajor(grid[..xIndex], NormalAt()) + RowCells(xIndex, zList[..zIndex], NormalAt())
      {
        var yHeight := zList[zIndex];
        positions := positions + [Vec3(xIndex as real + tx, yHeight, zIndex as real + tz)];
        uvs := uvs + [Vec2(xIndex as real / n as real, zIndex as real / n as real)];
        normals := normals + [Up];
        RowCellsSnoc(xIndex, zList, zIndex, PositionAt(tx, tz));
        RowCellsSnoc(xIndex, zList, zIndex, UvAt(n));
        RowCellsSnoc(xIndex, zList, zIndex, NormalAt());
        zIndex := zIndex + 1;
      }
      assert zList[..|zList|] == zList;
      RowMajorSnoc(grid, xIndex, PositionAt(tx, tz));
      RowMajorSnoc(grid, xIndex, UvAt(n));
      RowMajorSnoc(grid, xIndex, NormalAt());
      xIndex := xIndex + 1;
    }
    assert grid[..|grid|] == grid;
  }

  /** The second pair of loops: the six offsets added to `x * (n + 1) + z` for every cell. */
  method FillIndices(n: nat) returns (indices: seq<int>)
    ensures indices == PlainIndices(n)
  {
    indices := [];
    var x := 0;
    while x < n
      invariant 0 <= x <= n
      invariant indices == GridIndices(n, x)
    {
      var z := 0;
      while z < n
        invariant 0 <= z <= n
        invariant indices == GridIndices(n, x) + RowIndices(n, x, z)
      {
        var startIndex := x * (n + 1) + z;
        var offsets := [0, 1, n + 1, 1, n + 2, n + 1];
        var shortIndices := seq(6, j requires 0 <= j < 6 => offsets[j] + startIndex);
        assert offsets == CellOffsets(n);
        assert shortIndices == CellIndices(n, x, z);
        indices := indices + shortIndices;
        z := z + 1;
      }
      x := x + 1;
    }
  }
}
