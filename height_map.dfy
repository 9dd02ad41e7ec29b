/**
 * `NormalGenerator` of src/block_provider/normal.rs: height maps quantised from fractal noise,
 * and the cube and instance layouts built over them. The `Triangle` operators the file relies
 * on (`from_mesh`, `new`, `+`, `* Transform`, `* Vec<Transform>`) and `generate_tangents` are
 * defined outside the modelled code; they are parameters here (`CubeOps`), and nothing is
 * assumed about them.
 */
module NormalGenerator {
  import opened Geometry
  import opened Grid
  import opened Noise
  import opened Triangles

  /** `plain_size`: a region is 16 by 16 cells. */
  const PlainSize: nat := 16

  /** `Transform::from_xyz(..)` and `.with_scale(..)`. */
  datatype Transform = Transform(translation: Vec3, scale: Vec3)

  /** The `Triangle` operators and the tangent step used by normal.rs. */
  datatype CubeOps = CubeOps(
    unitCube: Triangle,                           // Triangle::from_mesh(Cuboid 1 x 1 x 1)
    transform: (Triangle, Transform) -> Triangle, // tri * transform
    instances: (Triangle, seq<Transform>) -> Triangle, // tri * transforms
    empty: Triangle,                              // Triangle::new([], [], [])
    add: (Triangle, Triangle) -> Triangle,        // r + tri
    tangentsOk: Triangle -> bool)                 // generate_tangents() succeeds

  /** The noise request for region `(rx, rz)` with `size * size` samples. */
  function RegionCall(rx: int, rz: int, size: nat): NoiseCall {
    Fbm2dOffset((rz * PlainSize) as real, size, (rx * PlainSize) as real, size, Some(1), Some(0.01), Raw)
  }

  lemma SlotBound(size: nat, i: nat, j: nat)
    requires i < size && j < size
    ensures size * i + j < size * size
  {
    MulMonotone(i + 1, size, size);
  }

  /** `.map(|item| (item * 200f32).floor())` over the generated vector. */
  function Quantized(sample: Sampler, call: NoiseCall): seq<real> {
    var heights := Generate(sample, call);
    seq(|heights|, k requires 0 <= k < |heights| => Quantize(heights[k]))
  }

  /** `size * size` quantised samples chunked by `size`: value `size * i + j` lands in row `i`, column `j`. */
  lemma QuantizedRows(sample: Sampler, call: NoiseCall, size: nat)
    requires size > 0 && call.width == size && call.height == size
    ensures IsRect(Chunks(Quantized(sample, call), size), size, size)
    ensures forall i, j :: 0 <= i < size && 0 <= j < size ==>
      Chunks(Quantized(sample, call), size)[i][j] == Quantize(sample(call, size * i + j))
  {
    var q := Quantized(sample, call);
    ChunksExact(q, size, size);
    forall i, j | 0 <= i < size && 0 <= j < size
      ensures Chunks(q, size)[i][j] == Quantize(sample(call, size * i + j))
    {
      SlotBound(size, i, j);
    }
  }

  /** Quantised samples split into rows of `size`: the pipeline shared by both generators. */
  function HeightMap(sample: Sampler, rx: int, rz: int, size: nat): (g: seq<seq<real>>)
    requires size > 0
    ensures IsRect(g, size, size)
    ensures forall i, j :: 0 <= i < size && 0 <= j < size ==>
      g[i][j] == Quantize(sample(Fbm2dOffset((rz * 16) as real, size, (rx * 16) as real, size, Some(1), Some(0.01), Raw), size * i + j))
  {
    QuantizedRows(sample, RegionCall(rx, rz, size), size);
    Chunks(Quantized(sample, RegionCall(rx, rz, size)), size)
  }

  /**
   * `height_map_by_region`: 16 rows of 16 heights, value `16 * i + j` of the noise vector in
   * row `i`, column `j`, quantised; `region_z * 16` is the first noise offset and
   * `region_x * 16` the second. `region_y` does not occur.
   */
  function HeightMapByRegion(sample: Sampler, rx: int, ry: int, rz: int): (g: seq<seq<real>>)
    ensures IsRect(g, 16, 16)
    ensures forall i, j :: 0 <= i < 16 && 0 <= j < 16 ==>
      g[i][j] == Quantize(sample(Fbm2dOffset((rz * 16) as real, 16, (rx * 16) as real, 16, Some(1), Some(0.01), Raw), 16 * i + j))
  {
    HeightMap(sample, rx, rz, PlainSize)
  }

  /** `get_map_height`: the same pipeline with 17 rows of 17 heights (one shared edge). */
  function GetMapHeight(sample: Sampler, rx: int, rz: int): (g: seq<seq<real>>)
    ensures IsRect(g, 17, 17)
    ensures forall i, j :: 0 <= i < 17 && 0 <= j < 17 ==>
      g[i][j] == Quantize(sample(Fbm2dOffset((rz * 16) as real, 17, (rx * 16) as real, 17, Some(1), Some(0.01), Raw), 17 * i + j))
  {
    HeightMap(sample, rx, rz, PlainSize + 1)
  }

  /** `generate_height_map` passes `0` for `region_y`: the result never depends on it. */
  function GenerateHeightMap(sample: Sampler, rx: int, ry: int, rz: int): (g: seq<seq<real>>)
    ensures g == HeightMapByRegion(sample, rx, 0, rz) && g == HeightMapByRegion(sample, rx, ry, rz)
  {
    HeightMapByRegion(sample, rx, 0, rz)
  }

  /** The per-vertex uv remap of a cube at `(xIndex, zIndex)`; the third component is untouched. */
  function UvRemap(p: Vec3, xIndex: nat, zIndex: nat): Vec3 {
    Vec3(p.x / 16.0 + xIndex as real / 16.0, p.y / 16.0 + zIndex as real / 16.0, p.z)
  }

  /** A uv inside the unit square lands inside tile `(xIndex, zIndex)` of a 16 by 16 atlas. */
  lemma UvTile(p: Vec3, xIndex: nat, zIndex: nat)
    requires 0.0 <= p.x <= 1.0 && 0.0 <= p.y <= 1.0
    ensures xIndex as real / 16.0 <= UvRemap(p, xIndex, zIndex).x <= (xIndex + 1) as real / 16.0
    ensures zIndex as real / 16.0 <= UvRemap(p, xIndex, zIndex).y <= (zIndex + 1) as real / 16.0
    ensures UvRemap(p, xIndex, zIndex).z == p.z
  {
  }

  /** `cube_mesh.uv.iter_mut().for_each(..)`: rewrites every uv in place. */
  method RemapUvs(uv: array<Vec3>, xIndex: nat, zIndex: nat)
    modifies uv
    ensures forall k :: 0 <= k < uv.Length ==> uv[k] == UvRemap(old(uv[k]), xIndex, zIndex)
  {
    var k := 0;
    while k < uv.Length
      invariant 0 <= k <= uv.Length
      invariant forall i :: 0 <= i < k ==> uv[i] == UvRemap(old(uv[i]), xIndex, zIndex)
      invariant forall i :: k <= i < uv.Length ==> uv[i] == old(uv[i])
    {
      uv[k] := UvRemap(uv[k], xIndex, zIndex);
      k := k + 1;
    }
  }

  /** The unit cube with its uvs remapped into tile `(xIndex, zIndex)`. */
  function RemappedCube(cube: Triangle, xIndex: nat, zIndex: nat): Triangle {
    cube.(uv := seq(|cube.uv|, k requires 0 <= k < |cube.uv| => UvRemap(cube.uv[k], xIndex, zIndex)))
  }

  /** The cube `create_cube_mesh` emits for cell `(x, z)` of height `h`. */
  function CubeAt(ops: CubeOps): (nat, nat, real) -> Triangle {
    (x: nat, z: nat, h: real) =>
      ops.transform(RemappedCube(ops.unitCube, x, z), Transform(Vec3(x as real, h, z as real), Vec3(1.0, 1.0, 1.0)))
  }

  /** All cubes, over the first 16 rows and the first 16 columns of each. */
  function CubeLayout(heightMesh: seq<seq<real>>, ops: CubeOps): seq<Triangle> {
    RowMajor(Crop(heightMesh, PlainSize), CubeAt(ops))
  }

  /** `r = r + tri` over the cubes, from the empty triangle. */
  function Merged(ops: CubeOps, tris: seq<Triangle>): Triangle
    decreases |tris|
  {
    if tris == [] then ops.empty else ops.add(Merged(ops, tris[..|tris| - 1]), tris[|tris| - 1])
  }

  /**
   * `create_cube_mesh` (without the final `build`): one remapped, translated cube per cell of the
   * cropped grid, in row-major order, merged left to right.
   */
  method CreateCubeMesh(heightMesh: seq<seq<real>>, ops: CubeOps) returns (r: Triangle)
    ensures r == Merged(ops, CubeLayout(heightMesh, ops))
  {
    var grid := Crop(heightMesh, PlainSize);
    var cubeTriangles: seq<Triangle> := [];
    var xIndex := 0;
    while xIndex < |grid|
      invariant 0 <= xIndex <= |grid|
      invariant cubeTriangles == RowMajor(grid[..xIndex], CubeAt(ops))
    {
      var zList := grid[xIndex];
      var zIndex := 0;
      while zIndex < |zList|
        invariant 0 <= zIndex <= |zList|
        invariant cubeTriangles == RowMajor(grid[..xIndex], CubeAt(ops)) + RowCells(xIndex, zList[..zIndex], CubeAt(ops))
      {
        var y := zList[zIndex];
        var cube := ops.unitCube;
        var uv := new Vec3[|cube.uv|](k requires 0 <= k < |cube.uv| => cube.uv[k]);
        RemapUvs(uv, xIndex, zIndex);
        var cubeMesh := cube.(uv := uv[..]);
        assert cubeMesh == RemappedCube(cube, xIndex, zIndex);
        cubeTriangles := cubeTriangles + [ops.transform(cubeMesh, Transform(Vec3(xIndex as real, y, zIndex as real), Vec3(1.0, 1.0, 1.0)))];
        RowCellsSnoc(xIndex, zList, zIndex, CubeAt(ops));
        zIndex := zIndex + 1;
      }
      assert zList[..|zList|] == zList;
      RowMajorSnoc(grid, xIndex, CubeAt(ops));
      xIndex := xIndex + 1;
    }
    assert grid[..|grid|] == grid;
    r := ops.empty;
    var i := 0;
    while i < |cubeTriangles|
      invariant 0 <= i <= |cubeTriangles|
      invariant r == Merged(ops, cubeTriangles[..i])
    {
      assert cubeTriangles[..i + 1][..i] == cubeTriangles[..i];
      r := ops.add(r, cubeTriangles[i]);
      i := i + 1;
    }
    assert cubeTriangles[..|cubeTriangles|] == cubeTriangles;
  }

  /**
   * On a grid of at least 16 by 16 (a 17 by 17 map included) there are exactly 256 cubes, cube
   * `16 * x + z` sitting at `(x, height, z)` with its uvs in tile `(x, z)`.
   */
  lemma CubeLayoutAt(heightMesh: seq<seq<real>>, ops: CubeOps, rows: nat, cols: nat, x: nat, z: nat)
    requires IsRect(heightMesh, rows, cols) && 16 <= rows && 16 <= cols && x < 16 && z < 16
    ensures |CubeLayout(heightMesh, ops)| == 256
    ensures 16 * x + z < 256
    ensures CubeLayout(heightMesh, ops)[16 * x + z] ==
      ops.transform(RemappedCube(ops.unitCube, x, z), Transform(Vec3(x as real, heightMesh[x][z], z as real), Vec3(1.0, 1.0, 1.0)))
  {
    CropRect(heightMesh, PlainSize, rows, cols);
    RowMajorAt(Crop(heightMesh, PlainSize), CubeAt(ops), 16, 16, x, z);
  }

  /** `region_by_block` either returns the merged mesh or aborts in `expect`. */
  datatype BlockResult = Block(mesh: Triangle) | Aborted

  /**
   * `region_by_block`: the cube mesh of the 17 by 17 map (its last row and column unused);
   * a failing `generate_tangents` aborts instead of returning an error.
   */
  method RegionByBlock(sample: Sampler, rx: int, rz: int, ops: CubeOps) returns (r: BlockResult)
    ensures r.Block? <==> ops.tangentsOk(Merged(ops, CubeLayout(GetMapHeight(sample, rx, rz), ops)))
    ensures r.Block? ==> r.mesh == Merged(ops, CubeLayout(GetMapHeight(sample, rx, rz), ops))
  {
    var plainHeight := GetMapHeight(sample, rx, rz);
    var mesh := CreateCubeMesh(plainHeight, ops);
    if ops.tangentsOk(mesh) {
      r := Block(mesh);
    } else {
      r := Aborted;
    }
  }

  /** `generate_block` ignores `region_y`. */
  method GenerateBlock(sample: Sampler, rx: int, ry: int, rz: int, ops: CubeOps) returns (r: BlockResult)
    ensures r.Block? <==> ops.tangentsOk(Merged(ops, CubeLayout(GetMapHeight(sample, rx, rz), ops)))
    ensures r.Block? ==> r.mesh == Merged(ops, CubeLayout(GetMapHeight(sample, rx, rz), ops))
  {
    r := RegionByBlock(sample, rx, rz, ops);
  }

  /** The transform `region_by_mesh` emits for cell `(x, z)`: at `(x, h, z)`, scaled by 1.3. */
  function BlockAt(): (nat, nat, real) -> Transform {
    (x: nat, z: nat, h: real) => Transform(Vec3(x as real, h, z as real), Vec3(1.3, 1.3, 1.3))
  }

  /** The loops of `region_by_mesh`: one transform per cell of the 16 by 16 crop. */
  method BlockTransforms(plainHeight: seq<seq<real>>) returns (blockTris: seq<Transform>)
    ensures blockTris == RowMajor(Crop(plainHeight, PlainSize), BlockAt())
  {
    var grid := Crop(plainHeight, PlainSize);
    blockTris := [];
    var xIndex := 0;
    while xIndex < |grid|
      invariant 0 <= xIndex <= |grid|
      invariant blockTris == RowMajor(grid[..xIndex], BlockAt())
    {
      var zList := grid[xIndex];
      var zIndex := 0;
      while zIndex < |zList|
        invariant 0 <= zIndex <= |zList|
        invariant blockTris == RowMajor(grid[..xIndex], BlockAt()) + RowCells(xIndex, zList[..zIndex], BlockAt())
      {
        var y := zList[zIndex];
        blockTris := blockTris + [Transform(Vec3(xIndex as real, y, zIndex as real), Vec3(1.3, 1.3, 1.3))];
        RowCellsSnoc(xIndex, zList, zIndex, BlockAt());
        zIndex := zIndex + 1;
      }
      assert zList[..|zList|] == zList;
      RowMajorSnoc(grid, xIndex, BlockAt());
      xIndex := xIndex + 1;
    }
    assert grid[..|grid|] == grid;
  }

  /**
   * `region_by_mesh` (without `build`): the given mesh instanced once per cell of the map:
   * 256 transforms, transform `16 * x + z` placing it at `(x, height, z)` scaled by 1.3.
   */
  method RegionByMesh(sample: Sampler, rx: int, rz: int, block: Triangle, ops: CubeOps) returns (r: Triangle, blockTris: seq<Transform>)
    ensures r == ops.instances(block, blockTris)
    ensures |blockTris| == 256
    ensures forall x, z :: 0 <= x < 16 && 0 <= z < 16 ==>
      16 * x + z < 256 && blockTris[16 * x + z] == Transform(Vec3(x as real, GetMapHeight(sample, rx, rz)[x][z], z as real), Vec3(1.3, 1.3, 1.3))
  {
    var plainHeight := GetMapHeight(sample, rx, rz);
    blockTris := BlockTransforms(plainHeight);
    CropRect(plainHeight, PlainSize, 17, 17);
    RowMajorLength(Crop(plainHeight, PlainSize), BlockAt(), 16, 16);
    forall x, z | 0 <= x < 16 && 0 <= z < 16
      ensures 16 * x + z < 256 && blockTris[16 * x + z] == BlockAt()(x, z, plainHeight[x][z])
    {
      RowMajorAt(Crop(plainHeight, PlainSize), BlockAt(), 16, 16, x, z);
    }
    r := ops.instances(block, blockTris);
  }
}
