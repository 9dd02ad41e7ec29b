/**
 * The map example (examples/map/main.rs): a 128 x 128 cell surface whose 129 x 129 heights
 * come from Perlin noise sampled over the unit square, scaled by 500.
 */
module MapExample {
  import opened Geometry
  import opened Grid
  import opened GridSurface

  /** `Perlin::new(1).get([x, z])`, an external deterministic function. */
  type Perlin = (real, real) -> real

  const PlainSize: nat := 128

  /** `get_height`: the noise value times 500, so Perlin's `[-1, 1]` becomes `[-500, 500]`. */
  function GetHeight(perlin: Perlin, x: real, z: real): (h: real)
    ensures -1.0 <= perlin(x, z) <= 1.0 ==> -500.0 <= h <= 500.0
    ensures h == 0.0 <==> perlin(x, z) == 0.0
    ensures h > 0.0 <==> perlin(x, z) > 0.0
  {
    perlin(x, z) * 500.0
  }

  /** `plain_x as f64 / plain_size as f64`: sample coordinate of grid line `i`. */
  function BlockCoord(i: nat): real {
    i as real / PlainSize as real
  }

  /** Grid lines `0 ..= 128` sample the unit square from edge to edge, in increasing order. */
  lemma BlockCoordRange(i: nat, j: nat)
    requires i <= j <= PlainSize
    ensures 0.0 <= BlockCoord(i) <= BlockCoord(j) <= 1.0
    ensures BlockCoord(i) == 0.0 <==> i == 0
    ensures BlockCoord(j) == 1.0 <==> j == PlainSize
  {
  }

  /**
   * The nested loops of `startup`: 129 rows of 129 heights, row `i`, column `j` holding the
   * height at `(i/128, j/128)`.
   */
  method StartupHeights(perlin: Perlin) returns (plainHeight: seq<seq<real>>)
    ensures IsRect(plainHeight, PlainSize + 1, PlainSize + 1)
    ensures forall i, j :: 0 <= i <= PlainSize && 0 <= j <= PlainSize ==>
      plainHeight[i][j] == GetHeight(perlin, BlockCoord(i), BlockCoord(j))
  {
    plainHeight := [];
    var plainX := 0;
    while plainX <= PlainSize
      invariant 0 <= plainX <= PlainSize + 1
      invariant IsRect(plainHeight, plainX, PlainSize + 1)
      invariant forall i, j :: 0 <= i < plainX && 0 <= j <= PlainSize ==>
        plainHeight[i][j] == GetHeight(perlin, BlockCoord(i), BlockCoord(j))
    {
      var zHeight: seq<real> := [];
      var plainZ := 0;
      while plainZ <= PlainSize
        invariant 0 <= plainZ <= PlainSize + 1
        invariant |zHeight| == plainZ
        invariant forall j :: 0 <= j < plainZ ==> zHeight[j] == GetHeight(perlin, BlockCoord(plainX), BlockCoord(j))
      {
        var blockX := plainX as real / PlainSize as real;
        var blockZ := plainZ as real / PlainSize as real;
        var height := GetHeight(perlin, blockX, blockZ);
        zHeight := zHeight + [height];
        plainZ := plainZ + 1;
      }
      plainHeight := plainHeight + [zHeight];
      plainX := plainX + 1;
    }
  }

  /**
   * `startup`'s mesh: the generic surface builder with `plain_size = 128` at the origin over the
   * 129 x 129 heights: 16641 vertices, 98304 indices, every index naming a vertex, and vertex
   * `x * 129 + z` at `(x, height, z)`.
   */
  method Startup(perlin: Perlin) returns (m: Mesh)
    ensures |m.positions| == |m.uvs| == |m.normals| == 16641 && |m.indices| == 98304
    ensures forall k :: 0 <= k < |m.indices| ==> 0 <= m.indices[k] < 16641
    ensures forall x, z :: 0 <= x <= PlainSize && 0 <= z <= PlainSize && x * (PlainSize + 1) + z < |m.positions| ==>
      m.positions[x * (PlainSize + 1) + z] == Vec3(x as real, GetHeight(perlin, BlockCoord(x), BlockCoord(z)), z as real)
  {
    var plainHeight := StartupHeights(perlin);
    m := CreatePlainMesh(PlainSize, plainHeight, 0.0, 0.0);
    PlainMeshRect(PlainSize, plainHeight, 0.0, 0.0);
  }
}
