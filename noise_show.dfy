/**
 * The noise-show example (examples/noise-show/main.rs): a single 16 x 16 surface patch whose
 * noise window the W, A, S, D keys shift by one unit at a time. Every frame the patch is
 * rebuilt for the current offset.
 */
module NoiseShow {
  import opened Geometry
  import opened Grid
  import opened Noise
  import opened GridSurface

  /** The request `get_mesh` makes: the raw offsets (not times 16), seed 1, scaled to `[0, 10]`. */
  function ShowCall(rx: int, rz: int): NoiseCall {
    Fbm2dOffset(rx as real, 17, rz as real, 17, Some(1), None, ScaledTo(0.0, 10.0))
  }

  /** `heights.chunks(17)`: 17 rows of 17 samples, sample `17 * i + j` in row `i`, column `j`. */
  lemma ShowRows(sample: Sampler, rx: int, rz: int)
    ensures IsRect(Chunks(Generate(sample, ShowCall(rx, rz)), 17), 17, 17)
    ensures forall i, j :: 0 <= i < 17 && 0 <= j < 17 ==>
      Chunks(Generate(sample, ShowCall(rx, rz)), 17)[i][j] == sample(ShowCall(rx, rz), 17 * i + j)
  {
    var heights := Generate(sample, ShowCall(rx, rz));
    ChunksExact(heights, 17, 17);
  }

  /**
   * The mesh `get_mesh(region_x, region_z)` builds: 289 vertices, vertex `k` (row `k / 17`,
   * column `k % 17`) at `(k / 17 - 8, sample k, k % 17 - 8)` with uv `(k/17 / 16, k%17 / 16)` and
   * normal up, and 1536 indices all naming one of them.
   */
  function ShowMesh(sample: Sampler, rx: int, rz: int): (m: Mesh)
    ensures |m.positions| == |m.uvs| == |m.normals| == 289 && |m.indices| == 1536
    ensures forall k :: 0 <= k < |m.indices| ==> 0 <= m.indices[k] < 289
    ensures forall k :: 0 <= k < 289 ==>
      m.positions[k] == Vec3((k / 17) as real - 8.0, sample(ShowCall(rx, rz), k), (k % 17) as real - 8.0) &&
      m.uvs[k] == Vec2((k / 17) as real / 16.0, (k % 17) as real / 16.0) &&
      m.normals[k] == Up
  {
    var grid := Chunks(Generate(sample, ShowCall(rx, rz)), 17);
    ShowRows(sample, rx, rz);
    PlainMeshCounts(16, grid, -8.0, -8.0);
    var m := PlainMeshOf(16, grid, -8.0, -8.0);
    assert forall k :: 0 <= k < 289 ==>
      m.positions[k] == Vec3((k / 17) as real - 8.0, sample(ShowCall(rx, rz), k), (k % 17) as real - 8.0) &&
      m.uvs[k] == Vec2((k / 17) as real / 16.0, (k % 17) as real / 16.0) &&
      m.normals[k] == Up
    by {
      forall k | 0 <= k < 289
        ensures m.positions[k] == Vec3((k / 17) as real - 8.0, sample(ShowCall(rx, rz), k), (k % 17) as real - 8.0)
        ensures m.uvs[k] == Vec2((k / 17) as real / 16.0, (k % 17) as real / 16.0)
        ensures m.normals[k] == Up
      {
        var i, j := k / 17, k % 17;
        assert i * 17 + j == k && 17 * i + j == k;
        RowMajorAt(grid, PositionAt(-8.0, -8.0), 17, 17, i, j);
        RowMajorAt(grid, UvAt(16), 17, 17, i, j);
        RowMajorAt(grid, NormalAt(), 17, 17, i, j);
      }
    }
    m
  }

  /** `get_mesh`: the chunking pipeline, then the fixed-16 surface builder at `(-8, 0, -8)`. */
  method GetMesh(sample: Sampler, regionX: int, regionZ: int) returns (m: Mesh)
    ensures m == ShowMesh(sample, regionX, regionZ)
  {
    var plainHeight := Chunks(Generate(sample, ShowCall(regionX, regionZ)), 17);
    m := CreatePlainMesh16(plainHeight, Vec3(-8.0, 0.0, -8.0));
  }

  /** A key pair's effect on one axis: `-1` for the first key, `+1` for the second, both cancel. */
  function Axis(negative: bool, positive: bool): (d: int)
    ensures d == 0 <==> negative == positive
    ensures d == 1 <==> positive && !negative
    ensures d == -1 <==> negative && !positive
  {
    (if positive then 1 else 0) - (if negative then 1 else 0)
  }

  /** The `OffsetXZ` resource and the meshes of the `ViewRegion` entities. */
  class Scene {
    var offsetX: int
    var offsetZ: int
    var views: seq<Mesh>

    /** `startup`: one patch for offset `(0, 0)` and the resource at `(0, 0)`. */
    constructor (sample: Sampler)
      ensures offsetX == 0 && offsetZ == 0
      ensures views == [ShowMesh(sample, 0, 0)]
    {
      var plainHeight := GetMesh(sample, 0, 0);
      offsetX, offsetZ := 0, 0;
      views := [plainHeight];
    }

    /**
     * `handle_keyboard_controls`: W and S move z down and up, A and D move x down and up; then
     * every view entity is despawned and exactly one patch spawned for the new offset.
     */
    method HandleKeyboardControls(sample: Sampler, keyW: bool, keyS: bool, keyA: bool, keyD: bool)
      modifies this
      ensures offsetZ == old(offsetZ) + Axis(keyW, keyS)
      ensures offsetX == old(offsetX) + Axis(keyA, keyD)
      ensures views == [ShowMesh(sample, offsetX, offsetZ)]
    {
      var x, z := offsetX, offsetZ;
      if keyW {
        z := z - 1;
      }
      if keyS {
        z := z + 1;
      }
      if keyA {
        x := x - 1;
      }
      if keyD {
        x := x + 1;
      }
      offsetX, offsetZ := x, z;
      var plainHeight := GetMesh(sample, x, z);
      views := [plainHeight];
    }
  }
}
