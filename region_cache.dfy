/**
 * The region streaming cache of src/region.rs. Each tick `region_update` turns the player's
 * position into a region coordinate, despawns the `ViewRegion` records farther than 9 regions
 * and the `RigidRegion` records farther than 4 regions (Chebyshev distance in x and z), and
 * spawns one record for every `(x, z)` of the surrounding 19 x 19 and 9 x 9 squares that the
 * pre-tick records do not already cover. Records are kept as sets of coordinates; the mesh,
 * material, collider and transform attached to each spawned entity are described separately.
 */
module RegionCache {
  import opened Geometry
  import opened Grid
  import opened Noise
  import NormalGenerator

  /** The `block_x`, `block_y`, `block_z` of a `ViewRegion` or a `RigidRegion` record. */
  datatype Region = Region(x: int, y: int, z: int)

  /** `view_circle` and `rigid_circle`. */
  const ViewCircle: int := 9
  const RigidCircle: int := 4

  const I32Min: int := -0x8000_0000
  const I32Max: int := 0x7fff_ffff

  function Abs(a: int): int {
    if a < 0 then -a else a
  }

  /** `in_region`: within `region` of the player in x and in z; the y coordinates are ignored. */
  function InRegion(blockX: int, blockY: int, blockZ: int, px: int, py: int, pz: int, region: int): (b: bool)
    ensures b <==> px - region <= blockX <= px + region && pz - region <= blockZ <= pz + region
  {
    Abs(blockX - px) <= region && Abs(blockZ - pz) <= region
  }

  /** Rounding toward zero of a real. */
  function Trunc(t: real): int {
    if t >= 0.0 then t.Floor else -((-t).Floor)
  }

  /** Rust's `f32 as i32`: rounds toward zero and saturates at the bounds of `i32`. */
  function CastToI32(t: real): (i: int)
    ensures I32Min <= i <= I32Max
    ensures t >= 0.0 ==> 0 <= i && i as real <= t && (t < I32Max as real + 1.0 ==> t < i as real + 1.0)
    ensures t <= 0.0 ==> i <= 0 && t <= i as real && (t > I32Min as real - 1.0 ==> i as real - 1.0 < t)
    ensures t >= I32Max as real ==> i == I32Max
    ensures t <= I32Min as real ==> i == I32Min
  {
    var i := Trunc(t);
    if i < I32Min then I32Min else if i > I32Max then I32Max else i
  }

  /** Rust's `i32 / 16`: the quotient rounds toward zero, not down. */
  function TruncDiv16(a: int): (q: int)
    ensures 16 * Abs(q) <= Abs(a) < 16 * Abs(q) + 16
    ensures a >= 0 ==> q >= 0
    ensures a <= 0 ==> q <= 0
  {
    if a >= 0 then a / 16 else -((-a) / 16)
  }

  /**
   * `translation as i32 / 16` on one axis. Region `r > 0` covers positions `[16r, 16r + 16)`,
   * region `r < 0` covers `(16r - 16, 16r]`, so region 0 covers `(-16, 16)`; far positions
   * fall into the saturated regions `i32::MAX / 16` and `i32::MIN / 16`.
   */
  function PlayerRegion(t: real): (r: int)
    ensures t >= 0.0 ==> r >= 0
    ensures t <= 0.0 ==> r <= 0
    ensures 0.0 <= t < I32Max as real + 1.0 ==> (16 * r) as real <= t < (16 * r + 16) as real
    ensures I32Min as real - 1.0 < t <= 0.0 ==> (16 * r - 16) as real < t <= (16 * r) as real
    ensures t >= I32Max as real ==> r == 0x7ff_ffff
    ensures t <= I32Min as real ==> r == -0x800_0000
  {
    TruncDiv16(CastToI32(t))
  }

  /** Every coordinate strictly between -16 and 16, negative ones included, is in region 0. */
  lemma PlayerRegionZeroBand(t: real)
    requires -16.0 < t < 16.0
    ensures PlayerRegion(t) == 0
  {
    var i := CastToI32(t);
    assert -16 < i < 16;
  }

  /** Positions 16 and -16 already leave region 0: the band of region 0 is open at both ends. */
  lemma PlayerRegionBandEdges()
    ensures PlayerRegion(16.0) == 1 && PlayerRegion(-16.0) == -1
    ensures PlayerRegion(31.5) == 1 && PlayerRegion(-31.5) == -1
  {
  }

  /** Away from the saturation bounds, mirroring the position mirrors the region. */
  lemma PlayerRegionSymmetric(t: real)
    requires I32Min as real < t < I32Max as real
    ensures PlayerRegion(-t) == -PlayerRegion(t)
  {
    assert CastToI32(-t) == -CastToI32(t);
  }

  /** The `(block_x, block_z)` pairs of a set of records. */
  function Coords(records: set<Region>): set<(int, int)> {
    set r | r in records :: (r.x, r.z)
  }

  /** The square of side `2r + 1` around `(px, pz)`. */
  function Square(px: int, pz: int, r: int): set<(int, int)> {
    set x: int, z: int | px - r <= x <= px + r && pz - r <= z <= pz + r :: (x, z)
  }

  /** Some record has this `block_x` and `block_z` (the `fit_num` filter matches). */
  predicate Occupied(records: set<Region>, x: int, z: int) {
    exists rec :: rec in records && rec.x == x && rec.z == z
  }

  /** The records the eviction loop leaves alone. */
  function Kept(records: set<Region>, px: int, py: int, pz: int, r: int): set<Region> {
    set rec | rec in records && InRegion(rec.x, rec.y, rec.z, px, py, pz, r)
  }

  /** New records for the unoccupied cells of columns `x0 .. x1 - 1` and rows `z0 .. z1 - 1`. */
  function SpawnRect(snapshot: set<Region>, x0: int, x1: int, z0: int, z1: int): set<Region> {
    set x: int, z: int | x0 <= x < x1 && z0 <= z < z1 && !Occupied(snapshot, x, z) :: Region(x, 0, z)
  }

  /** The records the spawn loops add around `(px, pz)`, checked against `snapshot`. */
  function Spawns(snapshot: set<Region>, px: int, pz: int, r: int): set<Region> {
    SpawnRect(snapshot, px - r, px + r + 1, pz - r, pz + r + 1)
  }

  /** One kind of record after a tick: what eviction keeps, plus what spawning adds if it runs. */
  function Step(records: set<Region>, px: int, py: int, pz: int, r: int, spawn: bool): set<Region> {
    Kept(records, px, py, pz, r) + (if spawn then Spawns(records, px, pz, r) else {})
  }

  /** View records after a tick: spawning only runs when the glTF asset chain yields a mesh. */
  function NextViews(views: set<Region>, px: int, py: int, pz: int, assetLoaded: bool): set<Region> {
    Step(views, px, py, pz, ViewCircle, assetLoaded)
  }

  /** Rigid records after a tick: spawning always runs. */
  function NextRigids(rigids: set<Region>, px: int, py: int, pz: int): set<Region> {
    Step(rigids, px, py, pz, RigidCircle, true)
  }

  /** A spawned record has `block_y == 0`, lies in the square and covers a cell nobody covered. */
  lemma SpawnsFresh(snapshot: set<Region>, px: int, pz: int, r: int, rec: Region)
    requires rec in Spawns(snapshot, px, pz, r)
    ensures rec.y == 0 && (rec.x, rec.z) in Square(px, pz, r)
    ensures !Occupied(snapshot, rec.x, rec.z) && rec !in snapshot
  {
    var x, z :| px - r <= x < px + r + 1 && pz - r <= z < pz + r + 1 && !Occupied(snapshot, x, z) && rec == Region(x, 0, z);
    assert (x, z) in Square(px, pz, r);
  }

  /** A cell of the square is spawned exactly when no pre-tick record covers it. */
  lemma SpawnsExactly(snapshot: set<Region>, px: int, pz: int, r: int, x: int, z: int)
    requires (x, z) in Square(px, pz, r)
    ensures Region(x, 0, z) in Spawns(snapshot, px, pz, r) <==> !Occupied(snapshot, x, z)
  {
  }

  /**
   * Coverage: after a tick that spawns, whatever the records were, their cells are exactly the
   * square around the player.
   */
  lemma {:induction false} StepCoverage(records: set<Region>, px: int, py: int, pz: int, r: int)
    ensures Coords(Step(records, px, py, pz, r, true)) == Square(px, pz, r)
  {
    var after := Step(records, px, py, pz, r, true);
    forall c | c in Coords(after)
      ensures c in Square(px, pz, r)
    {
      var rec :| rec in after && c == (rec.x, rec.z);
      if rec in Spawns(records, px, pz, r) {
        SpawnsFresh(records, px, pz, r, rec);
      }
    }
    forall c | c in Square(px, pz, r)
      ensures c in Coords(after)
    {
      var (x, z) := c;
      if Occupied(records, x, z) {
        var rec :| rec in records && rec.x == x && rec.z == z;
        assert rec in Kept(records, px, py, pz, r);
        assert (rec.x, rec.z) in Coords(after);
      } else {
        assert Region(x, 0, z) in Spawns(records, px, pz, r);
        assert (Region(x, 0, z).x, Region(x, 0, z).z) in Coords(after);
      }
    }
  }

  /** Without spawning, a tick only removes records, and what remains lies in the square. */
  lemma StepWithoutSpawn(records: set<Region>, px: int, py: int, pz: int, r: int)
    ensures Step(records, px, py, pz, r, false) <= records
    ensures Coords(Step(records, px, py, pz, r, false)) <= Square(px, pz, r)
  {
    var after := Step(records, px, py, pz, r, false);
    forall c | c in Coords(after)
      ensures c in Square(px, pz, r)
    {
      var rec :| rec in after && c == (rec.x, rec.z);
    }
  }

  /** Every record of a spawning tick lies in the square, so a second eviction keeps them all. */
  lemma StepKeptAgain(records: set<Region>, px: int, py: int, pz: int, r: int, qy: int)
    ensures Kept(Step(records, px, py, pz, r, true), px, qy, pz, r) == Step(records, px, py, pz, r, true)
  {
    var after := Step(records, px, py, pz, r, true);
    forall rec | rec in after
      ensures InRegion(rec.x, rec.y, rec.z, px, qy, pz, r)
    {
      if rec in Spawns(records, px, pz, r) {
        SpawnsFresh(records, px, pz, r, rec);
      }
    }
  }

  /** Idempotence: a second tick in the same region despawns nothing and spawns nothing. */
  lemma {:induction false} StepIdempotent(records: set<Region>, px: int, py: int, pz: int, r: int, qy: int, spawn: bool)
    ensures Kept(Step(records, px, py, pz, r, true), px, qy, pz, r) == Step(records, px, py, pz, r, true)
    ensures Spawns(Step(records, px, py, pz, r, true), px, pz, r) == {}
    ensures Step(Step(records, px, py, pz, r, true), px, qy, pz, r, spawn) == Step(records, px, py, pz, r, true)
  {
    var after := Step(records, px, py, pz, r, true);
    StepKeptAgain(records, px, py, pz, r, qy);
    StepCoverage(records, px, py, pz, r);
    forall rec | rec in Spawns(after, px, pz, r)
      ensures false
    {
      SpawnsFresh(after, px, pz, r, rec);
    }
  }

  /**
   * A move from `(px, pz)` to `(qx, qz)` after a spawning tick: the records despawned are those on
   * the cells left behind, and the records spawned fill the cells newly in reach.
   */
  lemma {:induction false} StepMove(records: set<Region>, px: int, py: int, pz: int, qx: int, qy: int, qz: int, r: int)
    ensures var before := Step(records, px, py, pz, r, true);
      Coords(before - Kept(before, qx, qy, qz, r)) == Square(px, pz, r) - Square(qx, qz, r)
    ensures var before := Step(records, px, py, pz, r, true);
      Coords(Spawns(before, qx, qz, r)) == Square(qx, qz, r) - Square(px, pz, r)
  {
    var before := Step(records, px, py, pz, r, true);
    StepCoverage(records, px, py, pz, r);
    var gone := before - Kept(before, qx, qy, qz, r);
    forall c | c in Coords(gone)
      ensures c in Square(px, pz, r) - Square(qx, qz, r)
    {
      var rec :| rec in gone && c == (rec.x, rec.z);
      assert c in Coords(before);
    }
    forall c | c in Square(px, pz, r) - Square(qx, qz, r)
      ensures c in Coords(gone)
    {
      assert c in Coords(before);
      var rec :| rec in before && c == (rec.x, rec.z);
      assert rec in gone;
    }
    var added := Spawns(before, qx, qz, r);
    forall c | c in Coords(added)
      ensures c in Square(qx, qz, r) - Square(px, pz, r)
    {
      var rec :| rec in added && c == (rec.x, rec.z);
      SpawnsFresh(before, qx, qz, r, rec);
    }
    forall c | c in Square(qx, qz, r) - Square(px, pz, r)
      ensures c in Coords(added)
    {
      var (x, z) := c;
      assert !Occupied(before, x, z);
      assert Region(x, 0, z) in added;
      assert (Region(x, 0, z).x, Region(x, 0, z).z) in Coords(added);
    }
  }

  /** Coverage of the two kinds of records after a tick (the views only when the asset is loaded). */
  lemma TickCoverage(views: set<Region>, rigids: set<Region>, px: int, py: int, pz: int)
    ensures Coords(NextViews(views, px, py, pz, true)) == Square(px, pz, 9)
    ensures Coords(NextRigids(rigids, px, py, pz)) == Square(px, pz, 4)
  {
    StepCoverage(views, px, py, pz, ViewCircle);
    StepCoverage(rigids, px, py, pz, RigidCircle);
  }

  /** Without the asset no view record is spawned; view eviction still runs. */
  lemma TickWithoutAsset(views: set<Region>, px: int, py: int, pz: int)
    ensures NextViews(views, px, py, pz, false) == Kept(views, px, py, pz, 9)
    ensures NextViews(views, px, py, pz, false) <= views
    ensures Coords(NextViews(views, px, py, pz, false)) <= Square(px, pz, 9)
  {
    StepWithoutSpawn(views, px, py, pz, ViewCircle);
  }

  /** A second tick in the same region changes neither set (views whether or not the asset is loaded). */
  lemma TickIdempotent(views: set<Region>, rigids: set<Region>, px: int, py: int, pz: int, qy: int, assetLoaded: bool)
    ensures NextViews(NextViews(views, px, py, pz, true), px, qy, pz, assetLoaded) == NextViews(views, px, py, pz, true)
    ensures NextRigids(NextRigids(rigids, px, py, pz), px, qy, pz) == NextRigids(rigids, px, py, pz)
  {
    StepIdempotent(views, px, py, pz, ViewCircle, qy, assetLoaded);
    StepIdempotent(rigids, px, py, pz, RigidCircle, qy, true);
  }

  /**
   * The eviction loop: every record failing `in_region` is despawned, every other one kept.
   */
  method EvictPass(records: set<Region>, px: int, py: int, pz: int, r: int) returns (kept: set<Region>, despawned: set<Region>)
    ensures kept == Kept(records, px, py, pz, r)
    ensures despawned == records - kept
    ensures forall rec :: rec in despawned ==> !InRegion(rec.x, rec.y, rec.z, px, py, pz, r)
  {
    kept, despawned := {}, {};
    var rest := records;
    while rest != {}
      invariant rest <= records
      invariant kept == Kept(records - rest, px, py, pz, r)
      invariant despawned == (records - rest) - kept
      decreases |rest|
    {
      var rec :| rec in rest;
      if !InRegion(rec.x, rec.y, rec.z, px, py, pz, r) {
        despawned := despawned + {rec};
      } else {
        kept := kept + {rec};
      }
      rest := rest - {rec};
    }
  }

  /**
   * The spawn loops: for every `(x, z)` of the square, a record at `(x, 0, z)` unless the
   * pre-tick list already has one with that `block_x` and `block_z`.
   */
  method SpawnPass(snapshot: set<Region>, px: int, pz: int, r: int) returns (spawned: set<Region>)
    requires r >= 0
    ensures spawned == Spawns(snapshot, px, pz, r)
  {
    spawned := {};
    var regionX := px - r;
    while regionX <= px + r
      invariant px - r <= regionX <= px + r + 1
      invariant spawned == SpawnRect(snapshot, px - r, regionX, pz - r, pz + r + 1)
    {
      var regionZ := pz - r;
      while regionZ <= pz + r
        invariant pz - r <= regionZ <= pz + r + 1
        invariant spawned == SpawnRect(snapshot, px - r, regionX, pz - r, pz + r + 1) + SpawnRect(snapshot, regionX, regionX + 1, pz - r, regionZ)
      {
        var fitNum := |set v | v in snapshot && v.x == regionX && v.z == regionZ|;
        FitNumZero(snapshot, regionX, regionZ);
        if fitNum == 0 {
          spawned := spawned + {Region(regionX, 0, regionZ)};
        }
        SpawnRectGrowZ(snapshot, regionX, pz - r, regionZ);
        regionZ := regionZ + 1;
      }
      SpawnRectGrowX(snapshot, px - r, regionX, pz - r, pz + r + 1);
      regionX := regionX + 1;
    }
  }

  /** `fit_num == 0` exactly when no record covers the cell. */
  lemma FitNumZero(snapshot: set<Region>, x: int, z: int)
    ensures |set v | v in snapshot && v.x == x && v.z == z| == 0 <==> !Occupied(snapshot, x, z)
  {
    var fits := set v | v in snapshot && v.x == x && v.z == z;
    if Occupied(snapshot, x, z) {
      var rec :| rec in snapshot && rec.x == x && rec.z == z;
      assert rec in fits;
    }
  }

  lemma SpawnRectGrowZ(snapshot: set<Region>, x: int, z0: int, z: int)
    requires z0 <= z
    ensures SpawnRect(snapshot, x, x + 1, z0, z + 1) ==
      SpawnRect(snapshot, x, x + 1, z0, z) + (if Occupied(snapshot, x, z) then {} else {Region(x, 0, z)})
  {
  }

  lemma SpawnRectGrowX(snapshot: set<Region>, x0: int, x: int, z0: int, z1: int)
    requires x0 <= x
    ensures SpawnRect(snapshot, x0, x + 1, z0, z1) == SpawnRect(snapshot, x0, x, z0, z1) + SpawnRect(snapshot, x, x + 1, z0, z1)
  {
  }

  /** The tick's state: the view and rigid records, the two queries `region_update` reads. */
  class RegionStreamer {
    var views: set<Region>
    var rigids: set<Region>

    constructor ()
      ensures views == {} && rigids == {}
    {
      views := {};
      rigids := {};
    }

    /**
     * `region_update` for a player at `(px, py, pz)`; `assetLoaded` says whether the glTF
     * lookup chain yields a mesh. Both fit checks read the records as they were before the tick.
     */
    method Tick(px: real, py: real, pz: real, assetLoaded: bool)
      modifies this
      ensures views == NextViews(old(views), PlayerRegion(px), PlayerRegion(py), PlayerRegion(pz), assetLoaded)
      ensures rigids == NextRigids(old(rigids), PlayerRegion(px), PlayerRegion(py), PlayerRegion(pz))
    {
      var playerRegionX := PlayerRegion(px);
      var playerRegionY := PlayerRegion(py);
      var playerRegionZ := PlayerRegion(pz);
      var viewRegionList := views;
      var keptViews, _ := EvictPass(views, playerRegionX, playerRegionY, playerRegionZ, ViewCircle);
      var rigidRegionList := rigids;
      var keptRigids, _ := EvictPass(rigids, playerRegionX, playerRegionY, playerRegionZ, RigidCircle);
      var newViews: set<Region> := {};
      if assetLoaded {
        newViews := SpawnPass(viewRegionList, playerRegionX, playerRegionZ, ViewCircle);
      }
      var newRigids := SpawnPass(rigidRegionList, playerRegionX, playerRegionZ, RigidCircle);
      views := keptViews + newViews;
      rigids := keptRigids + newRigids;
    }
  }

  /** `Collider::heightfield(heights, 16, 16, Vec3(16, 1, 16))`: what a rigid record is given. */
  datatype Heightfield = Heightfield(heights: seq<real>, rows: nat, cols: nat, scale: Vec3)

  function RigidCollider(heightMap: seq<seq<real>>): (c: Heightfield)
    ensures c.rows == 16 && c.cols == 16 && c.scale == Vec3(16.0, 1.0, 16.0)
    ensures IsRect(heightMap, 16, 16) ==> |c.heights| == 256
    ensures IsRect(heightMap, 16, 16) ==>
      forall i, j :: 0 <= i < 16 && 0 <= j < 16 ==> c.heights[16 * i + j] == heightMap[i][j]
  {
    FlattenGrid(heightMap, 16, 16);
    Heightfield(Flatten(heightMap), 16, 16, Vec3(16.0, 1.0, 16.0))
  }

  /**
   * The flattened height map handed to the heightfield is exactly the quantised noise vector
   * of the region, `rows * cols` values long, so the collider sees the rows in generated order.
   */
  lemma RigidColliderHeights(sample: Sampler, rx: int, rz: int)
    ensures var c := RigidCollider(NormalGenerator.GenerateHeightMap(sample, rx, 0, rz));
      c.heights == NormalGenerator.Quantized(sample, NormalGenerator.RegionCall(rx, rz, 16)) &&
      |c.heights| == c.rows * c.cols
  {
    var q := NormalGenerator.Quantized(sample, NormalGenerator.RegionCall(rx, rz, 16));
    assert NormalGenerator.GenerateHeightMap(sample, rx, 0, rz) == Chunks(q, 16);
    FlattenChunks(q, 16);
  }
}
