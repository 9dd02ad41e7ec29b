# cube-world terrain core in Dafny

cube-world is a voxel-style sandbox built on the Bevy engine. Its terrain core has four parts.

- **Region streaming**, in `region_update`. The world is cut into 16 by 16 regions along x and z. Each tick the player's region is found from the player's position. Visible ("view") region entities outside a 9-region radius are despawned. Physics ("rigid") region entities outside a 4-region radius are despawned too. Then every missing region of the two squares is spawned. A rigid region carries a 16 by 16 heightfield collider built from the region's noise height map.
- **Height maps and meshes.** Fractal noise is sampled at a region's offset, scaled by 200 and floored, then cut into rows. A `(n+1) x (n+1)` height grid becomes a plain mesh with `n*n` cells and two triangles per cell. A 16 x 16 grid can also become a mesh of unit cubes that share one texture atlas, or a list of per-block transforms.
- **Triangle soups.** The `Triangle` value holds points, normals and uvs. `patch` subdivides it.
- **Examples and tools.**
  - The `noise-show` example moves a 17 x 17 noise patch with the W/A/S/D keys.
  - The `map` example lays out a 129 x 129 Perlin height grid.
  - `conv.py` swaps an image's colour channels and renames the file.

How the model is organised:

- Meshes are values: position, uv and normal lists plus an index list.
- A noise generator is a function parameter of type `Sampler`. It takes the full generator configuration (`Noise.NoiseCall`) and a slot number.
- Region bookkeeping is a set of `(x, y, z)` records. `RegionCache.RegionStreamer` keeps one such set per kind and updates both in `Tick`.
- Where the source loops and mutates, the model is a method with loop invariants. Each such method is proved equal to a specification function, and the properties are lemmas about that function.

The module files are:

- `geometry.dfy`: vectors.
- `grid.dfy`: row-major walks, `chunks`, `flatten` and `take`.
- `noise.dfy`: noise calls and quantisation.
- `grid_surface.dfy`: plain meshes.
- `triangle.dfy`: `Triangle::from` and `patch`.
- `height_map.dfy`: the `normal.rs` generator.
- `region_cache.dfy`: region streaming.
- `noise_show.dfy`, `map_example.dfy` and `texture_conv.dfy`: the two examples and the conversion script.

`patch` in `src/util.rs` has no documentation, but its intent shows in the code: the `*_tiny` edge vectors are divided by n, so every piece is a 1/n-size copy of the triangle, and such pieces tile it only as the `n*n` triangles of the 1/n lattice anchored at the first corner. The code instead produces `n(n+1)/2` pieces, and it places piece `(row, col)` at `row·v1 + col·v2`, unscaled and without the first corner, so the first piece starts at the origin. The model follows the code (`Triangles.Patch`). The intended subdivision is modelled beside it, and the difference is recorded under Findings.

## Model

| member | source | states |
|---|---|---|
| RegionCache.InRegion | src/region.rs:260-265 | a region is kept exactly when its x and z lie within `region` of the player's region; y is ignored |
| RegionCache.CastToI32 | src/region.rs:89-91 | `f32 as i32` truncates toward zero inside the i32 range and gives exactly `i32::MAX` / `i32::MIN` at and beyond the bounds |
| RegionCache.TruncDiv16 | src/region.rs:89-91 | `/ 16` on i32 truncates toward zero: `16·abs(q) <= abs(a) < 16·abs(q)+16` and q has a's sign |
| RegionCache.PlayerRegion | src/region.rs:89-91 | region r > 0 covers positions `[16r, 16r+16)`, region r < 0 covers `(16r-16, 16r]`, and the sign follows the position; positions beyond the i32 range land in the saturated regions `i32::MAX/16` and `i32::MIN/16` |
| RegionCache.PlayerRegionZeroBand | src/region.rs:89-91 | every position strictly between -16 and 16 maps to region 0, so region 0 spans 32 units of position (31 integer positions), twice any other region |
| RegionCache.PlayerRegionBandEdges | src/region.rs:89-91 | positions 16 and -16 already lie in regions 1 and -1 |
| RegionCache.PlayerRegionSymmetric | src/region.rs:89-91 | within the i32 range, negating the position negates the region |
| RegionCache.EvictPass | src/region.rs:94-123 | the despawn loop keeps exactly the in-radius records; everything it despawns is out of radius |
| RegionCache.SpawnPass | src/region.rs:149-188 | the spawn loops over the `(2r+1)^2` square spawn one `y = 0` record for exactly those cells no record in the pre-eviction snapshot occupies (`fit_num == 0`) |
| RegionCache.FitNumZero | src/region.rs:152-157 | the filtered count is zero iff no record has that x and z |
| RegionCache.SpawnsFresh | src/region.rs:149-188 | every spawned record lies in the square, has y = 0 and was not in the snapshot |
| RegionCache.SpawnsExactly | src/region.rs:149-188 | a cell of the square gets a new record iff the snapshot had none there |
| RegionCache.StepCoverage | src/region.rs:94-257 | after eviction and spawning, the occupied cells are exactly the square around the player |
| RegionCache.StepWithoutSpawn | src/region.rs:94-131 | without spawning, a tick only removes records, and what stays lies inside the square |
| RegionCache.StepKeptAgain | src/region.rs:94-123 | a second eviction at the same player region removes nothing, whatever the player's y |
| RegionCache.StepIdempotent | src/region.rs:94-257 | a second tick at the same region spawns nothing and changes nothing |
| RegionCache.StepMove | src/region.rs:94-257 | moving from one region to another despawns exactly the cells that left the square and spawns exactly the cells that entered it |
| RegionCache.TickCoverage | src/region.rs:86-87 | with the block asset loaded, views cover the 19 x 19 square; rigids always cover the 9 x 9 square |
| RegionCache.TickWithoutAsset | src/region.rs:126-131 | while the glTF block asset is not loaded, views are only evicted, never spawned |
| RegionCache.TickIdempotent | src/region.rs:84-258 | repeating a tick at the same region leaves both record sets unchanged |
| RegionCache.RegionStreamer.constructor | src/region.rs:84-258 | the streamer starts with no view and no rigid records |
| RegionCache.RegionStreamer.Tick | src/region.rs:84-258 | one `region_update` call: both record sets become the evicted-and-refilled sets for the player's current region, with views refilled only when the asset is loaded |
| RegionCache.RigidCollider | src/region.rs:224-231 | the heightfield is 16 x 16 with scale `(16, 1, 16)`; for a 16 x 16 map it holds 256 heights, cell `(i, j)` at `16i + j` |
| RegionCache.RigidColliderHeights | src/region.rs:221-231 | the rigid collider is a 16 x 16 heightfield whose heights are the quantised noise of the region, flattened row by row |
| Noise.Quantize | src/block_provider/normal.rs:38 | `(v * 200).floor()` is the integer h with `h <= 200v < h + 1` |
| Grid.Crop | src/block_provider/normal.rs:92-93 | `take(k)` keeps `min(k, len)` rows, each a prefix of its row |
| Grid.CropRect | src/block_provider/normal.rs:92-93 | cropping a large enough grid keeps a k x k grid with the same leading values |
| Grid.RowMajorAt | src/region.rs:275-291 | the nested `enumerate` walk places cell `(x, z)` at slot `x·cols + z` |
| Grid.RowMajorLength | src/region.rs:275-291 | the walk of a rows x cols grid has rows·cols entries |
| Grid.FlattenGrid | src/region.rs:224 | flattening a rows x cols grid gives rows·cols values, cell `(i, j)` at `cols·i + j` |
| Grid.FlattenChunks | src/region.rs:224 | `flatten` after `chunks(k)` gives back the flat noise vector |
| Grid.ChunksExact | src/block_provider/normal.rs:39-45 | `chunks(k)` of `k·m` values gives m rows of k, row i holding values `k·i ..` |
| NormalGenerator.QuantizedRows | src/block_provider/normal.rs:26-47 | the quantised noise cut into rows is a size x size grid whose cell `(i, j)` is noise slot `size·i + j`, quantised |
| NormalGenerator.HeightMap | src/block_provider/normal.rs:26-47 | the region height map is size x size; cell `(i, j)` is the quantised noise sample `size·i + j` of the call at offset `(rz·16, rx·16)`, seed 1, frequency 0.01 |
| NormalGenerator.HeightMapByRegion | src/block_provider/normal.rs:26-47 | a 16 x 16 map whose cells are fixed by the noise alone; `region_y` plays no part |
| NormalGenerator.GetMapHeight | src/block_provider/normal.rs:64-85 | a 17 x 17 map with the same per-cell meaning |
| NormalGenerator.GenerateHeightMap | src/block_provider/normal.rs:21-23 | the height map of region `(x, y, z)` is that of `(x, 0, z)` |
| NormalGenerator.UvTile | src/block_provider/normal.rs:102-105 | a uv in the unit square is moved into tile `(x_index, z_index)` of the 16 x 16 atlas |
| NormalGenerator.RemapUvs | src/block_provider/normal.rs:102-105 | the in-place `iter_mut` rewrites every uv by the tile remap and nothing else |
| NormalGenerator.CreateCubeMesh | src/block_provider/normal.rs:87-116 | the cube mesh is the fold with `+` of the cube layout, starting from the empty triangle |
| NormalGenerator.CubeLayoutAt | src/block_provider/normal.rs:92-107 | a large enough grid gives 256 cubes; cube `16x + z` is the atlas-remapped unit cube translated to `(x, h[x][z], z)` |
| NormalGenerator.RegionByBlock | src/block_provider/normal.rs:49-62 | the result is the cube mesh of the 17 x 17 map when tangents can be generated, and an abort otherwise |
| NormalGenerator.GenerateBlock | src/block_provider/normal.rs:18-20 | the block of region `(x, y, z)` is `region_by_block(x, z)` |
| NormalGenerator.BlockTransforms | src/block_provider/normal.rs:123-134 | the transforms are the row-major walk of the cropped 16 x 16 map |
| NormalGenerator.RegionByMesh | src/block_provider/normal.rs:118-142 | 256 transforms; transform `16x + z` places the block at `(x, h[x][z], z)` at scale 1.3; the mesh is the block instanced at them |
| GridSurface.RowIndices | src/region.rs:294-303 | one row contributes six indices per cell |
| GridSurface.GridIndices | src/region.rs:294-303 | the first `xEnd` rows contribute `6n` indices each |
| GridSurface.CellTriangles | src/region.rs:296-301 | a cell's six indices are the triangles `(s, s+1, s+n+1)` and `(s+1, s+n+2, s+n+1)` with `s = x(n+1)+z` |
| GridSurface.CellBound | src/region.rs:296-301 | every index of a cell names one of the `(n+1)^2` vertices |
| GridSurface.RowIndicesBound | src/region.rs:294-303 | every index of a row names a vertex |
| GridSurface.RowIndicesAt | src/region.rs:294-303 | slot `6z + j` of row x is index j of cell `(x, z)` |
| GridSurface.GridIndicesBound | src/region.rs:294-303 | every index of the first rows names a vertex |
| GridSurface.GridIndicesAt | src/region.rs:294-303 | slot `x·6n + k` is slot k of row x |
| GridSurface.PlainIndicesShape | src/region.rs:294-303 | `6n²` indices, each in `[0, (n+1)^2)` |
| GridSurface.PlainIndicesCell | src/region.rs:294-303 | slot `6(xn + z) + j` is index j of cell `(x, z)` |
| GridSurface.LastIndex | src/region.rs:294-303 | the last cell reaches vertex `(n+1)^2 - 1`, so the bound is tight |
| GridSurface.IndicesFit | src/region.rs:294-303 | every index is below `count` iff `count >= (n+1)^2` |
| GridSurface.PlainMeshCounts | src/region.rs:268-313 | an `(n+1)`-square grid gives `(n+1)^2` vertices and `6n²` indices, all naming a vertex |
| GridSurface.PlainMeshRect | src/region.rs:268-313 | vertex `x(n+1)+z` sits at `(x + tx, h[x][z], z + tz)` with uv `(x/n, z/n)` and normal up |
| GridSurface.CreatePlainMesh | examples/map/main.rs:95-140 | the loops build exactly the plain mesh of size n |
| GridSurface.FillVertices | examples/map/main.rs:101-117 | the vertex loops emit position, uv and normal per cell in row-major order |
| GridSurface.FillIndices | examples/map/main.rs:120-130 | the index loops emit the six indices of every cell in order |
| GridSurface.CreatePlainMesh16 | src/region.rs:268-313 | a 17 x 17 grid gives 289 vertices and 1536 indices in range; vertex `17x + z` sits at `(x + tx, h, z + tz)` with uv `(x/16, z/16)`; `examples/noise-show/main.rs` lines 137-181 hold the same builder |
| Triangles.From | src/util.rs:10-16 | the triangle holds exactly the given points, normals and uvs |
| Triangles.PatchRows | src/util.rs:49-72 | the row loops emit `RowOffset(n, rows)` triangles |
| Triangles.SubTriangle | src/util.rs:49-64 | each emitted triangle has three corners, and its first corner is the unscaled `row·v1 + col·v2` start |
| Triangles.RowOffsetClosed | src/util.rs:49-72 | rows `0..rows-1` hold `rows(2n - rows + 1)/2` triangles |
| Triangles.PatchCount | src/util.rs:49-72 | subdividing with n >= 2 yields `n(n+1)/2` triangles |
| Triangles.PatchRowsAt | src/util.rs:49-72 | triangle `RowOffset(n, row) + col` is the sub-triangle of `(row, col)` |
| Triangles.AsWrittenOrigin | src/util.rs:42-64 | the first emitted triangle starts at the origin in points, normals and uvs |
| Triangles.Patch | src/util.rs:18-75 | n <= 1 returns the triangle alone; n >= 2 panics on fewer than three corners and otherwise returns the row-by-row subdivision |
| Triangles.IntendedRow | src/util.rs:49-72 | row `row` of the intended lattice subdivision holds `2(n - row) - 1` triangles |
| Triangles.IntendedRowsCount | src/util.rs:49-72 | the first `rows` intended rows hold `rows(2n - rows)` triangles |
| Triangles.IntendedCount | src/util.rs:18-75 | the intended subdivision yields `n²` triangles for n >= 2 |
| Triangles.IntendedFirst | src/util.rs:49-64 | the intended subdivision begins with the corner triangle at lattice point `(0, 0)` |
| Triangles.IntendedCorners | src/util.rs:42-64 | the intended corner triangles touch the three corners of the original |
| Triangles.AsWrittenSampleCount | src/util.rs:49-72 | for a sample triangle with n = 2, the code yields 3 triangles where 4 are intended |
| Triangles.AsWrittenMisplaced | src/util.rs:42-64 | when the first corner is not the origin, the first vertex of the code's first triangle differs from that corner, while the first vertex of the intended first triangle equals it |
| NoiseShow.ShowRows | examples/noise-show/main.rs:112-134 | the scaled noise cut into chunks of 17 is a 17 x 17 grid, cell `(i, j)` being slot `17i + j` |
| NoiseShow.ShowMesh | examples/noise-show/main.rs:112-134 | 289 vertices and 1536 in-range indices; vertex k sits at `(k/17 - 8, noise_k, k%17 - 8)` with uv `(k/17/16, k%17/16)` and normal up |
| NoiseShow.GetMesh | examples/noise-show/main.rs:112-134 | `get_mesh` computes exactly that mesh |
| NoiseShow.Axis | examples/noise-show/main.rs:82-93 | opposite keys cancel; one key alone moves by one in its direction |
| NoiseShow.Scene.constructor | examples/noise-show/main.rs:25-58 | the scene starts at offset `(0, 0)` showing the mesh of region `(0, 0)` |
| NoiseShow.Scene.HandleKeyboardControls | examples/noise-show/main.rs:74-110 | W/S move z by -1/+1 and A/D move x by -1/+1; the old view is despawned and the mesh at the new offset is the only one shown |
| MapExample.GetHeight | examples/map/main.rs:88-92 | the height is the Perlin value times 500: Perlin's `[-1, 1]` becomes `[-500, 500]`, and the sign and zero are kept |
| MapExample.BlockCoordRange | examples/map/main.rs:29-30 | the sampled coordinates `i/128` run monotonically from 0 to 1, hitting the ends exactly at 0 and 128 |
| MapExample.StartupHeights | examples/map/main.rs:24-37 | the loops build a 129 x 129 grid whose cell `(i, j)` is `500·perlin(i/128, j/128)` |
| MapExample.Startup | examples/map/main.rs:20-46 | the startup mesh has 16641 vertices and 98304 indices, all in range, each vertex at its grid height |
| TextureConv.ConvertPixel | assets/textures/conv.py:15 | `(r, g, b)` becomes `(b, 255 - r, g)`, which the inverse map undoes; the result is a byte pixel exactly when the input is |
| TextureConv.ConvertImage | assets/textures/conv.py:15 | every pixel `(r, g, b)` becomes `(b, 255 - r, g)`, in order |
| TextureConv.RestoreImage | assets/textures/conv.py:15 | the inverse map, pixel by pixel |
| TextureConv.PixelRoundTrip | assets/textures/conv.py:15 | the channel map is a bijection that keeps pixels in the byte range |
| TextureConv.ImageRoundTrip | assets/textures/conv.py:15 | converting an image loses nothing: restoring it gives it back, and byte pixels stay byte pixels |
| TextureConv.Replace | assets/textures/conv.py:21-22 | Python's `str.replace`: a replacement at least as long as the pattern never shortens the string, and one no longer never lengthens it |
| TextureConv.ReplaceAbsent | assets/textures/conv.py:21-22 | `str.replace` with no occurrence returns the string |
| TextureConv.SavedName | assets/textures/conv.py:22 | the saved name is never shorter than the input, and a name without `_s.png` is saved over the input file itself |
| TextureConv.PrintedName | assets/textures/conv.py:21 | the printed name is never shorter than the input, and a name without `_s` is printed unchanged |
| TextureConv.ReplaceCleanPrefix | assets/textures/conv.py:21-22 | a prefix with no occurrence starting in it is kept as it is |
| TextureConv.ReplaceOnce | assets/textures/conv.py:21-22 | a single occurrence followed by a clean tail is replaced once |
| TextureConv.NamesAgree | assets/textures/conv.py:21-22 | for `stem_s.png` where `_s` occurs only at the end, the printed and the saved names are both `stem_mr.png` |
| TextureConv.NamesDiffer | assets/textures/conv.py:21-22 | for `a_s_s.png` the saved name is `a_s_mr.png`, but the printed name is `a_mr_mr.png` |

## Left out

- Floating point: `f32` and `f64` are modelled as reals, so rounding is not modelled. NaN and infinity in `as i32` are not modelled either; Rust maps NaN to 0.
- `region * 16` and the `i32` loop bounds are unbounded integers, so i32 overflow for regions beyond about 134 million is not modelled.
- RegionCache.RegionStreamer.Tick: does not model the two panics inside a view refill. `gltf.named_nodes["block"]` (src/region.rs:128) panics when the loaded glTF has no "block" node. Each view spawn calls `region_generate` (src/region.rs:159-161), whose `generate_tangents().expect(..)` (src/block_provider/normal.rs:55-56) aborts the tick when tangent generation fails. `Tick` always finishes with the refilled sets. The abort itself is modelled in `NormalGenerator.RegionByBlock`.
- The `.single()` queries panic unless there is exactly one player and one generator. The model assumes one of each.
- Spawned records also carry a mesh, material and offset: views sit at `(16x, 0, 16z)` and rigid colliders at `(16x + 7.5, 0.5, 16z + 7.5)`. Only the record coordinates and the rigid collider heights are modelled.
- Records are a set. Two entities with the same coordinates collapse to one. `region_update` never creates duplicates, because it checks `fit_num` first.
- Bevy `Commands` are deferred. The model applies each tick's despawns and spawns at the end of the tick, which matches the next tick's view of them.
- GridSurface.CreatePlainMesh: requires `n > 0`. With `plain_size = 0` the uv `x / plain_size` divides by zero in floating point. Both callers pass 16 or 128.
- Noise internals (simdnoise fractal Brownian motion, min/max scaling) and Perlin noise are uninterpreted parameters. `generate_scaled(0, 10)` is recorded in the call, and its 0 to 10 range is not assumed.
- `Triangle::from_mesh`, `Triangle * Transform`, `Triangle * Vec<Transform>`, `+`, the unit `Cuboid`, `build()` and `generate_tangents` live outside the core. They are fields of `NormalGenerator.CubeOps`.
- NormalGenerator.RegionByMesh: also returns the transform list it instances. The source keeps that list local.
- Bevy plumbing is not modelled: materials, lights, cameras, `create_texture`, glTF loading (only whether the asset is loaded), timing and `println!`, and the `mod.rs` dispatch, which forwards to the generator functions.
- In `conv.py`, reading and writing the image with PIL is not modelled, nor the conversion to RGB or the command-line argument. Pixels are integer triples.
- The uv `x / n` of `create_plain_mesh` is `(1/n)·x` in the source's float arithmetic. Over the reals the two are equal.

## Findings

| source | as written | input that shows it | evidently intended | confidence | as-written member | corrected member |
|---|---|---|---|---|---|---|
| src/util.rs:49-72 | row `row` of `patch` emits `n - row` triangles and no inverted ones, so n levels give `n(n+1)/2` triangles | n = 2 on the triangle `(1,0,0) (2,0,0) (1,1,0)`: 3 triangles | a full subdivision into `n²` triangles, `2(n - row) - 1` per row | medium, not executed | Triangles.AsWrittenSampleCount | Triangles.IntendedCount |
| src/util.rs:42-64 | the start of sub-triangle `(row, col)` is `row·v1 + col·v2`, unscaled and not offset by the first corner | any triangle whose first corner is not the origin, e.g. the sample above: the first sub-triangle starts at `(0,0,0)` | sub-triangle `(row, col)` starts at `p0 + row·v1/n + col·v2/n`, so the pieces tile the original | high, not executed | Triangles.AsWrittenMisplaced | Triangles.IntendedCorners |
