# Endless terrain: chunk grid and terrain mesh builder

A Dafny model of the two computational parts of an endless-terrain streamer
written in C# for Unity.

**The terrain mesh builder** (`MeshGenerator.GenerateTerrainMesh` and the
`MeshData` buffer writer) works as follows:
- It turns a square height map and a level of detail into a vertex grid of
  `verticesPerLine x verticesPerLine` samples.
- It also fills a triangle index buffer with two triangles per grid cell.
- The model keeps each vertex as the integer sample coordinate it was built
  from plus the raw height read there.
- A write past the end of the triangle buffer (C#'s
  `IndexOutOfRangeException`) becomes an explicit `IndexOutOfRange` result.

**The chunk grid** (`EndlessTerrain`, `TerrainChunk`, `LODMesh`) has these parts:
- a dictionary from chunk coordinates to chunks that only grows;
- the square window of `(2r+1)^2` coordinates visited around the viewer's
  chunk on each visibility pass;
- the list of chunks made visible by the last pass;
- the per-chunk choice of a detail level from the viewer's distance;
- the per-level `hasRequestedMesh` / `hasMesh` flags.

The map generator's asynchronous answers are modelled as two events,
`MapDataArrived` and `MeshDataArrived`. Its requests go into a log, and the
invariant `TerrainInv` states that the log never holds the same request twice.

Modules:
- `Arith`: C# truncating division, `Mathf.RoundToInt`, and small
  multiplication facts.
- `Mesh`: `MeshData`, its constructor and `AddTriangle`.
- `MeshGenerator`: the generator, the reference buffers it must produce,
  and the loop invariant.
- `MeshShape`: the geometry of the produced triangle buffer.
- `LevelOfDetail`: `LODInfo` and the level selection loop.
- `TerrainChunk`: a chunk, its `LODMesh` records and its update.
- `EndlessTerrain`: the dictionary, the visibility pass and the entry points
  `Start`, `Update`, `MapDataArrived` and `MeshDataArrived`.

The window radius is `Mathf.RoundToInt(maxViewDistance / chunkSize)`
(EndlessTerrain.cs:34): the nearest integer with ties to even, not a ceiling.
`ViewRadiusRounds` shows that a largest threshold of 300 with 240-unit chunks
gives radius 1.

## Model

| member | source | states |
|---|---|---|
| Mesh.NewMeshData | Assets/MeshGenerator.cs:13-18 | vertex and UV buffers hold width*height unwritten slots, the triangle buffer holds 6*(height-1)*(width-1) zero entries, and the cursor starts at 0 |
| Mesh.AddTriangle | Assets/MeshGenerator.cs:20-26 | succeeds exactly when three slots remain at the cursor; then it writes a, b, c at the cursor, advances the cursor by 3, and leaves every other slot and the vertex and UV buffers unchanged |
| Arith.CsDiv | Assets/MeshGenerator.cs:52 | C# integer division truncates toward zero: the quotient bounds the dividend from below for a non-negative dividend and from above for a negative one |
| MeshGenerator.SimplificationIncrement | Assets/MeshGenerator.cs:51 | the step is at least 1 for every level >= 0; for a level > 0 it is even and larger than the level |
| MeshGenerator.VerticesPerLine | Assets/MeshGenerator.cs:52 | for width >= 1 the count is the number of multiples of the step below width: (vpl-1)*inc <= width-1 < vpl*inc; for width 0 the truncating division yields 0 (step 1) or 1 |
| MeshGenerator.VisitedIff | Assets/MeshGenerator.cs:57-59 | the loop `x < width; x += inc` visits the i-th position exactly when i < verticesPerLine, in both directions |
| MeshGenerator.QuadIff | Assets/MeshGenerator.cs:64 | a visited position is below width-1 exactly when it is not the last one or the step does not divide width-1 |
| MeshGenerator.AddQuad | Assets/MeshGenerator.cs:66-67 | the two AddTriangle calls succeed exactly when six slots remain, then write the quad (v, v+vpl+1, v+vpl, v+vpl+1, v, v+1) at the cursor, advance it by 6, and keep every slot before and after the quad and the vertex and UV buffers |
| MeshGenerator.QuadSlots | Assets/MeshGenerator.cs:64-67 | in row-major quad order, quad (row, col) occupies slots 6q..6q+5 of the reference buffer with q = row*(vpl-1)+col, and those slots hold its corners |
| MeshGenerator.VisitSample | Assets/MeshGenerator.cs:61-68 | one sample's body succeeds exactly when no quad is due there or six triangle slots remain; then vertex and UV slot vertexIndex hold the sample and its UV (x/width, z/height) and no other slot of those buffers changes; for a quad the six slots at the cursor hold (v, v+vpl+1, v+vpl, v+vpl+1, v, v+1) with v = vertexIndex and the cursor advances by 6, otherwise the triangle buffer and cursor are unchanged; all other triangle slots are kept |
| MeshGenerator.WriteVertexStep | Assets/MeshGenerator.cs:61-62 | writing sample (col*inc, row*inc) and its UV into slot row*vpl+col extends the prefix of correctly written vertex slots by one |
| MeshGenerator.VisitStep | Assets/MeshGenerator.cs:59-70 | one inner iteration stays within the vertex buffer and keeps the loop invariant; it can overrun the triangle buffer only when the step does not divide width-1 |
| MeshGenerator.QuadStep | Assets/MeshGenerator.cs:64-67 | with a dividing step, the quad of an interior sample fits and lands on its reference slots; otherwise the cursor still advances one quad per sample |
| MeshGenerator.NoQuadStep | Assets/MeshGenerator.cs:64 | with a dividing step, a sample on the last row or column emits no triangle, and none is due there |
| MeshGenerator.NextLine | Assets/MeshGenerator.cs:57-59 | finishing a line of vpl samples is the start of the next line: the vertex cursor is (row+1)*vpl |
| MeshGenerator.Finished | Assets/MeshGenerator.cs:52-73 | after vpl lines the step divides width-1, and the mesh has vpl*vpl written vertex slots and a triangle buffer filled exactly to its end with the reference indices |
| MeshGenerator.GenerateLine | Assets/MeshGenerator.cs:59-71 | the inner loop visits vpl samples of line z = row*inc and advances the vertex index by vpl; it fails only when the step does not divide width-1 |
| MeshGenerator.GenerateTerrainMesh | Assets/MeshGenerator.cs:40-74 | on a square map of width >= 1, generation completes without an index error exactly when the step divides width-1; then the vertices are the samples ((k%vpl)*inc, (k/vpl)*inc) in row-major order and the triangle buffer is filled exactly with two triangles per cell; an empty map yields the freshly sized buffers |
| MeshShape.QuadCell | Assets/MeshGenerator.cs:64-67 | quad q covers grid cell (q/(vpl-1), q%(vpl-1)), and its top-left vertex is never on the last row or last column |
| MeshShape.QuadNeighbours | Assets/MeshGenerator.cs:66-67 | v+1, v+vpl and v+vpl+1 are the right, lower and diagonal neighbours of the quad's top-left vertex v, and all four corners are valid vertex indices |
| MeshShape.QuadWinding | Assets/MeshGenerator.cs:66-67 | each quad is the triangle pair (v, v+vpl+1, v+vpl) and (v+vpl+1, v, v+1); each triangle has three distinct corners, and both contain the diagonal v / v+vpl+1 |
| MeshShape.QuadSlot | Assets/MeshGenerator.cs:64-67 | slot 6q+i of the reference buffer holds corner i of quad q |
| MeshShape.TriangleIndicesInRange | Assets/MeshGenerator.cs:64-67 | every entry of the filled triangle buffer lies in [0, vpl*vpl) |
| MeshShape.QuadOfInterior | Assets/MeshGenerator.cs:64 | a vertex on neither the last row nor the last column starts quad row*(vpl-1)+col |
| MeshShape.QuadVertexInjective | Assets/MeshGenerator.cs:64-67 | distinct quads have distinct top-left vertices |
| MeshShape.QuadPerInteriorVertex | Assets/MeshGenerator.cs:64-67 | a vertex starts a quad if and only if it is on neither the last row nor the last column, and then it starts exactly one |
| MeshShape.GeneratedMeshValid | Assets/MeshGenerator.cs:54-73 | in a generated mesh every triangle index names a vertex slot, and every vertex and UV slot is written |
| Arith.RoundToInt | Assets/Scripts/EndlessTerrain.cs:34 | Mathf.RoundToInt returns an integer within one half of its argument |
| Arith.RoundToIntCharacterised | Assets/Scripts/EndlessTerrain.cs:34 | away from ties the result is the unique integer strictly within one half; at a tie it is the even neighbour |
| LevelOfDetail.MaxViewDistance | Assets/Scripts/EndlessTerrain.cs:32 | every distance within the view distance is within the threshold of the level it selects |
| LevelOfDetail.VisibleIffCovered | Assets/Scripts/EndlessTerrain.cs:139-155 | with thresholds in ascending order, a chunk is within the view distance exactly when the level it selects covers its distance |
| LevelOfDetail.LodFrom | Assets/Scripts/EndlessTerrain.cs:145-155 | the selection loop started at i stops at the first index below the last whose threshold is not exceeded, else at the last index; every index it skips is exceeded |
| LevelOfDetail.LodIndex | Assets/Scripts/EndlessTerrain.cs:143-155 | the selected index lies in [0, n-1]; every finer level's threshold is exceeded, and a selected index below n-1 is not exceeded |
| LevelOfDetail.LodIndexCharacterised | Assets/Scripts/EndlessTerrain.cs:143-155 | the selection is exactly the least index below n-1 whose threshold is not exceeded, or n-1 if there is none, in both directions |
| LevelOfDetail.LodMonotone | Assets/Scripts/EndlessTerrain.cs:143-155 | a larger distance never selects a smaller index |
| TerrainChunk.NewChunk | Assets/Scripts/EndlessTerrain.cs:97-124 | a new chunk has one unrequested, meshless record per configured level carrying that level's detail value, no map data, no shown level (-1), and is hidden |
| TerrainChunk.UpdateTerrainChunk | Assets/Scripts/EndlessTerrain.cs:134-177 | without map data nothing changes; with it the chunk is visible exactly when the distance is within the last threshold and then reports itself for the visible list; the shown level changes only to the selected level and only when its mesh is there; a mesh is requested exactly when the chunk has map data, is within view, and its selected level is not the shown one, has no mesh and was not yet requested; the request marks that level and nothing else; flags only go from false to true |
| TerrainChunk.OnMapDataReceived | Assets/Scripts/EndlessTerrain.cs:126-132 | after the map data arrives the chunk has map data, is visible exactly when within the view distance, and reports itself exactly then; on the first arrival a chunk within view requests the mesh of the level it selects, and one out of view requests nothing |
| TerrainChunk.OnMeshDataReceived | Assets/Scripts/EndlessTerrain.cs:205-211 | the delivered level is marked as having its mesh; the re-run update makes the chunk visible and reports it for the list exactly when within view, even if it is already listed; when the delivered level is the one the distance selects and the chunk is within view, it is shown at once |
| TerrainChunk.UpdateIgnoresHiding | Assets/Scripts/EndlessTerrain.cs:134-177 | the update's result does not depend on whether the chunk was hidden first |
| TerrainChunk.UpdateSettles | Assets/Scripts/EndlessTerrain.cs:157-170 | a second update at the same distance leaves the chunk as the first one left it and requests nothing, so no level is requested twice |
| EndlessTerrain.HideLastVisible | Assets/Scripts/EndlessTerrain.cs:52-56 | every chunk in the visible list is hidden, no other chunk changes, the list is emptied, and nothing else changes |
| EndlessTerrain.HideKeepsInv | Assets/Scripts/EndlessTerrain.cs:52-56 | with the invariant in place, hiding the list hides every chunk, keeps the invariant and changes nothing but visibility |
| EndlessTerrain.HideHidesAll | Assets/Scripts/EndlessTerrain.cs:52-56 | every visible chunk is in the list, so after hiding every chunk is its former self made invisible |
| EndlessTerrain.HideKeepsLog | Assets/Scripts/EndlessTerrain.cs:52-56 | hiding leaves the request log consistent with the chunks' flags |
| EndlessTerrain.ApplyUpdate | Assets/Scripts/EndlessTerrain.cs:69-70 | storing an update replaces only that chunk, appends it to the visible list when it is now visible, and logs only the mesh request the update made |
| EndlessTerrain.ApplyUpdateKeepsInv | Assets/Scripts/EndlessTerrain.cs:157-172 | storing a legal chunk update keeps the grid invariant, and every chunk only grows |
| EndlessTerrain.ApplyUpdateKeepsLog | Assets/Scripts/EndlessTerrain.cs:213-216 | the log gains exactly the mesh request whose flag the update set, so each level's mesh is requested at most once |
| EndlessTerrain.CreateChunk | Assets/Scripts/EndlessTerrain.cs:72-75 | an absent coordinate gets a fresh chunk, its map-data request is logged, and the visible list is untouched |
| EndlessTerrain.CreateChunkKeepsInv | Assets/Scripts/EndlessTerrain.cs:117-123 | creating a chunk keeps the invariant: the log gains exactly its map request, and no mesh is requested |
| EndlessTerrain.VisitCoord | Assets/Scripts/EndlessTerrain.cs:65-75 | the loop body for one coordinate keeps every chunk stored under its coordinate with one record per level |
| EndlessTerrain.VisitCoordEffect | Assets/Scripts/EndlessTerrain.cs:65-75 | visiting a coordinate replaces only its chunk, with the update of an existing chunk or a fresh one; an existing chunk is listed when it is now visible, and a new one is not |
| EndlessTerrain.VisitCoordKeepsInv | Assets/Scripts/EndlessTerrain.cs:65-75 | one visit keeps the invariant, and chunks only grow |
| EndlessTerrain.PassStarts | Assets/Scripts/EndlessTerrain.cs:52-56 | the pass invariants hold after hiding, before any coordinate is visited |
| EndlessTerrain.PassInvStep | Assets/Scripts/EndlessTerrain.cs:61-77 | each visit keeps the invariant, chunk growth since the start of the pass, and the viewer positions |
| EndlessTerrain.PassChunksStep | Assets/Scripts/EndlessTerrain.cs:61-77 | after one more visit, the visited coordinates hold updated or fresh chunks, and the rest are the old chunks hidden |
| EndlessTerrain.PassListStep | Assets/Scripts/EndlessTerrain.cs:61-77 | after one more visit, the visible list holds exactly the visited old chunks that are now visible, each once |
| EndlessTerrain.NextColumn | Assets/Scripts/EndlessTerrain.cs:63 | the inner loop's step adds exactly the current coordinate to the visited part of the window |
| EndlessTerrain.NextWindowRow | Assets/Scripts/EndlessTerrain.cs:61 | finishing a row of the window is starting the next one |
| EndlessTerrain.UpdateVisibleChunks | Assets/Scripts/EndlessTerrain.cs:50-78 | afterwards the keys are the old keys plus the whole window; new keys hold fresh chunks; old chunks in the window are updated in place; old chunks outside it are hidden and otherwise unchanged; the visible list holds exactly the old window chunks now visible, without duplicates; the invariant holds and no key is removed |
| EndlessTerrain.ShouldRecompute | Assets/Scripts/EndlessTerrain.cs:43 | a pass is due exactly when the squared displacement from the previous position exceeds 625 (25 units squared), and never without moving |
| EndlessTerrain.ThresholdIsStrict | Assets/Scripts/EndlessTerrain.cs:43 | moving exactly 25 units does not trigger a recomputation, moving farther does in any direction, and standing still never does |
| EndlessTerrain.ViewerChunk | Assets/Scripts/EndlessTerrain.cs:58-59 | each chunk coordinate is within one half of the viewer's position divided by the chunk size |
| EndlessTerrain.ViewRadius | Assets/Scripts/EndlessTerrain.cs:32-34 | the radius is within one half of the last level's threshold divided by the chunk size |
| EndlessTerrain.ViewRadiusRounds | Assets/Scripts/EndlessTerrain.cs:34 | the radius is rounded, not rounded up: thresholds 300, 450 and 360 with 240-unit chunks give radii 1, 2 and 2 |
| EndlessTerrain.EmptyTerrain | Assets/Scripts/EndlessTerrain.cs:25-26 | the scene starts with no chunk, an empty visible list and no request, and satisfies the grid invariant for every level configuration, the base case of every reachable state |
| EndlessTerrain.Start | Assets/Scripts/EndlessTerrain.cs:28-37 | the radius is the rounded view radius; the first pass around the origin creates exactly the window's chunks, all fresh and hidden, logs exactly their map requests, and lists nothing |
| EndlessTerrain.Update | Assets/Scripts/EndlessTerrain.cs:39-48 | the viewer position is always recorded; below the threshold nothing else changes; past it the previous position is updated and a pass over the window of the radius fixed at start around the viewer's chunk runs; the invariant holds and no key is removed |
| EndlessTerrain.MapDataArrived | Assets/Scripts/EndlessTerrain.cs:126-132 | the chunk records its map data and updates itself, becoming visible and listed exactly when within view; on the first delivery the log gains exactly the mesh request of the selected level when within view and nothing otherwise; the invariant holds |
| EndlessTerrain.MeshDataArrived | Assets/Scripts/EndlessTerrain.cs:205-211 | the level is marked as having its mesh, the invariant holds, and a chunk whose selected level just arrived is shown with it and listed |
| EndlessTerrain.RequestedAtMostOnce | Assets/Scripts/EndlessTerrain.cs:213-216 | in every reachable state no map or mesh request appears twice in the log |

## Left out

- Unity scene plumbing has no logic of its own and is left out: `GameObject`, `MeshRenderer`, `MeshFilter`, `MeshCollider`, `SetVisibile` and `IsVisible`, and `MeshData.CreateMesh`. A chunk's visibility is the `visible` field.
- Float geometry is left out. The viewer's distance to a chunk's bounds (`Mathf.Sqrt(bounds.SqrDistance(...))`) is an input, a real per coordinate. Chunk positions, bounds and the uniform scale are not modelled. Vertex positions, `topLeftX`/`topLeftZ`, `heightMultiplier` and `AnimationCurve.Evaluate` are replaced by the integer sample coordinate and the raw height. Reals stand in for 32-bit floats.
- `MapGenerator.RequestMapData` and `RequestMeshData` run on other threads. They become entries in a request log, and their callbacks become the events `MapDataArrived` and `MeshDataArrived`. The map data itself is not carried. `MapGenerator.cs` is not part of this model, so `mapChunkSize` (and with it the chunk size) is a parameter. The C# fields `chunkSize` and `chunkVisibleViewDistance` (EndlessTerrain.cs:22-23), fixed by `Start`, become parameters of `Update`; its requires ties the radius to `ViewRadius(levels, chunkSize)` as `Start` computes it.
- `Update`'s reading of the viewer's transform is an input: the position is already divided by the uniform scale.
- MeshGenerator.GenerateTerrainMesh: only square height maps are modelled (`IsSquare`), because the terrain always builds a `mapChunkSize x mapChunkSize` map.
- MeshGenerator.GenerateTerrainMesh: a negative level of detail is excluded by its requires. It gives a negative step. On an empty map the C# method still returns the sized buffers. On a map of width >= 1 the inner loop's second sample has a negative x, so it throws `IndexOutOfRangeException` at the latest when it reads `heightMap`.
- MeshGenerator.GenerateTerrainMesh: integers are unbounded. A map large enough for `vpl*vpl` or the index arithmetic to overflow 32 bits is not modelled.
- MeshGenerator.GenerateTerrainMesh: when the step does not divide width - 1, the model stops at the first overrunning `AddTriangle`. It states that the run fails and not which slots were written before the exception.
- Mesh.NewMeshData: its requires excludes negative sides and a negative triangle-buffer length. C# accepts two negative sides, since the products are then positive, and throws only on a negative array length. The only caller, `GenerateTerrainMesh`, passes vpl >= 0 for both sides.
- TerrainChunk.OnMeshDataReceived: requires that the level's mesh was requested. That holds for every callback the chunk grid can receive: `MeshDataArrived` takes its request from the log.
- EndlessTerrain.Update: states the recomputation's effect on the keys and the visible list. The full per-chunk effect is stated by `UpdateVisibleChunks`, which it calls.
- The C# list of visible chunks can hold a chunk twice: a mesh callback (EndlessTerrain.cs:210) re-runs the update, which appends the chunk at EndlessTerrain.cs:172 even when a pass or an earlier callback already listed it. The model keeps that behaviour and promises no duplicates only right after a pass.
- EndlessTerrain.MapDataArrived: accepts a delivery for any stored chunk. In C# the map request is made once per chunk, so each chunk gets one delivery.
- LevelOfDetail.ValidLevels: the level array must be non-empty. In C# an empty `detailLevels` throws at EndlessTerrain.cs:32; the model's requires excludes it.
- EndlessTerrain.Start: requires `chunkSize > 0`. The chunk size is `MapGenerator.mapChunkSize - 1`, a constant defined outside this model; a zero size would make the float divisions at EndlessTerrain.cs:34 and 58-59 produce infinities, which the model does not represent.
