/** `TerrainChunk` and `LODMesh`: one square of terrain, its per-level mesh
    records, and the update that picks a level and swaps meshes. */
module TerrainChunk {
  import opened LevelOfDetail

  datatype Option<+T> = None | Some(value: T)

  /** A chunk's integer grid coordinate (the dictionary key). */
  datatype Coord = Coord(x: int, y: int)

  /** Request and arrival state of one level's mesh. The flags only ever go
      from false to true. */
  datatype LODMesh = LODMesh(levelOfDetail: int, hasRequestedMesh: bool, hasMesh: bool)

  /** The chunk's state. `previousLod` is the level whose mesh is shown (-1:
      none yet); `visible` is whether the chunk's scene object is active. */
  datatype Chunk = Chunk(
    coord: Coord,
    lodMeshes: seq<LODMesh>,
    mapDataReceived: bool,
    previousLod: int,
    visible: bool)

  /** What one call of `UpdateTerrainChunk` did besides changing the chunk:
      whether it appended the chunk to the visible-last-update list, and
      which level's mesh it requested, if any. */
  datatype Updated = Updated(chunk: Chunk, addedToVisible: bool, meshRequest: Option<int>)

  /** The constructor's state: one empty record per configured level, no
      map data, no mesh shown, hidden. */
  function NewChunk(coord: Coord, levels: seq<LODInfo>): (c: Chunk)
    ensures c.coord == coord && |c.lodMeshes| == |levels|
    ensures forall i :: 0 <= i < |levels| ==>
      c.lodMeshes[i] == LODMesh(levels[i].levelOfDetail, false, false)
    ensures !c.mapDataReceived && c.previousLod == -1 && !c.visible
  {
    Chunk(coord, seq(|levels|, i requires 0 <= i < |levels| => LODMesh(levels[i].levelOfDetail, false, false)),
      false, -1, false)
  }

  /** What every reachable chunk satisfies: one record per level, a mesh
      arrives only after it was requested, a mesh is requested only after the
      map data arrived, the shown level has its mesh, and only a chunk with
      map data is ever shown. */
  ghost predicate ChunkInv(c: Chunk, levels: seq<LODInfo>) {
    && |c.lodMeshes| == |levels|
    && (forall i :: 0 <= i < |levels| ==> c.lodMeshes[i].levelOfDetail == levels[i].levelOfDetail)
    && (forall i :: 0 <= i < |levels| ==> c.lodMeshes[i].hasMesh ==> c.lodMeshes[i].hasRequestedMesh)
    && (forall i :: 0 <= i < |levels| ==> c.lodMeshes[i].hasRequestedMesh ==> c.mapDataReceived)
    && (c.previousLod == -1 || (0 <= c.previousLod < |levels| && c.lodMeshes[c.previousLod].hasMesh))
    && (c.visible ==> c.mapDataReceived)
  }

  /** `c'` is `c` updated in place, never replaced: same coordinate and
      levels, and every flag that was set stays set. */
  ghost predicate Grows(c: Chunk, c': Chunk) {
    && c'.coord == c.coord
    && |c'.lodMeshes| == |c.lodMeshes|
    && (c.mapDataReceived ==> c'.mapDataReceived)
    && forall i :: 0 <= i < |c.lodMeshes| ==>
         && c'.lodMeshes[i].levelOfDetail == c.lodMeshes[i].levelOfDetail
         && (c.lodMeshes[i].hasRequestedMesh ==> c'.lodMeshes[i].hasRequestedMesh)
         && (c.lodMeshes[i].hasMesh ==> c'.lodMeshes[i].hasMesh)
  }

  /** `UpdateTerrainChunk`, with the viewer's distance to the chunk's bounds
      as input. Before the map data arrives it does nothing. Afterwards the
      chunk is visible exactly when the distance is within the last level's
      threshold; a visible chunk that wants a level other than the shown one
      either swaps to it (its mesh is there) or requests it (not yet
      requested), and reports itself for the visible list. */
  function UpdateTerrainChunk(c: Chunk, levels: seq<LODInfo>, distance: real): (r: Updated)
    requires ValidLevels(levels) && |c.lodMeshes| == |levels|
    ensures Grows(c, r.chunk) && (ChunkInv(c, levels) ==> ChunkInv(r.chunk, levels))
    ensures r.chunk.coord == c.coord && r.chunk.mapDataReceived == c.mapDataReceived
    ensures !c.mapDataReceived ==> r == Updated(c, false, None)
    ensures c.mapDataReceived ==>
      && r.chunk.visible == (distance <= MaxViewDistance(levels))
      && r.addedToVisible == r.chunk.visible
    // The shown level changes only to the selected level, and only when that level's mesh is there.
    ensures r.chunk.previousLod != c.previousLod ==>
      && r.chunk.previousLod == LodIndex(levels, distance)
      && r.chunk.visible
      && c.lodMeshes[r.chunk.previousLod].hasMesh
    // A visible chunk shows the selected level as soon as its mesh is there.
    ensures (c.mapDataReceived && distance <= MaxViewDistance(levels) &&
             c.lodMeshes[LodIndex(levels, distance)].hasMesh) ==>
      r.chunk.previousLod == LodIndex(levels, distance)
    // A request is made only by a chunk with map data within view, for the
    // selected level when it is not the shown one, has no mesh and was not
    // yet requested; the request marks that level.
    ensures r.meshRequest.Some? ==>
      var i := r.meshRequest.value;
      && c.mapDataReceived && distance <= MaxViewDistance(levels)
      && i == LodIndex(levels, distance) && i != c.previousLod
      && !c.lodMeshes[i].hasMesh && !c.lodMeshes[i].hasRequestedMesh
      && r.chunk.lodMeshes == c.lodMeshes[i := c.lodMeshes[i].(hasRequestedMesh := true)]
    ensures r.meshRequest.None? ==> r.chunk.lodMeshes == c.lodMeshes
    ensures (c.mapDataReceived && distance <= MaxViewDistance(levels) &&
             LodIndex(levels, distance) != c.previousLod &&
             !c.lodMeshes[LodIndex(levels, distance)].hasMesh &&
             !c.lodMeshes[LodIndex(levels, distance)].hasRequestedMesh) ==>
      r.meshRequest == Some(LodIndex(levels, distance))
  {
    if !c.mapDataReceived then Updated(c, false, None)
    else
      var visible := distance <= MaxViewDistance(levels);
      if visible then
        var i := LodIndex(levels, distance);
        if i != c.previousLod then
          var lodMesh := c.lodMeshes[i];
          if lodMesh.hasMesh then
            Updated(c.(previousLod := i, visible := true), true, None)
          else if !lodMesh.hasRequestedMesh then
            var requested := c.lodMeshes[i := lodMesh.(hasRequestedMesh := true)];
            Updated(c.(lodMeshes := requested, visible := true), true, Some(i))
          else
            Updated(c.(visible := true), true, None)
        else
          Updated(c.(visible := true), true, None)
      else
        Updated(c.(visible := false), false, None)
  }

  /** `OnMapDataReceived`: records the map data, then runs the update. */
  function OnMapDataReceived(c: Chunk, levels: seq<LODInfo>, distance: real): (r: Updated)
    requires ValidLevels(levels) && |c.lodMeshes| == |levels|
    ensures Grows(c, r.chunk) && (ChunkInv(c, levels) ==> ChunkInv(r.chunk, levels))
    ensures r.chunk.mapDataReceived
    ensures r.chunk.visible == (distance <= MaxViewDistance(levels)) && r.addedToVisible == r.chunk.visible
    // On first arrival a chunk in view requests the mesh of the level it selects.
    ensures ChunkInv(c, levels) && !c.mapDataReceived ==>
      r.meshRequest == (if distance <= MaxViewDistance(levels) then Some(LodIndex(levels, distance)) else None)
  {
    UpdateTerrainChunk(c.(mapDataReceived := true), levels, distance)
  }

  /** `LODMesh.OnMeshDataReceived` for level i of the chunk: marks the mesh
      as present, then calls back into the chunk's update. The callback only
      exists once the mesh was requested. */
  function OnMeshDataReceived(c: Chunk, i: int, levels: seq<LODInfo>, distance: real): (r: Updated)
    requires ValidLevels(levels) && |c.lodMeshes| == |levels|
    requires 0 <= i < |levels| && c.lodMeshes[i].hasRequestedMesh
    ensures Grows(c, r.chunk) && (ChunkInv(c, levels) ==> ChunkInv(r.chunk, levels))
    ensures r.chunk.lodMeshes[i].hasMesh
    // The callback re-runs the update, so a chunk in view reports itself again.
    ensures ChunkInv(c, levels) ==>
      r.chunk.visible == (distance <= MaxViewDistance(levels)) && r.addedToVisible == r.chunk.visible
    // When the delivered level is the one the chunk wants, it is shown at once.
    ensures c.mapDataReceived && distance <= MaxViewDistance(levels) && i == LodIndex(levels, distance) ==>
      r.chunk.previousLod == i && r.chunk.visible
  {
    var delivered := c.(lodMeshes := c.lodMeshes[i := c.lodMeshes[i].(hasMesh := true)]);
    UpdateTerrainChunk(delivered, levels, distance)
  }

  /** Hiding a chunk first (as the start of each visibility pass does) does
      not change what its update produces. */
  lemma UpdateIgnoresHiding(c: Chunk, levels: seq<LODInfo>, distance: real)
    requires ValidLevels(levels) && ChunkInv(c, levels)
    ensures UpdateTerrainChunk(c.(visible := false), levels, distance) == UpdateTerrainChunk(c, levels, distance)
  {
  }

  /** Running the update twice at the same distance changes nothing the
      second time, except possibly adding one more request-free visible
      report: in particular no level is requested twice. */
  lemma UpdateSettles(c: Chunk, levels: seq<LODInfo>, distance: real)
    requires ValidLevels(levels) && |c.lodMeshes| == |levels|
    ensures var once := UpdateTerrainChunk(c, levels, distance);
      var twice := UpdateTerrainChunk(once.chunk, levels, distance);
      twice.chunk == once.chunk && twice.meshRequest.None?
  {
  }
}
