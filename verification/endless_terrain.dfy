/** `EndlessTerrain`: the dictionary from grid coordinates to chunks, the
    list of chunks made visible by the last update, the viewer-movement
    threshold, and the window of coordinates visited around the viewer.
    Calls to the map generator are recorded in a request log; its answers
    arrive as the events `MapDataArrived` and `MeshDataArrived`. */
module EndlessTerrain {
  import opened Arith
  import opened LevelOfDetail
  import opened TerrainChunk

  datatype Vec2 = Vec2(x: real, y: real)

  /** A call to the map generator: height data for a chunk, or the mesh of
      one detail level of a chunk. */
  datatype Request = MapRequest(coord: Coord) | MeshRequest(coord: Coord, lodIndex: int)

  datatype Terrain = Terrain(
    chunks: map<Coord, Chunk>,
    visibleLastUpdate: seq<Coord>,
    viewerPosition: Vec2,
    previousViewerPosition: Vec2,
    requests: seq<Request>)

  /** The viewer must move farther than this (in world units, after the
      uniform scale) before the visible chunks are recomputed. */
  const ViewerMoveThreshold: real := 25.0
  const SquareViewerMoveThreshold: real := ViewerMoveThreshold * ViewerMoveThreshold

  ghost predicate NoDuplicates<T>(s: seq<T>) {
    forall a, b :: 0 <= a < b < |s| ==> s[a] != s[b]
  }

  /** Every chunk is stored under its own coordinate, has one mesh record
      per configured level, and is shown only once its map data arrived:
      all that the window loop needs. */
  ghost predicate ChunksShaped(t: Terrain, levels: seq<LODInfo>) {
    forall k :: k in t.chunks ==>
      && t.chunks[k].coord == k
      && |t.chunks[k].lodMeshes| == |levels|
      && (t.chunks[k].visible ==> t.chunks[k].mapDataReceived)
  }

  /** Every chunk is well formed. */
  ghost predicate ChunksInv(t: Terrain, levels: seq<LODInfo>) {
    forall k :: k in t.chunks ==> ChunkInv(t.chunks[k], levels)
  }

  /** The visible list names stored chunks and contains every visible one,
      so hiding the list hides every chunk. */
  ghost predicate VisibleListInv(t: Terrain) {
    && (forall k :: k in t.visibleLastUpdate ==> k in t.chunks)
    && (forall k :: k in t.chunks && t.chunks[k].visible ==> k in t.visibleLastUpdate)
  }

  /** The log holds exactly one map request per stored chunk, a mesh request
      for exactly the requested levels, and nothing twice. */
  ghost predicate LogInv(t: Terrain, levels: seq<LODInfo>) {
    && (forall k :: MapRequest(k) in t.requests <==> k in t.chunks)
    && (forall k, i :: MeshRequest(k, i) in t.requests <==>
          k in t.chunks && 0 <= i < |levels| && i < |t.chunks[k].lodMeshes| &&
          t.chunks[k].lodMeshes[i].hasRequestedMesh)
    && NoDuplicates(t.requests)
  }

  /** What holds between any two events. */
  ghost predicate TerrainInv(t: Terrain, levels: seq<LODInfo>) {
    ChunksShaped(t, levels) && ChunksInv(t, levels) && VisibleListInv(t) && LogInv(t, levels)
  }

  /** No chunk is removed, and every chunk is updated in place. */
  ghost predicate ChunksGrow(t: Terrain, t': Terrain) {
    && (forall k :: k in t.chunks ==> k in t'.chunks && Grows(t.chunks[k], t'.chunks[k]))
    && t.requests <= t'.requests
  }

  /** The square window of (2r+1)^2 coordinates around the viewer's chunk. */
  predicate InWindow(k: Coord, center: Coord, radius: int) {
    -radius <= k.x - center.x <= radius && -radius <= k.y - center.y <= radius
  }

  /** The window coordinates the nested loops have visited when they are
      about to visit column xOffset of row yOffset: all earlier rows, and
      the earlier columns of this row. */
  predicate VisitedBefore(k: Coord, center: Coord, radius: int, yOffset: int, xOffset: int) {
    && InWindow(k, center, radius)
    && (k.y - center.y < yOffset || (k.y - center.y == yOffset && k.x - center.x < xOffset))
  }

  // ---------------------------------------------------------------------
  // Steps of `UpdateVisibleChunks`

  /** The first half of `UpdateVisibleChunks`: every chunk in the visible
      list is hidden, and the list is cleared. */
  function HideLastVisible(t: Terrain): (t': Terrain)
    ensures t'.chunks.Keys == t.chunks.Keys && t'.visibleLastUpdate == []
    ensures forall k :: k in t.chunks ==>
      t'.chunks[k] == (if k in t.visibleLastUpdate then t.chunks[k].(visible := false) else t.chunks[k])
    ensures t'.requests == t.requests && t'.viewerPosition == t.viewerPosition
    ensures t'.previousViewerPosition == t.previousViewerPosition
  {
    var hidden := map k | k in t.chunks :: if k in t.visibleLastUpdate then t.chunks[k].(visible := false) else t.chunks[k];
    t.(chunks := hidden, visibleLastUpdate := [])
  }

  /** `u` is a possible result of running the update of chunk `c` after at
      most a mesh arrival: well formed when `c` was, in place, reported for
      the visible list exactly when visible, shown only with map data, and
      with the requested flags changed only by the request it reports. */
  ghost predicate LegalUpdate(c: Chunk, u: Updated, levels: seq<LODInfo>) {
    && (ChunkInv(c, levels) ==> ChunkInv(u.chunk, levels)) && Grows(c, u.chunk)
    && ((c.visible ==> c.mapDataReceived) ==>
          u.addedToVisible == u.chunk.visible && (u.chunk.visible ==> u.chunk.mapDataReceived))
    && |c.lodMeshes| == |levels|
    && (u.meshRequest.Some? ==> 0 <= u.meshRequest.value < |levels| && !c.lodMeshes[u.meshRequest.value].hasRequestedMesh)
    && forall i :: 0 <= i < |levels| ==>
         u.chunk.lodMeshes[i].hasRequestedMesh == (c.lodMeshes[i].hasRequestedMesh || u.meshRequest == Some(i))
  }

  /** Stores the updated chunk, appends it to the visible list when it
      reported itself, and logs its mesh request. */
  function ApplyUpdate(t: Terrain, levels: seq<LODInfo>, k: Coord, u: Updated): (t': Terrain)
    requires ChunksShaped(t, levels) && k in t.chunks && LegalUpdate(t.chunks[k], u, levels)
    ensures ChunksShaped(t', levels)
    ensures t'.chunks == t.chunks[k := u.chunk]
    ensures t'.visibleLastUpdate == t.visibleLastUpdate + (if u.chunk.visible then [k] else [])
    ensures t'.requests == t.requests + (if u.meshRequest.Some? then [MeshRequest(k, u.meshRequest.value)] else [])
    ensures t'.viewerPosition == t.viewerPosition && t'.previousViewerPosition == t.previousViewerPosition
  {
    var logged := if u.meshRequest.Some? then [MeshRequest(k, u.meshRequest.value)] else [];
    t.(chunks := t.chunks[k := u.chunk],
       visibleLastUpdate := t.visibleLastUpdate + (if u.addedToVisible then [k] else []),
       requests := t.requests + logged)
  }

  /** Storing a legal update keeps the invariant: the log gains exactly the
      one mesh request whose flag the update set. */
  lemma ApplyUpdateKeepsInv(t: Terrain, levels: seq<LODInfo>, k: Coord, u: Updated)
    requires TerrainInv(t, levels) && k in t.chunks && LegalUpdate(t.chunks[k], u, levels)
    ensures TerrainInv(ApplyUpdate(t, levels, k, u), levels) && ChunksGrow(t, ApplyUpdate(t, levels, k, u))
  {
    ApplyUpdateKeepsLog(t, levels, k, u);
  }

  lemma ApplyUpdateKeepsLog(t: Terrain, levels: seq<LODInfo>, k: Coord, u: Updated)
    requires TerrainInv(t, levels) && k in t.chunks && LegalUpdate(t.chunks[k], u, levels)
    ensures LogInv(ApplyUpdate(t, levels, k, u), levels)
  {
    var t' := ApplyUpdate(t, levels, k, u);
    forall k', i ensures MeshRequest(k', i) in t'.requests <==>
      k' in t'.chunks && 0 <= i < |levels| && i < |t'.chunks[k'].lodMeshes| &&
      t'.chunks[k'].lodMeshes[i].hasRequestedMesh
    {
      assert MeshRequest(k', i) in t'.requests <==>
        MeshRequest(k', i) in t.requests || (u.meshRequest.Some? && MeshRequest(k', i) == MeshRequest(k, u.meshRequest.value));
    }
    forall k' ensures MapRequest(k') in t'.requests <==> k' in t'.chunks {
      assert MapRequest(k') in t'.requests <==> MapRequest(k') in t.requests;
    }
  }

  /** An absent coordinate met by the window loop gets a new chunk, whose
      constructor logs the map-data request. */
  function CreateChunk(t: Terrain, levels: seq<LODInfo>, k: Coord): (t': Terrain)
    requires ChunksShaped(t, levels) && k !in t.chunks
    ensures ChunksShaped(t', levels)
    ensures t'.chunks == t.chunks[k := NewChunk(k, levels)]
    ensures t'.requests == t.requests + [MapRequest(k)]
    ensures t'.visibleLastUpdate == t.visibleLastUpdate
    ensures t'.viewerPosition == t.viewerPosition && t'.previousViewerPosition == t.previousViewerPosition
  {
    t.(chunks := t.chunks[k := NewChunk(k, levels)], requests := t.requests + [MapRequest(k)])
  }

  /** Creating a chunk keeps the invariant: the log gains exactly its map
      request, and a new chunk has requested no mesh. */
  lemma CreateChunkKeepsInv(t: Terrain, levels: seq<LODInfo>, k: Coord)
    requires TerrainInv(t, levels) && k !in t.chunks
    ensures TerrainInv(CreateChunk(t, levels, k), levels) && ChunksGrow(t, CreateChunk(t, levels, k))
  {
    var t' := CreateChunk(t, levels, k);
    forall k', i ensures MeshRequest(k', i) in t'.requests <==>
      k' in t'.chunks && 0 <= i < |levels| && i < |t'.chunks[k'].lodMeshes| &&
      t'.chunks[k'].lodMeshes[i].hasRequestedMesh
    {
      assert MeshRequest(k', i) in t'.requests <==> MeshRequest(k', i) in t.requests;
    }
    forall k' ensures MapRequest(k') in t'.requests <==> k' in t'.chunks {
      assert MapRequest(k') in t'.requests <==> MapRequest(k') in t.requests || k' == k;
    }
  }

  /** The body of the window loop for one coordinate: an existing chunk is
      updated (and may join the visible list or request a mesh); an absent
      one is created, which requests its map data. */
  function VisitCoord(t: Terrain, levels: seq<LODInfo>, k: Coord, distance: real): (t': Terrain)
    requires ValidLevels(levels) && ChunksShaped(t, levels)
    ensures ChunksShaped(t', levels)
  {
    if k in t.chunks then ApplyUpdate(t, levels, k, UpdateTerrainChunk(t.chunks[k], levels, distance))
    else CreateChunk(t, levels, k)
  }

  /** The chunk stored at k after visiting it: the existing chunk updated
      at the given distance, or a fresh one. */
  function VisitedChunk(t: Terrain, levels: seq<LODInfo>, k: Coord, distance: real): Chunk
    requires ValidLevels(levels) && ChunksShaped(t, levels)
  {
    if k in t.chunks then UpdateTerrainChunk(t.chunks[k], levels, distance).chunk else NewChunk(k, levels)
  }

  /** What visiting one coordinate does: an existing chunk is replaced by
      its update at the given distance and listed when it is now visible;
      an absent one gets a fresh chunk, which is not listed. */
  lemma VisitCoordEffect(t: Terrain, levels: seq<LODInfo>, k: Coord, distance: real)
    requires ValidLevels(levels) && ChunksShaped(t, levels)
    ensures var t' := VisitCoord(t, levels, k, distance);
      && t'.chunks == t.chunks[k := VisitedChunk(t, levels, k, distance)]
      && t'.visibleLastUpdate == t.visibleLastUpdate + (if k in t.chunks && t'.chunks[k].visible then [k] else [])
      && t'.viewerPosition == t.viewerPosition && t'.previousViewerPosition == t.previousViewerPosition
  {
  }

  lemma VisitCoordKeepsInv(t: Terrain, levels: seq<LODInfo>, k: Coord, distance: real)
    requires ValidLevels(levels) && TerrainInv(t, levels)
    ensures TerrainInv(VisitCoord(t, levels, k, distance), levels) && ChunksGrow(t, VisitCoord(t, levels, k, distance))
  {
    if k in t.chunks {
      ApplyUpdateKeepsInv(t, levels, k, UpdateTerrainChunk(t.chunks[k], levels, distance));
    } else {
      CreateChunkKeepsInv(t, levels, k);
    }
  }

  /** Hiding the visible list leaves every chunk hidden and otherwise as it
      was, and keeps the invariant. */
  lemma HideKeepsInv(t: Terrain, levels: seq<LODInfo>)
    requires TerrainInv(t, levels)
    ensures TerrainInv(HideLastVisible(t), levels) && ChunksGrow(t, HideLastVisible(t))
    ensures forall k :: k in t.chunks ==> HideLastVisible(t).chunks[k] == t.chunks[k].(visible := false)
  {
    var t0 := HideLastVisible(t);
    HideHidesAll(t, levels);
    HideKeepsLog(t, levels);
    forall k | k in t0.chunks
      ensures t0.chunks[k].coord == k && |t0.chunks[k].lodMeshes| == |levels| && !t0.chunks[k].visible
      ensures ChunkInv(t0.chunks[k], levels) && Grows(t.chunks[k], t0.chunks[k])
    {
      assert t0.chunks[k] == t.chunks[k].(visible := false);
    }
  }

  lemma HideKeepsLog(t: Terrain, levels: seq<LODInfo>)
    requires TerrainInv(t, levels)
    ensures LogInv(HideLastVisible(t), levels)
  {
    var t0 := HideLastVisible(t);
    assert forall k :: k in t0.chunks ==> t0.chunks[k].lodMeshes == t.chunks[k].lodMeshes;
  }

  lemma HideHidesAll(t: Terrain, levels: seq<LODInfo>)
    requires TerrainInv(t, levels)
    ensures forall k :: k in t.chunks ==> HideLastVisible(t).chunks[k] == t.chunks[k].(visible := false)
  {
    var t0 := HideLastVisible(t);
    forall k | k in t.chunks ensures t0.chunks[k] == t.chunks[k].(visible := false) {
      if k !in t.visibleLastUpdate {
        assert !t.chunks[k].visible;
      }
    }
  }

  lemma ChunksGrowTrans(t: Terrain, t1: Terrain, t2: Terrain)
    requires ChunksGrow(t, t1) && ChunksGrow(t1, t2)
    ensures ChunksGrow(t, t2)
  {
    forall k | k in t.chunks ensures k in t2.chunks && Grows(t.chunks[k], t2.chunks[k]) {
      assert Grows(t1.chunks[k], t2.chunks[k]);
    }
  }

  lemma NoDuplicatesSnoc<T>(s: seq<T>, x: T, add: bool)
    requires NoDuplicates(s) && x !in s
    ensures NoDuplicates(s + (if add then [x] else []))
  {
  }

  /** What a visibility pass over `t` keeps at every step: the invariant
      holds, chunks only grew, and the viewer positions are untouched. */
  ghost predicate PassInv(t: Terrain, levels: seq<LODInfo>, t': Terrain) {
    && TerrainInv(t', levels) && ChunksGrow(t, t')
    && t'.viewerPosition == t.viewerPosition && t'.previousViewerPosition == t.previousViewerPosition
  }

  /** The chunks of a visibility pass over `t` once the coordinates in
      `done` have been visited: the visited coordinates all have chunks,
      updated at their distance when they existed and fresh otherwise; the
      other chunks are as before but hidden. */
  ghost predicate PassChunks(t: Terrain, levels: seq<LODInfo>, t': Terrain, done: set<Coord>, distance: Coord -> real)
    requires ValidLevels(levels) && ChunksShaped(t, levels)
  {
    && (forall k :: k in t'.chunks <==> k in t.chunks || k in done)
    && (forall k :: k in t.chunks && k !in done ==> t'.chunks[k] == t.chunks[k].(visible := false))
    && (forall k :: k in t.chunks && k in done ==>
          t'.chunks[k] == UpdateTerrainChunk(t.chunks[k], levels, distance(k)).chunk)
    && (forall k :: k !in t.chunks && k in done ==> t'.chunks[k] == NewChunk(k, levels))
  }

  /** The visible list of such a pass: exactly the visited chunks that
      existed and are now visible, each once. */
  ghost predicate PassList(t: Terrain, t': Terrain, done: set<Coord>) {
    && (forall k :: k in t'.visibleLastUpdate <==> k in done && k in t.chunks && k in t'.chunks && t'.chunks[k].visible)
    && NoDuplicates(t'.visibleLastUpdate)
  }

  /** A pass starts from the terrain with its visible list hidden. */
  lemma PassStarts(t: Terrain, levels: seq<LODInfo>, distance: Coord -> real)
    requires ValidLevels(levels) && TerrainInv(t, levels)
    ensures PassInv(t, levels, HideLastVisible(t))
    ensures PassChunks(t, levels, HideLastVisible(t), {}, distance) && PassList(t, HideLastVisible(t), {})
  {
    HideKeepsInv(t, levels);
  }

  /** Each visit keeps what the pass keeps. */
  lemma PassInvStep(t: Terrain, levels: seq<LODInfo>, p: Terrain, k: Coord, distance: real)
    requires ValidLevels(levels) && PassInv(t, levels, p)
    ensures PassInv(t, levels, VisitCoord(p, levels, k, distance))
  {
    VisitCoordKeepsInv(p, levels, k, distance);
    VisitCoordEffect(p, levels, k, distance);
    ChunksGrowTrans(t, p, VisitCoord(p, levels, k, distance));
  }

  /** Visiting one more coordinate extends the chunks of the pass by it. */
  lemma PassChunksStep(t: Terrain, levels: seq<LODInfo>, p: Terrain, done: set<Coord>, k: Coord, distance: Coord -> real)
    requires ValidLevels(levels) && TerrainInv(t, levels) && ChunksShaped(p, levels)
    requires PassChunks(t, levels, p, done, distance) && k !in done
    ensures PassChunks(t, levels, VisitCoord(p, levels, k, distance(k)), done + {k}, distance)
  {
    var p' := VisitCoord(p, levels, k, distance(k));
    VisitCoordEffect(p, levels, k, distance(k));
    forall k' | k' in t.chunks && k' in done + {k}
      ensures p'.chunks[k'] == UpdateTerrainChunk(t.chunks[k'], levels, distance(k')).chunk
    {
      if k' == k {
        UpdateIgnoresHiding(t.chunks[k], levels, distance(k));
      }
    }
  }

  /** Visiting one more coordinate extends the visible list of the pass by
      it when its existing chunk is now visible. */
  lemma PassListStep(t: Terrain, levels: seq<LODInfo>, p: Terrain, done: set<Coord>, k: Coord, distance: real)
    requires ValidLevels(levels) && ChunksShaped(p, levels)
    requires (forall k' :: k' in p.chunks <==> k' in t.chunks || k' in done)
    requires PassList(t, p, done) && k !in done
    ensures PassList(t, VisitCoord(p, levels, k, distance), done + {k})
  {
    var p' := VisitCoord(p, levels, k, distance);
    VisitCoordEffect(p, levels, k, distance);
    assert k !in p.visibleLastUpdate;
    var listed := k in p.chunks && p'.chunks[k].visible;
    NoDuplicatesSnoc(p.visibleLastUpdate, k, listed);
    forall k' ensures k' in p'.visibleLastUpdate <==>
      k' in done + {k} && k' in t.chunks && k' in p'.chunks && p'.chunks[k'].visible
    {
      if k' != k {
        assert k' in p'.visibleLastUpdate <==> k' in p.visibleLastUpdate;
      }
    }
  }

  /** Moving the loops on by one column adds exactly the current coordinate
      to the visited ones. */
  lemma NextColumn(done: set<Coord>, done': set<Coord>, center: Coord, radius: int, yOffset: int, xOffset: int)
    requires -radius <= yOffset <= radius && -radius <= xOffset <= radius
    requires forall k :: k in done <==> VisitedBefore(k, center, radius, yOffset, xOffset)
    requires done' == done + {Coord(center.x + xOffset, center.y + yOffset)}
    ensures forall k :: k in done' <==> VisitedBefore(k, center, radius, yOffset, xOffset + 1)
  {
    forall k ensures k in done' <==> VisitedBefore(k, center, radius, yOffset, xOffset + 1) {
      assert k == Coord(center.x + xOffset, center.y + yOffset) <==>
        k.x - center.x == xOffset && k.y - center.y == yOffset;
    }
  }

  /** Finishing a row is starting the next. */
  lemma NextWindowRow(done: set<Coord>, center: Coord, radius: int, yOffset: int)
    requires forall k :: k in done <==> VisitedBefore(k, center, radius, yOffset, radius + 1)
    ensures forall k :: k in done <==> VisitedBefore(k, center, radius, yOffset + 1, -radius)
  {
  }

  /** `UpdateVisibleChunks`: hides and clears the visible list, then walks
      the (2r+1)^2 window around the viewer's chunk row by row, updating the
      chunk at each coordinate or creating it when absent. */
  method UpdateVisibleChunks(t: Terrain, levels: seq<LODInfo>, center: Coord, radius: int, distance: Coord -> real)
    returns (t': Terrain)
    requires ValidLevels(levels) && TerrainInv(t, levels)
    ensures TerrainInv(t', levels) && ChunksGrow(t, t')
    ensures forall k :: k in t'.chunks <==> k in t.chunks || InWindow(k, center, radius)
    ensures forall k :: k in t'.chunks && k !in t.chunks ==> t'.chunks[k] == NewChunk(k, levels)
    ensures forall k :: k in t.chunks && InWindow(k, center, radius) ==>
      t'.chunks[k] == UpdateTerrainChunk(t.chunks[k], levels, distance(k)).chunk
    ensures forall k :: k in t.chunks && !InWindow(k, center, radius) ==>
      t'.chunks[k] == t.chunks[k].(visible := false)
    ensures forall k :: k in t'.visibleLastUpdate <==>
      k in t.chunks && InWindow(k, center, radius) && t'.chunks[k].visible
    ensures NoDuplicates(t'.visibleLastUpdate)
    ensures t'.viewerPosition == t.viewerPosition && t'.previousViewerPosition == t.previousViewerPosition
  {
    t' := HideLastVisible(t);
    PassStarts(t, levels, distance);
    ghost var done: set<Coord> := {};
    var yOffset := -radius;
    while yOffset <= radius
      invariant radius >= 0 ==> yOffset <= radius + 1
      invariant PassInv(t, levels, t') && PassChunks(t, levels, t', done, distance) && PassList(t, t', done)
      invariant forall k :: k in done <==> VisitedBefore(k, center, radius, yOffset, -radius)
      decreases radius - yOffset
    {
      var xOffset := -radius;
      while xOffset <= radius
        invariant -radius <= xOffset <= radius + 1
        invariant PassInv(t, levels, t') && PassChunks(t, levels, t', done, distance) && PassList(t, t', done)
        invariant forall k :: k in done <==> VisitedBefore(k, center, radius, yOffset, xOffset)
        decreases radius - xOffset
      {
        var k := Coord(center.x + xOffset, center.y + yOffset);
        PassInvStep(t, levels, t', k, distance(k));
        PassChunksStep(t, levels, t', done, k, distance);
        PassListStep(t, levels, t', done, k, distance(k));
        NextColumn(done, done + {k}, center, radius, yOffset, xOffset);
        t' := VisitCoord(t', levels, k, distance(k));
        done := done + {k};
        xOffset := xOffset + 1;
      }
      NextWindowRow(done, center, radius, yOffset);
      yOffset := yOffset + 1;
    }
  }

  // ---------------------------------------------------------------------
  // The component's entry points

  function SqrMagnitude(v: Vec2): real {
    v.x * v.x + v.y * v.y
  }

  /** Whether the viewer has moved far enough since the last recomputation:
      the squared length of the displacement strictly exceeds the squared
      threshold. */
  function ShouldRecompute(previous: Vec2, viewer: Vec2): (b: bool)
    ensures b <==> (viewer.x - previous.x) * (viewer.x - previous.x) + (viewer.y - previous.y) * (viewer.y - previous.y) > 625.0
    ensures b ==> viewer != previous
  {
    SqrMagnitude(Vec2(previous.x - viewer.x, previous.y - viewer.y)) > SquareViewerMoveThreshold
  }

  /** Moving exactly the threshold is not enough; moving farther is, in any
      direction; and staying put never triggers a recomputation. */
  lemma ThresholdIsStrict(previous: Vec2, dx: real, dy: real)
    ensures ShouldRecompute(previous, previous) == false
    ensures dx * dx + dy * dy == 625.0 ==> !ShouldRecompute(previous, Vec2(previous.x + dx, previous.y + dy))
    ensures dx * dx + dy * dy > 625.0 ==> ShouldRecompute(previous, Vec2(previous.x + dx, previous.y + dy))
  {
  }

  /** The chunk coordinate the viewer stands in: each coordinate of the
      position divided by the chunk size and rounded. */
  function ViewerChunk(viewer: Vec2, chunkSize: int): (k: Coord)
    requires chunkSize > 0
    ensures viewer.x / chunkSize as real - 0.5 <= k.x as real <= viewer.x / chunkSize as real + 0.5
    ensures viewer.y / chunkSize as real - 0.5 <= k.y as real <= viewer.y / chunkSize as real + 0.5
  {
    Coord(RoundToInt(viewer.x / chunkSize as real), RoundToInt(viewer.y / chunkSize as real))
  }

  /** The window radius in chunks: the largest visibility threshold divided
      by the chunk size, rounded to the nearest integer. */
  function ViewRadius(levels: seq<LODInfo>, chunkSize: int): (radius: int)
    requires ValidLevels(levels) && chunkSize > 0
    ensures MaxViewDistance(levels) / chunkSize as real - 0.5 <= radius as real
    ensures radius as real <= MaxViewDistance(levels) / chunkSize as real + 0.5
  {
    RoundToInt(MaxViewDistance(levels) / chunkSize as real)
  }

  /** The radius is rounded, not rounded up: with 240-unit chunks a largest
      threshold of 300 gives a radius of 1 (a ceiling would give 2), 450
      gives 2, and the tie 360 (1.5 chunks) goes to the even 2. */
  lemma ViewRadiusRounds()
    ensures ViewRadius([LODInfo(0, 300.0)], 240) == 1
    ensures ViewRadius([LODInfo(0, 200.0), LODInfo(4, 450.0)], 240) == 2
    ensures ViewRadius([LODInfo(0, 360.0)], 240) == 2
  {
    RoundToIntCharacterised(300.0 / 240.0, 1);
    RoundToIntCharacterised(450.0 / 240.0, 2);
    RoundToIntCharacterised(360.0 / 240.0, 2);
  }

  /** The scene before `Start`: no chunk, nothing visible, nothing requested,
      the viewer at the origin. */
  function EmptyTerrain(): (t: Terrain)
    ensures t.chunks == map[] && t.visibleLastUpdate == [] && t.requests == []
    ensures forall levels :: TerrainInv(t, levels)
  {
    Terrain(map[], [], Vec2(0.0, 0.0), Vec2(0.0, 0.0), [])
  }

  /** `Start`: fixes the window radius from the configured levels and runs
      the first visibility pass around the origin. Every coordinate of the
      window gets a fresh hidden chunk that has requested its map data, and
      nothing else exists. */
  method Start(levels: seq<LODInfo>, chunkSize: int, distance: Coord -> real) returns (t: Terrain, radius: int)
    requires ValidLevels(levels) && chunkSize > 0
    ensures radius == ViewRadius(levels, chunkSize)
    ensures TerrainInv(t, levels)
    ensures forall k :: k in t.chunks <==> InWindow(k, Coord(0, 0), radius)
    ensures forall k :: k in t.chunks ==> t.chunks[k] == NewChunk(k, levels)
    ensures forall k :: k in t.chunks ==> !t.chunks[k].visible
    ensures forall k :: MapRequest(k) in t.requests <==> InWindow(k, Coord(0, 0), radius)
    ensures forall k :: k !in t.visibleLastUpdate
  {
    radius := ViewRadius(levels, chunkSize);
    var t0 := EmptyTerrain();
    var center := ViewerChunk(t0.viewerPosition, chunkSize);
    assert center == Coord(0, 0);
    t := UpdateVisibleChunks(t0, levels, center, radius, distance);
    assert forall k :: k in t.chunks ==> t.chunks[k] == NewChunk(k, levels);
    forall k ensures MapRequest(k) in t.requests <==> InWindow(k, Coord(0, 0), radius) {
      assert MapRequest(k) in t.requests <==> k in t.chunks;
    }
  }

  /** `Update`, once per frame: records the viewer's position (already
      divided by the terrain's uniform scale) and, when the viewer has moved
      past the threshold since the last recomputation, remembers this
      position and runs a visibility pass around the viewer's chunk.
      `distance` gives each chunk's distance from the new position. */
  method Update(t: Terrain, levels: seq<LODInfo>, viewer: Vec2, chunkSize: int, radius: int, distance: Coord -> real)
    returns (t': Terrain)
    requires ValidLevels(levels) && TerrainInv(t, levels) && chunkSize > 0
    requires radius == ViewRadius(levels, chunkSize)
    ensures TerrainInv(t', levels) && ChunksGrow(t, t')
    ensures t'.viewerPosition == viewer
    ensures !ShouldRecompute(t.previousViewerPosition, viewer) ==> t' == t.(viewerPosition := viewer)
    ensures ShouldRecompute(t.previousViewerPosition, viewer) ==>
      && t'.previousViewerPosition == viewer
      && (forall k :: k in t'.chunks <==> k in t.chunks || InWindow(k, ViewerChunk(viewer, chunkSize), radius))
      && (forall k :: k in t'.visibleLastUpdate ==> InWindow(k, ViewerChunk(viewer, chunkSize), radius))
  {
    t' := t.(viewerPosition := viewer);
    if ShouldRecompute(t.previousViewerPosition, viewer) {
      t' := t'.(previousViewerPosition := viewer);
      t' := UpdateVisibleChunks(t', levels, ViewerChunk(viewer, chunkSize), radius, distance);
    }
  }

  /** The map generator answers the map-data request of chunk k: the chunk
      records its map data and updates itself at the viewer's current
      distance, which may show it, add it to the visible list and request
      the selected level's mesh. */
  function MapDataArrived(t: Terrain, levels: seq<LODInfo>, k: Coord, distance: real): (t': Terrain)
    requires ValidLevels(levels) && TerrainInv(t, levels) && k in t.chunks
    ensures TerrainInv(t', levels) && ChunksGrow(t, t')
    ensures t'.chunks == t.chunks[k := OnMapDataReceived(t.chunks[k], levels, distance).chunk]
    ensures t'.chunks[k].mapDataReceived
    ensures t'.chunks[k].visible <==> distance <= MaxViewDistance(levels)
    ensures k in t'.visibleLastUpdate <==> k in t.visibleLastUpdate || distance <= MaxViewDistance(levels)
    // The first delivery of a chunk in view logs the mesh request of its selected level.
    ensures !t.chunks[k].mapDataReceived ==>
      t'.requests == t.requests + (if distance <= MaxViewDistance(levels) then [MeshRequest(k, LodIndex(levels, distance))] else [])
  {
    var u := OnMapDataReceived(t.chunks[k], levels, distance);
    ApplyUpdateKeepsInv(t, levels, k, u);
    ApplyUpdate(t, levels, k, u)
  }

  /** The map generator answers the mesh request for level i of chunk k:
      the level's mesh is marked present and the chunk updates itself,
      showing that level at once when it is the one the viewer's distance
      selects. */
  function MeshDataArrived(t: Terrain, levels: seq<LODInfo>, k: Coord, i: int, distance: real): (t': Terrain)
    requires ValidLevels(levels) && TerrainInv(t, levels) && k in t.chunks
    requires MeshRequest(k, i) in t.requests
    ensures TerrainInv(t', levels) && ChunksGrow(t, t')
    ensures t'.chunks == t.chunks[k := OnMeshDataReceived(t.chunks[k], i, levels, distance).chunk]
    ensures t'.chunks[k].lodMeshes[i].hasMesh
    ensures distance <= MaxViewDistance(levels) && i == LodIndex(levels, distance) ==>
      t'.chunks[k].previousLod == i && t'.chunks[k].visible && k in t'.visibleLastUpdate
  {
    var u := OnMeshDataReceived(t.chunks[k], i, levels, distance);
    ApplyUpdateKeepsInv(t, levels, k, u);
    ApplyUpdate(t, levels, k, u)
  }

  /** What the request log guarantees at every point: the map data of a
      chunk and the mesh of one of its levels are each requested at most
      once. */
  lemma RequestedAtMostOnce(t: Terrain, levels: seq<LODInfo>, a: int, b: int)
    requires TerrainInv(t, levels) && 0 <= a < b < |t.requests|
    ensures t.requests[a] != t.requests[b]
  {
  }
}
