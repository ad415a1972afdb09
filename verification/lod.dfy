/** The configured detail levels (`LODInfo`) and the per-chunk choice of a
    level from the viewer's distance. */
module LevelOfDetail {

  /** One configured detail level: the mesh simplification level and the
      distance up to which it is used. */
  datatype LODInfo = LODInfo(levelOfDetail: int, visibleDistanceThreshold: real)

  /** `Start` reads the last level's threshold, so at least one level must
      be configured. */
  predicate ValidLevels(levels: seq<LODInfo>) {
    |levels| >= 1
  }

  /** The distance beyond which a chunk is hidden: the last level's
      threshold. Every distance within it is within the threshold of the
      level it selects. */
  function MaxViewDistance(levels: seq<LODInfo>): (d: real)
    requires ValidLevels(levels)
    ensures forall dist :: dist <= d ==> dist <= levels[LodIndex(levels, dist)].visibleDistanceThreshold
  {
    levels[|levels| - 1].visibleDistanceThreshold
  }

  /** Thresholds are meant to be configured in ascending order; then a
      chunk is visible exactly when the level it selects covers its
      distance. (Levels 200, 100 at distance 150 select level 0 and still
      hide the chunk.) */
  lemma VisibleIffCovered(levels: seq<LODInfo>, dist: real)
    requires ValidLevels(levels)
    requires forall i, j :: 0 <= i <= j < |levels| ==> levels[i].visibleDistanceThreshold <= levels[j].visibleDistanceThreshold
    ensures dist <= MaxViewDistance(levels) <==> dist <= levels[LodIndex(levels, dist)].visibleDistanceThreshold
  {
  }

  /** The selection loop started at index i: the first index j >= i below
      the last one whose threshold `distance` does not exceed, or the last
      index when there is none. */
  function LodFrom(levels: seq<LODInfo>, distance: real, i: int): (r: int)
    requires ValidLevels(levels) && 0 <= i <= |levels| - 1
    ensures i <= r <= |levels| - 1
    ensures forall j :: i <= j < r ==> distance > levels[j].visibleDistanceThreshold
    ensures r < |levels| - 1 ==> distance <= levels[r].visibleDistanceThreshold
    decreases |levels| - i
  {
    if i == |levels| - 1 then i
    else if distance > levels[i].visibleDistanceThreshold then LodFrom(levels, distance, i + 1)
    else i
  }

  /** The detail level a visible chunk at `distance` asks for. */
  function LodIndex(levels: seq<LODInfo>, distance: real): (r: int)
    requires ValidLevels(levels)
    ensures 0 <= r <= |levels| - 1
    ensures forall j :: 0 <= j < r ==> distance > levels[j].visibleDistanceThreshold
    ensures r < |levels| - 1 ==> distance <= levels[r].visibleDistanceThreshold
  {
    LodFrom(levels, distance, 0)
  }

  /** Independent statement of the choice: the least index below the last
      whose threshold is not exceeded, falling back to the last index. */
  ghost predicate IsFirstNotExceeded(levels: seq<LODInfo>, distance: real, r: int)
    requires ValidLevels(levels)
  {
    && 0 <= r <= |levels| - 1
    && (r < |levels| - 1 ==> distance <= levels[r].visibleDistanceThreshold)
    && forall j :: 0 <= j < r ==> distance > levels[j].visibleDistanceThreshold
  }

  /** The selection is exactly the first threshold not exceeded: it
      satisfies the characterisation, and nothing else does. */
  lemma LodIndexCharacterised(levels: seq<LODInfo>, distance: real, r: int)
    requires ValidLevels(levels)
    ensures IsFirstNotExceeded(levels, distance, r) <==> r == LodIndex(levels, distance)
  {
  }

  /** A farther viewer never selects a finer level. */
  lemma {:induction false} LodMonotone(levels: seq<LODInfo>, near: real, far: real, i: int)
    requires ValidLevels(levels) && 0 <= i <= |levels| - 1
    requires near <= far
    ensures LodFrom(levels, near, i) <= LodFrom(levels, far, i)
    decreases |levels| - i
  {
    if i < |levels| - 1 && near > levels[i].visibleDistanceThreshold {
      LodMonotone(levels, near, far, i + 1);
    }
  }
}
