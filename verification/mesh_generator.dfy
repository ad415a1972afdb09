/** `MeshGenerator.GenerateTerrainMesh`: turns a square height map and a level
    of detail into a vertex grid of verticesPerLine x verticesPerLine samples
    and a triangle index buffer of two triangles per grid cell. */
module MeshGenerator {
  import opened Arith
  import opened Mesh

  /** Every row of the height map is as long as the map is wide. */
  ghost predicate IsSquare(heightMap: seq<seq<real>>) {
    forall i :: 0 <= i < |heightMap| ==> |heightMap[i]| == |heightMap|
  }

  /** Sampling step: level 0 keeps every sample, level l > 0 keeps every
      (2l)-th; a higher level always samples more coarsely. */
  function SimplificationIncrement(levelOfDetail: int): (inc: int)
    ensures levelOfDetail >= 0 ==> inc >= 1
    ensures levelOfDetail > 0 ==> inc % 2 == 0 && inc > levelOfDetail
  {
    if levelOfDetail == 0 then 1 else levelOfDetail * 2
  }

  /** The number of sample positions 0, inc, 2*inc, ... that lie below
      `width`, computed with C#'s truncating division. */
  function VerticesPerLine(width: int, inc: int): (vpl: int)
    requires inc >= 1
    ensures width >= 1 ==> vpl >= 1 && (vpl - 1) * inc <= width - 1 < vpl * inc
    ensures width == 0 ==> vpl == (if inc == 1 then 0 else 1)
    ensures width >= 0 ==> vpl >= 0
  {
    CsDiv(width - 1, inc) + 1
  }

  /** The i-th sample position of a line is visited by the loop exactly
      when i < verticesPerLine. */
  lemma VisitedIff(width: int, inc: int, i: int)
    requires width >= 1 && inc >= 1 && i >= 0
    ensures i * inc < width <==> i < VerticesPerLine(width, inc)
  {
    var vpl := VerticesPerLine(width, inc);
    if i < vpl {
      MulLeft(i, vpl - 1, inc);
    } else {
      MulLeft(vpl, i, inc);
    }
  }

  /** A visited position i starts a quad (position < width - 1) exactly when
      it is not the last one, or when `inc` does not divide `width - 1`. */
  lemma QuadIff(width: int, inc: int, i: int)
    requires width >= 1 && inc >= 1
    requires 0 <= i < VerticesPerLine(width, inc)
    ensures i * inc < width - 1 <==>
      (i < VerticesPerLine(width, inc) - 1 || (width - 1) % inc != 0)
  {
    var vpl := VerticesPerLine(width, inc);
    assert (vpl - 1) == (width - 1) / inc;
    assert width - 1 == (vpl - 1) * inc + (width - 1) % inc;
    if i < vpl - 1 {
      MulStrict(i, vpl - 1, inc);
    }
  }

  // ---------------------------------------------------------------------
  // Reference definition of the finished buffers

  /** The six indices emitted for the quad whose top-left vertex is v:
      triangles (v, v+vpl+1, v+vpl) and (v+vpl+1, v, v+1). */
  function QuadCorners(v: int, vpl: int): seq<int> {
    [v, v + vpl + 1, v + vpl, v + vpl + 1, v, v + 1]
  }

  /** Top-left vertex of the q-th quad in emission order: quads are emitted
      row by row, vpl - 1 of them per row. */
  function QuadVertex(q: int, vpl: int): int
    requires vpl >= 2
  {
    (q / (vpl - 1)) * vpl + q % (vpl - 1)
  }

  /** Entry j of the finished triangle buffer. */
  function TriangleAt(j: int, vpl: int): int
    requires vpl >= 2
  {
    QuadCorners(QuadVertex(j / 6, vpl), vpl)[j % 6]
  }

  /** Vertex slot k holds the sample at column k % vpl and row k / vpl,
      scaled by the sampling step (Unset when that lies off the map). */
  function ExpectedVertex(heightMap: seq<seq<real>>, inc: int, vpl: int, k: int): Slot<Vertex> {
    if vpl <= 0 then Unset
    else
      var x := (k % vpl) * inc;
      var z := (k / vpl) * inc;
      if 0 <= x < |heightMap| && 0 <= z < |heightMap[x]| then Set(Vertex(x, z, heightMap[x][z]))
      else Unset
  }

  /** UV slot k holds (x / width, z / height) for the same sample. */
  function ExpectedUv(heightMap: seq<seq<real>>, inc: int, vpl: int, k: int): Slot<Uv> {
    if vpl <= 0 then Unset
    else
      var x := (k % vpl) * inc;
      var z := (k / vpl) * inc;
      if 0 <= x < |heightMap| && 0 <= z < |heightMap[0]|
      then Set(Uv(x as real / |heightMap| as real, z as real / |heightMap[0]| as real))
      else Unset
  }

  /** The first n vertex and UV slots hold their reference samples and the
      rest are still unwritten. */
  ghost predicate VerticesWritten(heightMap: seq<seq<real>>, inc: int, vpl: int, m: MeshData, n: int) {
    && |m.vertices| == |m.uvs|
    && forall k :: 0 <= k < |m.vertices| ==>
         && (k < n ==> m.vertices[k].Set? && m.uvs[k].Set? && m.vertices[k] == ExpectedVertex(heightMap, inc, vpl, k))
         && (k < n ==> m.uvs[k] == ExpectedUv(heightMap, inc, vpl, k))
         && (n <= k ==> m.vertices[k] == Unset && m.uvs[k] == Unset)
  }

  /** Every triangle slot before the cursor holds its reference index. */
  ghost predicate TrianglesWritten(m: MeshData, vpl: int) {
    forall j :: 0 <= j < m.triangleIndex && j < |m.triangles| ==>
      vpl >= 2 && m.triangles[j] == TriangleAt(j, vpl)
  }

  /** The finished mesh of a square map of width >= 1: buffers of the
      documented sizes, every vertex slot written with its sample, and the
      triangle buffer filled to the end with the reference indices. */
  ghost predicate WellBuilt(heightMap: seq<seq<real>>, inc: int, m: MeshData)
    requires |heightMap| >= 1 && inc >= 1
  {
    var vpl := VerticesPerLine(|heightMap|, inc);
    && |m.vertices| == |m.uvs| == vpl * vpl
    && |m.triangles| == 6 * ((vpl - 1) * (vpl - 1))
    && m.triangleIndex == |m.triangles|
    && VerticesWritten(heightMap, inc, vpl, m, vpl * vpl)
    && TrianglesWritten(m, vpl)
  }

  /** The sampling step divides width - 1, so the last visited sample of a
      line is the map's last column. */
  ghost predicate Divisible(heightMap: seq<seq<real>>, inc: int)
    requires inc >= 1
  {
    |heightMap| >= 1 && (|heightMap| - 1) % inc == 0
  }

  /** Quads emitted before position (row, col) of the loop when the step
      divides width - 1: vpl - 1 per row, none in the last row. */
  function QuadsDone(row: int, col: int, vpl: int): int {
    if row < vpl - 1 then row * (vpl - 1) + (if col < vpl - 1 then col else vpl - 1)
    else (vpl - 1) * (vpl - 1)
  }

  /** The loop invariant at sample (row, col): buffers keep their sizes, the
      first row * vpl + col vertex slots are written, and the cursor stands
      after the reference quads emitted so far (divisible step) or after one
      quad per visited sample (otherwise). */
  ghost predicate Progress(heightMap: seq<seq<real>>, inc: int, vpl: int, m: MeshData, row: int, col: int)
    requires inc >= 1
  {
    && |m.vertices| == |m.uvs| == vpl * vpl
    && |m.triangles| == 6 * ((vpl - 1) * (vpl - 1))
    && VerticesWritten(heightMap, inc, vpl, m, row * vpl + col)
    && m.triangleIndex <= |m.triangles|
    && (Divisible(heightMap, inc) ==> m.triangleIndex == 6 * QuadsDone(row, col, vpl) && TrianglesWritten(m, vpl))
    && (!Divisible(heightMap, inc) ==> m.triangleIndex == 6 * (row * vpl + col))
  }

  // ---------------------------------------------------------------------
  // The generator

  /** Emits the quad whose top-left vertex is v (two `AddTriangle` calls).
      It succeeds exactly when six slots remain, and then writes the quad's
      six indices at the cursor and keeps every other slot. */
  function AddQuad(m: MeshData, v: int, vpl: int): (r: Result<MeshData>)
    ensures r.Ok? <==> m.triangleIndex + 6 <= |m.triangles|
    ensures r.Ok? ==>
      var t := m.triangleIndex;
      && r.value.vertices == m.vertices
      && r.value.uvs == m.uvs
      && |r.value.triangles| == |m.triangles|
      && r.value.triangleIndex == t + 6
      && (forall j :: 0 <= j < t ==> r.value.triangles[j] == m.triangles[j])
      && (forall j :: t <= j < t + 6 ==> r.value.triangles[j] == QuadCorners(v, vpl)[j - t])
      && (forall j :: t + 6 <= j < |m.triangles| ==> r.value.triangles[j] == m.triangles[j])
  {
    var first := AddTriangle(m, v, v + vpl + 1, v + vpl);
    if first.IndexOutOfRange? then IndexOutOfRange
    else
      var second := AddTriangle(first.value, v + vpl + 1, v, v + 1);
      assert second.Ok? ==> second.value.triangles[..m.triangleIndex] == m.triangles[..m.triangleIndex];
      second
  }

  /** One iteration of the inner loop: write the vertex and UV of sample
      (x, z) into slot vertexIndex, then emit a quad unless the sample lies
      on the last row or column of the map. */
  function VisitSample(heightMap: seq<seq<real>>, m: MeshData, x: int, z: int, vertexIndex: int, vpl: int): (r: Result<MeshData>)
    requires 0 <= x < |heightMap| && 0 <= z < |heightMap[x]| && 0 < |heightMap[0]|
    requires 0 <= vertexIndex < |m.vertices| == |m.uvs|
    ensures var quad := x < |heightMap| - 1 && z < |heightMap[0]| - 1;
      && (r.Ok? <==> !quad || m.triangleIndex + 6 <= |m.triangles|)
      && (r.Ok? ==>
            && r.value.vertices == m.vertices[vertexIndex := Set(Vertex(x, z, heightMap[x][z]))]
            && r.value.uvs == m.uvs[vertexIndex := Set(Uv(x as real / |heightMap| as real, z as real / |heightMap[0]| as real))]
            && r.value.triangleIndex == m.triangleIndex + (if quad then 6 else 0)
            && r.value.triangles ==
                 if quad then m.triangles[..m.triangleIndex] + QuadCorners(vertexIndex, vpl) + m.triangles[m.triangleIndex + 6..]
                 else m.triangles)
  {
    var written := WriteSample(heightMap, m, x, z, vertexIndex);
    if x < |heightMap| - 1 && z < |heightMap[0]| - 1 then AddQuad(written, vertexIndex, vpl) else Ok(written)
  }

  /** The vertex and UV writes of an iteration (the float position and the
      height curve are abstracted to the sample coordinate and height). */
  function WriteSample(heightMap: seq<seq<real>>, m: MeshData, x: int, z: int, vertexIndex: int): MeshData
    requires 0 <= x < |heightMap| && 0 <= z < |heightMap[x]| && 0 < |heightMap[0]|
    requires 0 <= vertexIndex < |m.vertices| == |m.uvs|
  {
    m.(vertices := m.vertices[vertexIndex := Set(Vertex(x, z, heightMap[x][z]))],
       uvs := m.uvs[vertexIndex := Set(Uv(x as real / |heightMap| as real, z as real / |heightMap[0]| as real))])
  }

  /** The six slots of quad (row, col) in the reference buffer hold that
      quad's corners. */
  lemma QuadSlots(vpl: int, row: int, col: int)
    requires vpl >= 2 && 0 <= row < vpl - 1 && 0 <= col < vpl - 1
    ensures var q := row * (vpl - 1) + col;
      forall j :: 6 * q <= j < 6 * q + 6 ==> TriangleAt(j, vpl) == QuadCorners(row * vpl + col, vpl)[j - 6 * q]
  {
    var q := row * (vpl - 1) + col;
    DivModOf(vpl - 1, row, col);
    assert QuadVertex(q, vpl) == row * vpl + col;
    forall j | 6 * q <= j < 6 * q + 6
      ensures TriangleAt(j, vpl) == QuadCorners(row * vpl + col, vpl)[j - 6 * q]
    {
      DivModOf(6, q, j - 6 * q);
    }
  }

  /** Quad (row, col) ends no later than the end of the triangle buffer. */
  lemma QuadFits(vpl: int, row: int, col: int)
    requires vpl >= 2 && 0 <= row < vpl - 1 && 0 <= col < vpl - 1
    ensures 6 * (row * (vpl - 1) + col) + 6 <= 6 * ((vpl - 1) * (vpl - 1))
  {
    MulLeft(row + 1, vpl - 1, vpl - 1);
  }

  lemma SlotInRange(vpl: int, row: int, col: int)
    requires 0 <= row < vpl && 0 <= col < vpl
    ensures 0 <= row * vpl + col < vpl * vpl
  {
    MulLeft(row + 1, vpl, vpl);
  }

  /** Writing sample (col*inc, row*inc) into slot row*vpl + col extends the
      written prefix by one. */
  lemma WriteVertexStep(heightMap: seq<seq<real>>, inc: int, vpl: int, m: MeshData, m': MeshData, row: int, col: int)
    requires IsSquare(heightMap) && inc >= 1
    requires 0 <= row < vpl && 0 <= col < vpl
    requires 0 <= col * inc < |heightMap| && 0 <= row * inc < |heightMap|
    requires row * vpl + col < |m.vertices|
    requires VerticesWritten(heightMap, inc, vpl, m, row * vpl + col)
    requires m' == WriteSample(heightMap, m, col * inc, row * inc, row * vpl + col)
    ensures VerticesWritten(heightMap, inc, vpl, m', row * vpl + col + 1)
  {
    DivModOf(vpl, row, col);
  }

  /** One inner-loop iteration keeps the loop invariant, and it can fail only
      when the step does not divide width - 1. */
  lemma VisitStep(heightMap: seq<seq<real>>, inc: int, m: MeshData, row: int, col: int, x: int, z: int, k: int)
    requires IsSquare(heightMap) && |heightMap| >= 1 && inc >= 1
    requires var vpl := VerticesPerLine(|heightMap|, inc);
      && 0 <= row < vpl && 0 <= col < vpl && Progress(heightMap, inc, vpl, m, row, col)
      && x == col * inc && z == row * inc && k == row * vpl + col
    ensures 0 <= x < |heightMap| && 0 <= z < |heightMap| && 0 <= k < |m.vertices| == |m.uvs|
    ensures var vpl := VerticesPerLine(|heightMap|, inc);
      var r := VisitSample(heightMap, m, x, z, k, vpl);
      && (r.Ok? ==> Progress(heightMap, inc, vpl, r.value, row, col + 1))
      && (r.IndexOutOfRange? ==> !Divisible(heightMap, inc))
  {
    var width := |heightMap|;
    var vpl := VerticesPerLine(width, inc);
    VisitedIff(width, inc, col);
    VisitedIff(width, inc, row);
    SlotInRange(vpl, row, col);
    var written := WriteSample(heightMap, m, x, z, k);
    WriteVertexStep(heightMap, inc, vpl, m, written, row, col);
    QuadIff(width, inc, col);
    QuadIff(width, inc, row);
    if x < width - 1 && z < width - 1 {
      QuadStep(heightMap, inc, vpl, m, written, row, col, k);
    } else {
      NoQuadStep(heightMap, inc, vpl, m, written, row, col);
    }
  }

  /** An iteration on the last row or column writes its vertex only; this
      happens only with a dividing step, where no quad is due there. */
  lemma NoQuadStep(heightMap: seq<seq<real>>, inc: int, vpl: int, m: MeshData, written: MeshData, row: int, col: int)
    requires |heightMap| >= 1 && inc >= 1 && vpl >= 1
    requires 0 <= row < vpl && 0 <= col < vpl && Progress(heightMap, inc, vpl, m, row, col)
    requires Divisible(heightMap, inc) && (row == vpl - 1 || col == vpl - 1)
    requires written.triangles == m.triangles && written.triangleIndex == m.triangleIndex
    requires |written.vertices| == |written.uvs| == vpl * vpl
    requires VerticesWritten(heightMap, inc, vpl, written, row * vpl + col + 1)
    ensures Progress(heightMap, inc, vpl, written, row, col + 1)
  {
    assert QuadsDone(row, col + 1, vpl) == QuadsDone(row, col, vpl);
  }

  /** The quad-emitting case of an iteration: with a dividing step the quad
      fits and lands on its reference slots; otherwise the cursor still
      advances by one quad per sample. */
  lemma QuadStep(heightMap: seq<seq<real>>, inc: int, vpl: int, m: MeshData, written: MeshData, row: int, col: int, k: int)
    requires IsSquare(heightMap) && |heightMap| >= 1 && inc >= 1
    requires vpl == VerticesPerLine(|heightMap|, inc)
    requires 0 <= row < vpl && 0 <= col < vpl && Progress(heightMap, inc, vpl, m, row, col)
    requires col * inc < |heightMap| - 1 && row * inc < |heightMap| - 1
    requires Divisible(heightMap, inc) ==> row < vpl - 1 && col < vpl - 1
    requires written.triangles == m.triangles && written.triangleIndex == m.triangleIndex
    requires |written.vertices| == |written.uvs| == vpl * vpl
    requires VerticesWritten(heightMap, inc, vpl, written, row * vpl + col + 1)
    requires k == row * vpl + col
    ensures var r := AddQuad(written, k, vpl);
      && (r.Ok? ==> Progress(heightMap, inc, vpl, r.value, row, col + 1))
      && (r.IndexOutOfRange? ==> !Divisible(heightMap, inc))
  {
    if Divisible(heightMap, inc) {
      QuadFits(vpl, row, col);
      QuadSlots(vpl, row, col);
    }
  }

  /** Finishing a line of samples moves the invariant to the next line. */
  lemma NextLine(heightMap: seq<seq<real>>, inc: int, vpl: int, m: MeshData, row: int)
    requires inc >= 1 && vpl >= 1 && 0 <= row < vpl
    requires Progress(heightMap, inc, vpl, m, row, vpl)
    ensures Progress(heightMap, inc, vpl, m, row + 1, 0)
  {
    assert row * vpl + vpl == (row + 1) * vpl;
    if row < vpl - 1 {
      assert row * (vpl - 1) + (vpl - 1) == (row + 1) * (vpl - 1);
    }
  }

  /** After all vpl lines the mesh is complete when the step divides
      width - 1; otherwise the cursor would stand past the buffer's end, so
      the loops cannot have finished. */
  lemma Finished(heightMap: seq<seq<real>>, inc: int, m: MeshData)
    requires |heightMap| >= 1 && inc >= 1
    requires Progress(heightMap, inc, VerticesPerLine(|heightMap|, inc), m, VerticesPerLine(|heightMap|, inc), 0)
    ensures Divisible(heightMap, inc)
    ensures WellBuilt(heightMap, inc, m)
  {
    var vpl := VerticesPerLine(|heightMap|, inc);
    if !Divisible(heightMap, inc) {
      MulStrict(vpl - 1, vpl, vpl - 1);
      MulLeft(vpl - 1, vpl, vpl);
    }
  }

  /** One pass of the inner loop: visits the vpl samples of line `row`
      (z = row * inc), advancing the vertex cursor by vpl. It can fail only
      when the step does not divide width - 1. */
  method GenerateLine(heightMap: seq<seq<real>>, inc: int, mesh: MeshData, z: int, vertexIndex: int, ghost row: int)
    returns (r: Result<MeshData>, nextIndex: int)
    requires IsSquare(heightMap) && |heightMap| >= 1 && inc >= 1
    requires var vpl := VerticesPerLine(|heightMap|, inc);
      0 <= row < vpl && z == row * inc && vertexIndex == row * vpl && Progress(heightMap, inc, vpl, mesh, row, 0)
    ensures var vpl := VerticesPerLine(|heightMap|, inc);
      r.Ok? ==> nextIndex == vertexIndex + vpl && Progress(heightMap, inc, vpl, r.value, row + 1, 0)
    ensures r.IndexOutOfRange? ==> !Divisible(heightMap, inc)
  {
    var width := |heightMap|;
    var vpl := VerticesPerLine(width, inc);
    var m := mesh;
    nextIndex := vertexIndex;
    var x := 0;
    ghost var col := 0;
    while x < width
      invariant 0 <= col <= vpl && x == col * inc
      invariant nextIndex == row * vpl + col
      invariant Progress(heightMap, inc, vpl, m, row, col)
    {
      VisitedIff(width, inc, col);
      VisitStep(heightMap, inc, m, row, col, x, z, nextIndex);
      var visited := VisitSample(heightMap, m, x, z, nextIndex, vpl);
      if visited.IndexOutOfRange? {
        return IndexOutOfRange, nextIndex;
      }
      m := visited.value;
      MulAddOne(col, inc);
      nextIndex := nextIndex + 1;
      x := x + inc;
      col := col + 1;
    }
    VisitedIff(width, inc, col);
    NextLine(heightMap, inc, vpl, m, row);
    r := Ok(m);
  }

  /** Mirrors `GenerateTerrainMesh` on a square map. For width >= 1 the
      generation succeeds exactly when the sampling step divides width - 1,
      and then yields the reference buffers; otherwise the last column also
      emits quads and the triangle buffer overflows. */
  method GenerateTerrainMesh(heightMap: seq<seq<real>>, levelOfDetail: int) returns (r: Result<MeshData>)
    requires IsSquare(heightMap)
    requires levelOfDetail >= 0
    ensures |heightMap| >= 1 ==>
      (r.Ok? <==> (|heightMap| - 1) % SimplificationIncrement(levelOfDetail) == 0)
    ensures |heightMap| >= 1 && r.Ok? ==> WellBuilt(heightMap, SimplificationIncrement(levelOfDetail), r.value)
    ensures |heightMap| == 0 ==>
      var vpl := VerticesPerLine(0, SimplificationIncrement(levelOfDetail));
      r == Ok(NewMeshData(vpl, vpl))
  {
    var width := |heightMap|;
    var height := if width == 0 then 0 else |heightMap[0]|;
    var inc := SimplificationIncrement(levelOfDetail);
    var vpl := VerticesPerLine(width, inc);
    var mesh := NewMeshData(vpl, vpl);
    if width == 0 {
      return Ok(mesh);
    }

    var vertexIndex := 0;
    var z := 0;
    ghost var row := 0;
    while z < height
      invariant 0 <= row <= vpl && z == row * inc
      invariant vertexIndex == row * vpl
      invariant Progress(heightMap, inc, vpl, mesh, row, 0)
    {
      VisitedIff(width, inc, row);
      var line;
      line, vertexIndex := GenerateLine(heightMap, inc, mesh, z, vertexIndex, row);
      if line.IndexOutOfRange? {
        return IndexOutOfRange;
      }
      mesh := line.value;
      MulAddOne(row, vpl);
      MulAddOne(row, inc);
      z := z + inc;
      row := row + 1;
    }
    VisitedIff(width, inc, row);
    Finished(heightMap, inc, mesh);
    r := Ok(mesh);
  }
}
