/** Properties of the triangle buffer the generator produces: which grid
    cell each quad covers, its winding, and that every index names a vertex. */
module MeshShape {
  import opened Arith
  import opened Mesh
  import opened MeshGenerator

  /** The q-th quad covers grid cell (q / (vpl-1), q % (vpl-1)), and its
      top-left vertex lies on that row and column, never on the last row
      or the last column of the vertex grid. */
  lemma QuadCell(q: int, vpl: int)
    requires vpl >= 2 && 0 <= q < (vpl - 1) * (vpl - 1)
    ensures var v := QuadVertex(q, vpl);
      && v / vpl == q / (vpl - 1) < vpl - 1
      && v % vpl == q % (vpl - 1) < vpl - 1
  {
    var row, col := q / (vpl - 1), q % (vpl - 1);
    if row >= vpl - 1 {
      MulLeft(vpl - 1, row, vpl - 1);
    }
    DivModOf(vpl, row, col);
  }

  /** The corners of quad q in grid terms: v + 1 is v's right neighbour,
      v + vpl the vertex below it and v + vpl + 1 the diagonal one; all four
      are valid vertex indices. */
  lemma QuadNeighbours(q: int, vpl: int)
    requires vpl >= 2 && 0 <= q < (vpl - 1) * (vpl - 1)
    ensures var v := QuadVertex(q, vpl);
      && 0 <= v && v + vpl + 1 < vpl * vpl
      && (v + 1) / vpl == v / vpl && (v + 1) % vpl == v % vpl + 1
      && (v + vpl) / vpl == v / vpl + 1 && (v + vpl) % vpl == v % vpl
      && (v + vpl + 1) / vpl == v / vpl + 1 && (v + vpl + 1) % vpl == v % vpl + 1
  {
    var v := QuadVertex(q, vpl);
    var row, col := q / (vpl - 1), q % (vpl - 1);
    QuadCell(q, vpl);
    assert v == row * vpl + col;
    MulAddOne(row, vpl);
    assert v + vpl == (row + 1) * vpl + col;
    assert v + vpl + 1 == (row + 1) * vpl + (col + 1);
    DivModOf(vpl, row, col + 1);
    DivModOf(vpl, row + 1, col);
    DivModOf(vpl, row + 1, col + 1);
    MulLeft(row + 1, vpl - 1, vpl);
  }

  /** A triangle of the quad with top-left vertex v: three distinct corners,
      two of which are the diagonal v / v+vpl+1. */
  predicate OnDiagonal(a: int, b: int, c: int, v: int, vpl: int) {
    && a != b && b != c && a != c
    && v in {a, b, c}
    && v + vpl + 1 in {a, b, c}
  }

  /** Quad q occupies slots 6q .. 6q+5 as the triangles (v, v+vpl+1, v+vpl)
      and (v+vpl+1, v, v+1): each has three distinct corners and both
      contain the diagonal v / v+vpl+1. */
  lemma QuadWinding(q: int, vpl: int)
    requires vpl >= 2 && 0 <= q
    ensures var v := QuadVertex(q, vpl);
      && [TriangleAt(6 * q, vpl), TriangleAt(6 * q + 1, vpl), TriangleAt(6 * q + 2, vpl)] == [v, v + vpl + 1, v + vpl]
      && [TriangleAt(6 * q + 3, vpl), TriangleAt(6 * q + 4, vpl), TriangleAt(6 * q + 5, vpl)] == [v + vpl + 1, v, v + 1]
    ensures OnDiagonal(TriangleAt(6 * q, vpl), TriangleAt(6 * q + 1, vpl), TriangleAt(6 * q + 2, vpl), QuadVertex(q, vpl), vpl)
    ensures OnDiagonal(TriangleAt(6 * q + 3, vpl), TriangleAt(6 * q + 4, vpl), TriangleAt(6 * q + 5, vpl), QuadVertex(q, vpl), vpl)
  {
    QuadSlot(q, 0, vpl);
    QuadSlot(q, 1, vpl);
    QuadSlot(q, 2, vpl);
    QuadSlot(q, 3, vpl);
    QuadSlot(q, 4, vpl);
    QuadSlot(q, 5, vpl);
  }

  /** Slot 6q + i of the buffer holds corner i of quad q. */
  lemma QuadSlot(q: int, i: int, vpl: int)
    requires vpl >= 2 && 0 <= q && 0 <= i < 6
    ensures TriangleAt(6 * q + i, vpl) == QuadCorners(QuadVertex(q, vpl), vpl)[i]
  {
    DivModOf(6, q, i);
  }

  /** Every entry of the triangle buffer is a valid vertex index. */
  lemma TriangleIndicesInRange(vpl: int)
    requires vpl >= 2
    ensures forall j :: 0 <= j < 6 * ((vpl - 1) * (vpl - 1)) ==> 0 <= TriangleAt(j, vpl) < vpl * vpl
  {
    forall j | 0 <= j < 6 * ((vpl - 1) * (vpl - 1))
      ensures 0 <= TriangleAt(j, vpl) < vpl * vpl
    {
      var q := j / 6;
      QuadNeighbours(q, vpl);
    }
  }

  /** An interior vertex (row, col) is the top-left corner of quad
      row * (vpl-1) + col. */
  lemma QuadOfInterior(v: int, vpl: int)
    requires vpl >= 2 && 0 <= v && v / vpl < vpl - 1 && v % vpl < vpl - 1
    ensures var q := (v / vpl) * (vpl - 1) + v % vpl;
      0 <= q < (vpl - 1) * (vpl - 1) && QuadVertex(q, vpl) == v
  {
    var row, col := v / vpl, v % vpl;
    var q := row * (vpl - 1) + col;
    MulLeft(0, row, vpl - 1);
    MulAddOne(row, vpl - 1);
    MulLeft(row + 1, vpl - 1, vpl - 1);
    DivModOf(vpl - 1, row, col);
    assert q / (vpl - 1) == row && q % (vpl - 1) == col;
    assert v == row * vpl + col;
  }

  /** Distinct quads have distinct top-left corners. */
  lemma QuadVertexInjective(q1: int, q2: int, vpl: int)
    requires vpl >= 2 && 0 <= q1 < (vpl - 1) * (vpl - 1) && 0 <= q2 < (vpl - 1) * (vpl - 1)
    requires QuadVertex(q1, vpl) == QuadVertex(q2, vpl)
    ensures q1 == q2
  {
    QuadCell(q1, vpl);
    QuadCell(q2, vpl);
    SameDivMod(q1, q2, vpl - 1);
  }

  /** Each vertex that is on neither the last row nor the last column is the
      top-left corner of exactly one quad, and no other vertex is. */
  lemma QuadPerInteriorVertex(v: int, vpl: int)
    requires vpl >= 2 && 0 <= v < vpl * vpl
    ensures (v / vpl < vpl - 1 && v % vpl < vpl - 1) <==>
      exists q :: 0 <= q < (vpl - 1) * (vpl - 1) && QuadVertex(q, vpl) == v
    ensures forall q1, q2 ::
      (0 <= q1 < (vpl - 1) * (vpl - 1) && 0 <= q2 < (vpl - 1) * (vpl - 1) &&
       QuadVertex(q1, vpl) == v && QuadVertex(q2, vpl) == v) ==> q1 == q2
  {
    if v / vpl < vpl - 1 && v % vpl < vpl - 1 {
      QuadOfInterior(v, vpl);
    }
    forall q | 0 <= q < (vpl - 1) * (vpl - 1) && QuadVertex(q, vpl) == v
      ensures v / vpl < vpl - 1 && v % vpl < vpl - 1
    {
      QuadCell(q, vpl);
    }
    forall q1, q2 | 0 <= q1 < (vpl - 1) * (vpl - 1) && 0 <= q2 < (vpl - 1) * (vpl - 1) &&
      QuadVertex(q1, vpl) == v && QuadVertex(q2, vpl) == v
      ensures q1 == q2
    {
      QuadVertexInjective(q1, q2, vpl);
    }
  }

  /** In a generated mesh every triangle index names a vertex slot, and
      every vertex slot holds a sample. */
  lemma GeneratedMeshValid(heightMap: seq<seq<real>>, levelOfDetail: int, m: MeshData)
    requires |heightMap| >= 1 && levelOfDetail >= 0
    requires WellBuilt(heightMap, SimplificationIncrement(levelOfDetail), m)
    ensures forall j :: 0 <= j < |m.triangles| ==> 0 <= m.triangles[j] < |m.vertices|
    ensures forall k :: 0 <= k < |m.vertices| ==> m.vertices[k].Set? && m.uvs[k].Set?
  {
    var vpl := VerticesPerLine(|heightMap|, SimplificationIncrement(levelOfDetail));
    if vpl >= 2 {
      TriangleIndicesInRange(vpl);
    }
  }
}
