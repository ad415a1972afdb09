/** The buffers of a terrain mesh (`MeshData`): vertex slots, UV slots and a
    triangle index buffer filled three indices at a time. */
module Mesh {

  /** A write past the end of a C# array raises IndexOutOfRangeException;
      the model returns it as a value instead. */
  datatype Result<+T> = Ok(value: T) | IndexOutOfRange

  /** A freshly allocated array slot holds the zero value until written. */
  datatype Slot<+T> = Unset | Set(value: T)

  /** The height-map sample a vertex was built from: its integer grid
      coordinate and the raw height read there. The float position
      (topLeftX + x, multiplier * curve(height), topLeftZ - z) is a function
      of these and is not modelled. */
  datatype Vertex = Vertex(x: int, z: int, height: real)

  /** A texture coordinate (x / width, z / height). */
  datatype Uv = Uv(u: real, v: real)

  datatype MeshData = MeshData(
    vertices: seq<Slot<Vertex>>,
    uvs: seq<Slot<Uv>>,
    triangles: seq<int>,
    triangleIndex: nat)

  /** Allocation of the three buffers for a meshWidth x meshHeight vertex grid.
      A negative array length would throw, hence the requires. */
  function NewMeshData(meshWidth: int, meshHeight: int): (m: MeshData)
    requires meshWidth >= 0 && meshHeight >= 0
    requires (meshHeight - 1) * (meshWidth - 1) >= 0
    ensures |m.vertices| == |m.uvs| == meshWidth * meshHeight
    ensures |m.triangles| == 6 * ((meshHeight - 1) * (meshWidth - 1))
    ensures m.triangleIndex == 0
    ensures forall k :: 0 <= k < |m.vertices| ==> m.vertices[k] == Unset && m.uvs[k] == Unset
    ensures forall j :: 0 <= j < |m.triangles| ==> m.triangles[j] == 0
  {
    MeshData(
      seq(meshWidth * meshHeight, _ => Unset),
      seq(meshWidth * meshHeight, _ => Unset),
      seq(6 * ((meshHeight - 1) * (meshWidth - 1)), _ => 0),
      0)
  }

  /** Writes one triangle at the cursor and advances the cursor by three.
      Fails exactly when the three slots do not all fit in the buffer;
      on success nothing but those three slots and the cursor changes. */
  function AddTriangle(m: MeshData, a: int, b: int, c: int): (r: Result<MeshData>)
    ensures r.Ok? <==> m.triangleIndex + 3 <= |m.triangles|
    ensures r.Ok? ==>
      var t := m.triangleIndex;
      && r.value.vertices == m.vertices
      && r.value.uvs == m.uvs
      && |r.value.triangles| == |m.triangles|
      && r.value.triangles[t..t + 3] == [a, b, c]
      && r.value.triangles[..t] == m.triangles[..t]
      && r.value.triangles[t + 3..] == m.triangles[t + 3..]
      && r.value.triangleIndex == t + 3
  {
    var t := m.triangleIndex;
    if t + 3 <= |m.triangles| then
      Ok(m.(triangles := m.triangles[t := a][t + 1 := b][t + 2 := c], triangleIndex := t + 3))
    else
      IndexOutOfRange
  }
}
