/** The first mesh record: fixed-point vertices and faces that name three
    vertices, a loader that is still a stub, and the two built-in meshes. */
module LegacyMeshes {
  import opened Wrappers
  import opened FixedPoint
  import opened MathTypes
  import Meshes

  datatype LegacyFace = LegacyFace(vertexIndices: Meshes.Indices3)

  datatype LegacyMesh = LegacyMesh(vertices: seq<Vector3>, faces: seq<LegacyFace>)

  /** `Mesh::FromObjFile`: loading is not written yet, so there is never a mesh. */
  function FromObjFile(path: string): (r: Option<LegacyMesh>)
    ensures r.None?
  {
    None
  }

  function Face(a: nat, b: nat, c: nat): LegacyFace
    requires a < 8 && b < 8 && c < 8
  {
    LegacyFace([a, b, c])
  }

  /** `Mesh::Cube()`: the corners of the unit cube centred on the origin,
      front quad (negative z) first, with two faces per side. */
  function Cube(): LegacyMesh
  {
    LegacyMesh(
      [Vector3(-Half, -Half, -Half), Vector3(Half, -Half, -Half), Vector3(-Half, Half, -Half), Vector3(Half, Half, -Half),
       Vector3(-Half, -Half, Half), Vector3(Half, -Half, Half), Vector3(-Half, Half, Half), Vector3(Half, Half, Half)],
      [Face(1, 0, 2), Face(1, 2, 3), Face(7, 6, 4), Face(7, 4, 5), Face(3, 2, 6), Face(3, 6, 7),
       Face(5, 4, 0), Face(5, 0, 1), Face(0, 4, 6), Face(0, 6, 2), Face(5, 1, 3), Face(5, 3, 7)])
  }

  /** `Mesh::AdjoiningTriangles()`: a unit square in the plane z = 0, split along a diagonal. */
  function AdjoiningTriangles(): LegacyMesh
  {
    LegacyMesh(
      [Vector3(-Half, -Half, 0), Vector3(Half, -Half, 0), Vector3(-Half, Half, 0), Vector3(Half, Half, 0)],
      [Face(2, 1, 0), Face(2, 3, 1)])
  }

  /** `-0.5` or `0.5` in 16.16. */
  predicate IsHalfUnit(x: Fixed)
  {
    x == Half || x == -Half
  }

  /** The face walks from vertex `a` straight to vertex `b`. */
  predicate HasDirectedEdge(face: LegacyFace, a: nat, b: nat)
  {
    var f := face.vertexIndices;
    (f[0] == a && f[1] == b) || (f[1] == a && f[2] == b) || (f[2] == a && f[0] == b)
  }

  /** Eight distinct corners, every coordinate one half away from zero. */
  lemma CubeVertices()
    ensures |Cube().vertices| == 8
    ensures forall i, j | 0 <= i < j < 8 :: Cube().vertices[i] != Cube().vertices[j]
    ensures forall i | 0 <= i < 8 ::
      IsHalfUnit(Cube().vertices[i].x) && IsHalfUnit(Cube().vertices[i].y) && IsHalfUnit(Cube().vertices[i].z)
  {
  }

  /** Twelve faces, each naming three different corners of the eight. */
  lemma CubeFaces()
    ensures |Cube().faces| == 12
    ensures forall f | 0 <= f < 12 ::
      var v := Cube().faces[f].vertexIndices;
      v[0] != v[1] && v[1] != v[2] && v[0] != v[2] && v[0] < 8 && v[1] < 8 && v[2] < 8
  {
  }

  /** Four vertices in the plane z = 0, and faces naming only them. */
  lemma AdjoiningTrianglesShape()
    ensures |AdjoiningTriangles().vertices| == 4 && |AdjoiningTriangles().faces| == 2
    ensures forall i | 0 <= i < 4 :: AdjoiningTriangles().vertices[i].z == 0
    ensures forall f, k | 0 <= f < 2 && 0 <= k < 3 :: AdjoiningTriangles().faces[f].vertexIndices[k] < 4
  {
  }

  /** The two triangles share the edge between vertices 1 and 2 and walk it in
      opposite directions, so they wind the same way. */
  lemma AdjoiningTrianglesShareEdge()
    ensures HasDirectedEdge(AdjoiningTriangles().faces[0], 2, 1)
    ensures HasDirectedEdge(AdjoiningTriangles().faces[1], 1, 2)
    ensures !HasDirectedEdge(AdjoiningTriangles().faces[0], 1, 2)
    ensures !HasDirectedEdge(AdjoiningTriangles().faces[1], 2, 1)
  {
  }
}
