/** The per-face geometry pipeline of the renderer: each face of each mesh of
    the scene tree is taken to view space, culled when it faces away from the
    camera, projected, mapped to the screen and handed to the textured
    triangle rasteriser. */
module Renderers {
  import opened Wrappers
  import opened FixedPoint
  import opened MathTypes
  import opened Raster
  import opened Texture
  import opened RenderTargets
  import Meshes

  /** `FixedUnit{ 3.14159265f / 2.0f }`, rounded to the nearest raw unit. */
  const DefaultFieldOfView: Fixed := 102944
  /** `FixedUnit{ 0.1f }`. */
  const NearPlane: Fixed := 6554
  /** `FixedUnit{ 100.0f }`. */
  const FarPlane: Fixed := 0x64_0000

  // ---------------------------------------------------------------------
  // Scene

  /** A mesh with fixed-point vertices and texture coordinates, and its
      texture: `None` for the null pointer of a mesh loaded without one. */
  datatype SceneMesh = SceneMesh(geometry: Meshes.Mesh<Vector3, Vector2>, texture: Option<PngTexture>)

  /** What the renderer reads of an entity: its placement, its meshes and its children. */
  datatype Entity = Entity(position: Vector3, rotation: Vector3, meshes: seq<SceneMesh>, children: seq<Entity>)

  /** One `DrawEntityMesh` call: a mesh and the entity that places it. */
  datatype MeshDraw = MeshDraw(entity: Entity, mesh: SceneMesh)

  /** The order of `DrawEntityTreeMeshes`: every child's tree first, in
      vector order, then the entity's own meshes, in vector order. */
  function DrawOrder(e: Entity): seq<MeshDraw>
    decreases e, |e.children| + 1
  {
    ChildrenOrder(e, |e.children|) + OwnMeshes(e, |e.meshes|)
  }

  /** The trees of the first `n` children. */
  function ChildrenOrder(e: Entity, n: nat): seq<MeshDraw>
    requires n <= |e.children|
    decreases e, n
  {
    if n == 0 then [] else ChildrenOrder(e, n - 1) + DrawOrder(e.children[n - 1])
  }

  /** The first `n` meshes of the entity itself. */
  function OwnMeshes(e: Entity, n: nat): (r: seq<MeshDraw>)
    requires n <= |e.meshes|
    ensures |r| == n
    ensures forall i | 0 <= i < n :: r[i] == MeshDraw(e, e.meshes[i])
  {
    if n == 0 then [] else OwnMeshes(e, n - 1) + [MeshDraw(e, e.meshes[n - 1])]
  }

  /** `n` is `e` or lies in the tree under one of its children. */
  predicate InTree(n: Entity, e: Entity)
    decreases e
  {
    n == e || exists i | 0 <= i < |e.children| :: InTree(n, e.children[i])
  }

  /** Every mesh of every entity of the tree is drawn, and nothing else. */
  lemma {:induction false} DrawOrderMembers(e: Entity, d: MeshDraw)
    ensures d in DrawOrder(e) <==> InTree(d.entity, e) && d.mesh in d.entity.meshes
    decreases e, |e.children| + 1
  {
    ChildrenOrderMembers(e, |e.children|, d);
    if d in OwnMeshes(e, |e.meshes|) {
      var i :| 0 <= i < |e.meshes| && OwnMeshes(e, |e.meshes|)[i] == d;
      assert d.entity == e && d.mesh == e.meshes[i];
    }
    if d.entity == e && d.mesh in e.meshes {
      var i :| 0 <= i < |e.meshes| && e.meshes[i] == d.mesh;
      assert OwnMeshes(e, |e.meshes|)[i] == d;
    }
  }

  /** The draws of the first `n` children are those of their trees. */
  lemma {:induction false} ChildrenOrderMembers(e: Entity, n: nat, d: MeshDraw)
    requires n <= |e.children|
    ensures d in ChildrenOrder(e, n) <==>
      (exists i | 0 <= i < n :: InTree(d.entity, e.children[i])) && d.mesh in d.entity.meshes
    decreases e, n
  {
    if n > 0 {
      ChildrenOrderMembers(e, n - 1, d);
      DrawOrderMembers(e.children[n - 1], d);
      if exists i | 0 <= i < n :: InTree(d.entity, e.children[i]) {
        var i :| 0 <= i < n && InTree(d.entity, e.children[i]);
        if i < n - 1 {
          assert exists k | 0 <= k < n - 1 :: InTree(d.entity, e.children[k]);
        }
      }
    }
  }

  /** The entity's own meshes close its draw order, in vector order, and
      everything before them comes from the trees of its children. */
  lemma OwnMeshesComeLast(e: Entity)
    ensures |DrawOrder(e)| >= |e.meshes|
    ensures forall i | 0 <= i < |e.meshes| ::
      DrawOrder(e)[|DrawOrder(e)| - |e.meshes| + i] == MeshDraw(e, e.meshes[i])
    ensures forall j | 0 <= j < |DrawOrder(e)| - |e.meshes| ::
      exists c | 0 <= c < |e.children| :: InTree(DrawOrder(e)[j].entity, e.children[c])
  {
    var front := ChildrenOrder(e, |e.children|);
    forall j | 0 <= j < |DrawOrder(e)| - |e.meshes|
      ensures exists c | 0 <= c < |e.children| :: InTree(DrawOrder(e)[j].entity, e.children[c])
    {
      assert DrawOrder(e)[j] == front[j];
      ChildrenOrderMembers(e, |e.children|, front[j]);
    }
  }

  /** Every draw of a child's tree is a draw of the whole tree. */
  lemma {:induction false} ChildDrawsAreTreeDraws(e: Entity, i: nat, n: nat, d: MeshDraw)
    requires i < n <= |e.children| && d in DrawOrder(e.children[i])
    ensures d in ChildrenOrder(e, n)
    decreases n
  {
    if i < n - 1 {
      ChildDrawsAreTreeDraws(e, i, n - 1, d);
    }
  }

  lemma {:induction false} ChildrenOrderGrows(e: Entity, n: nat, m: nat)
    requires n <= m <= |e.children|
    ensures ChildrenOrder(e, n) <= ChildrenOrder(e, m)
    decreases m
  {
    if n < m {
      ChildrenOrderGrows(e, n, m - 1);
    }
  }

  /** The trees of the first `n` children begin the draw order. */
  lemma ChildrenOrderPrefix(e: Entity, n: nat)
    requires n <= |e.children|
    ensures ChildrenOrder(e, n) <= DrawOrder(e)
  {
    ChildrenOrderGrows(e, n, |e.children|);
  }

  /** The first `n` own meshes, after the children, begin the draw order. */
  lemma OwnMeshesPrefix(e: Entity, n: nat)
    requires n <= |e.meshes|
    ensures ChildrenOrder(e, |e.children|) + OwnMeshes(e, n) <= DrawOrder(e)
  {
    assert OwnMeshes(e, n) == OwnMeshes(e, |e.meshes|)[..n];
  }

  /** One more own mesh: the next draw, which belongs to the draw order and
      extends the drawn prefix by one. */
  lemma OwnMeshStep(e: Entity, j: nat)
    requires j < |e.meshes|
    ensures MeshDraw(e, e.meshes[j]) in DrawOrder(e)
    ensures ChildrenOrder(e, |e.children|) + OwnMeshes(e, j + 1)
      == (ChildrenOrder(e, |e.children|) + OwnMeshes(e, j)) + [MeshDraw(e, e.meshes[j])]
    ensures ChildrenOrder(e, |e.children|) + OwnMeshes(e, j + 1) <= DrawOrder(e)
    ensures j + 1 == |e.meshes| ==> ChildrenOrder(e, |e.children|) + OwnMeshes(e, j + 1) == DrawOrder(e)
  {
    var children := ChildrenOrder(e, |e.children|);
    assert DrawOrder(e)[|children| + j] == MeshDraw(e, e.meshes[j]);
    Meshes.AppendAssociates(children, OwnMeshes(e, j), [MeshDraw(e, e.meshes[j])]);
    OwnMeshesPrefix(e, j + 1);
  }

  // ---------------------------------------------------------------------
  // Matrices

  /** `FixedUnit{ height / width }`: the quotient rounded to the nearest raw
      unit, halves up; a zero width divides by zero. */
  function AspectRatio(width: uint16, height: uint16): (r: Option<Fixed>)
    ensures r.Some? <==> width != 0
    ensures r.Some? ==> -(width as int) < 2 * (r.value * width - height * One) <= width
  {
    if width == 0 then None
    else
      var q := (2 * height * One + width) / (2 * width);
      assert 2 * height * One + width == q * (2 * width) + (2 * height * One + width) % (2 * width);
      Some(q)
  }

  /** `CreatePerspectiveMatrix`: the projection for the resolution's aspect
      ratio; `None` where one of its divisions has a zero divisor. */
  function CreatePerspectiveMatrix(fm: FixedMath, fieldOfView: Fixed, width: uint16, height: uint16,
                                   zNear: Fixed, zFar: Fixed): (r: Option<Matrix4x4>)
    ensures r.Some? <==> width != 0 && fm.tan(DivByInt(fieldOfView, 2)) != 0 && zNear != zFar
  {
    var aspect :- AspectRatio(width, height);
    PerspectiveProjection(fm, fieldOfView, aspect, zNear, zFar)
  }

  /** The renderer's projection copies view-space depth into clip-space `w`. */
  lemma ProjectionCopiesDepth(fm: FixedMath, width: uint16, height: uint16, v: Vector4)
    requires CreatePerspectiveMatrix(fm, DefaultFieldOfView, width, height, NearPlane, FarPlane).Some?
    ensures Transform(CreatePerspectiveMatrix(fm, DefaultFieldOfView, width, height, NearPlane, FarPlane).value, v).w == v.z
  {
    ProjectionWIsViewZ(fm, DefaultFieldOfView, AspectRatio(width, height).value, NearPlane, FarPlane, v);
  }

  /** `DrawScene`'s view matrix: a look-at from the camera position towards
      `(0, 0, 1)` with `(0, 1, 0)` up; the camera's rotation plays no part. */
  function ViewMatrix(fm: FixedMath, camera: Vector3): Option<Matrix4x4>
  {
    LookAt(fm, camera, Vector3(0, 0, One), Vector3(0, One, 0))
  }

  /** The view matrix takes the camera to the origin and keeps `w`. */
  lemma ViewMatrixCentresCamera(fm: FixedMath, camera: Vector3)
    requires ViewMatrix(fm, camera).Some?
    ensures Transform(ViewMatrix(fm, camera).value, Point(camera)) == Vector4(0, 0, 0, One)
    ensures IsAffine(ViewMatrix(fm, camera).value)
  {
    LookAtTakesEyeToOrigin(fm, camera, Vector3(0, 0, One), Vector3(0, One, 0));
    LookAtIsAffine(fm, camera, Vector3(0, 0, One), Vector3(0, One, 0));
  }

  /** `viewMatrix * entityTranslate * entityRotate`, multiplied left to right. */
  function ModelView(fm: FixedMath, view: Matrix4x4, e: Entity): Matrix4x4
  {
    Product(Product(view, Translation(e.position)), EulerRotation(fm, e.rotation))
  }

  /** Under an affine view matrix, vertices reach view space with `w == 1`. */
  lemma ModelViewKeepsW(fm: FixedMath, view: Matrix4x4, e: Entity, p: Vector3)
    requires IsAffine(view)
    ensures Transform(ModelView(fm, view, e), Point(p)).w == One
  {
    TransformsAreAffine(fm, e.position, 0);
    ProductOfAffine(view, Translation(e.position));
    EulerRotationIsAffine(fm, e.rotation);
    ProductOfAffine(Product(view, Translation(e.position)), EulerRotation(fm, e.rotation));
    AffineKeepsW(ModelView(fm, view, e), Point(p));
  }

  // ---------------------------------------------------------------------
  // One face

  /** The bounds-checked `.at(i)`: `OutOfRange` past the end. */
  function Fetch<T>(s: seq<T>, i: int): (r: Result<T, Fault>)
    ensures r.Success? <==> 0 <= i < |s|
    ensures r.Success? ==> r.value == s[i]
  {
    if 0 <= i < |s| then Success(s[i]) else Failure(OutOfRange)
  }

  /** `GetTriangleNormal`: `normalize(normalize(b - a) x normalize(c - a))`;
      `None` where a normalisation divides by a zero length. */
  function GetTriangleNormal(fm: FixedMath, a: Vector4, b: Vector4, c: Vector4): Option<Vector3>
  {
    var ab :- b.ToVector3().Minus(a.ToVector3()).Normalize(fm);
    var ac :- c.ToVector3().Minus(a.ToVector3()).Normalize(fm);
    ab.Cross(ac).Normalize(fm)
  }

  /** The face is kept when its normal points towards the camera at the
      origin: `normal . (0 - a) > 0`. */
  predicate FacesCamera(normal: Vector3, a: Vector4)
  {
    normal.Dot(Vector3(0, 0, 0).Minus(a.ToVector3())) > 0
  }

  /** `FixedUnit{ n / 2.0f }`. */
  function HalfOf(n: uint16): (r: Fixed)
    ensures 2 * r == FromInt(n)
  {
    n * Half
  }

  /** `x := (x / w) * halfWidth + halfWidth`, likewise `y`; `z` and `w` are kept. */
  function ToScreen(v: Vector4, halfWidth: Fixed, halfHeight: Fixed): (r: Vector4)
    requires v.w != 0
    ensures r.z == v.z && r.w == v.w
  {
    Vector4(Mul(Div(v.x, v.w), halfWidth) + halfWidth, Mul(Div(v.y, v.w), halfHeight) + halfHeight, v.z, v.w)
  }

  /** The left, centre and right of normalised device coordinates land on the
      first column, the middle and the full width (likewise for rows). */
  lemma ScreenMappingEnds(v: Vector4, width: uint16, height: uint16)
    requires v.w != 0
    ensures v.x == -v.w ==> ToScreen(v, HalfOf(width), HalfOf(height)).x == 0
    ensures v.x == 0 ==> ToScreen(v, HalfOf(width), HalfOf(height)).x == HalfOf(width)
    ensures v.x == v.w ==> ToScreen(v, HalfOf(width), HalfOf(height)).x == FromInt(width)
    ensures v.y == -v.w ==> ToScreen(v, HalfOf(width), HalfOf(height)).y == 0
    ensures v.y == 0 ==> ToScreen(v, HalfOf(width), HalfOf(height)).y == HalfOf(height)
    ensures v.y == v.w ==> ToScreen(v, HalfOf(width), HalfOf(height)).y == FromInt(height)
  {
    DivSelf(v.w);
    MulOne(HalfOf(width));
    MulOne(HalfOf(height));
    MulWholeLeft(-1, HalfOf(width));
    MulWholeLeft(-1, HalfOf(height));
    MulZero(HalfOf(width));
    MulZero(HalfOf(height));
  }

  /** What the per-face code reads besides the face: the library functions,
      the projection and the half sizes of the target. */
  datatype Stage = Stage(math: FixedMath, projection: Matrix4x4, halfWidth: Fixed, halfHeight: Fixed)

  /** Every index of the face names an entry: no `.at` throws. */
  predicate FetchesInRange(g: Meshes.Mesh<Vector3, Vector2>, face: Meshes.MeshFace)
  {
    && face.vertexIndices[0] < |g.vertices| && face.vertexIndices[1] < |g.vertices|
    && face.vertexIndices[2] < |g.vertices|
    && face.textureCoordinateIndices[0] < |g.textureCoordinates|
    && face.textureCoordinateIndices[1] < |g.textureCoordinates|
    && face.textureCoordinateIndices[2] < |g.textureCoordinates|
  }

  /** One pass of the children loop: child `i`'s tree continues the painting
      of the trees before it. */
  lemma ChildTreeStep(before: seq<Colour>, width: nat, writer: MeshDraw -> seq<Stroke>, e: Entity, i: nat,
                      middle: seq<Colour>, after: seq<Colour>, outcome: Outcome)
    requires i < |e.children|
    requires Paint(before, width, Flatten(writer, ChildrenOrder(e, i))) == Painted(middle, Completed)
    requires Painted(after, outcome) == Paint(middle, width, Flatten(writer, DrawOrder(e.children[i])))
    ensures Painted(after, outcome) == Paint(before, width, Flatten(writer, ChildrenOrder(e, i + 1)))
  {
    PaintThrough(before, width, writer, ChildrenOrder(e, i), DrawOrder(e.children[i]), middle);
  }

  /** A fault in the trees of the first `i` children is the fault of them all. */
  lemma ChildFaultEndsChildren(before: seq<Colour>, width: nat, writer: MeshDraw -> seq<Stroke>, e: Entity, i: nat,
                               after: seq<Colour>, outcome: Outcome)
    requires i <= |e.children| && outcome.Failed?
    requires Painted(after, outcome) == Paint(before, width, Flatten(writer, ChildrenOrder(e, i)))
    ensures Painted(after, outcome) == Paint(before, width, Flatten(writer, ChildrenOrder(e, |e.children|)))
  {
    ChildrenOrderGrows(e, i, |e.children|);
    FlattenAfterFault(before, width, writer, ChildrenOrder(e, i), ChildrenOrder(e, |e.children|));
  }

  /** What holds for an order holds for any run inside it that is reached:
      one whose earlier draws write without a fault. */
  lemma {:induction false} ReachedRun(s: Stage, view: Matrix4x4, order: seq<MeshDraw>, front: seq<MeshDraw>,
                                      run: seq<MeshDraw>, n: nat, width: nat)
    requires front + run <= order && OrderScansEnd(s, view, order, n, width)
    requires Completes(n, width, OrderStrokes(s, view, front))
    ensures OrderScansEnd(s, view, run, n, width)
  {
    forall k | 0 <= k < |run| && Completes(n, width, OrderStrokes(s, view, run[..k]))
      ensures MeshScansEnd(s, ModelView(s.math, view, run[k].entity), run[k].mesh, n, width)
    {
      FlattenAppend(MeshWriter(s, view), front, run[..k]);
      CompletesAppend(n, width, OrderStrokes(s, view, front), OrderStrokes(s, view, run[..k]));
      RunItemInOrder(order, front, run, k);
      ReachedDraw(s, view, order, front + run[..k], run[k], n, width);
    }
  }

  /** An item of a run that begins after `front` in `order`, with the items
      before it, begins `order` too. */
  lemma RunItemInOrder<T>(order: seq<T>, front: seq<T>, run: seq<T>, k: nat)
    requires front + run <= order && k < |run|
    ensures front + run[..k] + [run[k]] <= order
  {
    assert front + run[..k] + [run[k]] == (front + run)[..|front| + k + 1];
  }

  /** What holds for a tree holds for the tree of each child the loop
      reaches: one whose earlier siblings' trees write without a fault. */
  lemma ChildScansEnd(s: Stage, view: Matrix4x4, e: Entity, i: nat, n: nat, width: nat)
    requires i < |e.children| && OrderScansEnd(s, view, DrawOrder(e), n, width)
    requires Completes(n, width, OrderStrokes(s, view, ChildrenOrder(e, i)))
    ensures OrderScansEnd(s, view, DrawOrder(e.children[i]), n, width)
  {
    ChildrenOrderPrefix(e, i + 1);
    ReachedRun(s, view, DrawOrder(e), ChildrenOrder(e, i), DrawOrder(e.children[i]), n, width);
  }

  /** A matrix as the vertex transform `v => m * v`. */
  function Transformer(m: Matrix4x4): Vector4 -> Vector4
  {
    v => Transform(m, v)
  }

  /** The outcome of one face: the fault that stops the frame, no draw call
      (culled), or the arguments of its `DrawTexturedTriangle` call. */
  function FaceCall(s: Stage, modelView: Matrix4x4, g: Meshes.Mesh<Vector3, Vector2>, face: Meshes.MeshFace)
    : Result<Option<TexturedTriangle>, Fault>
  {
    FaceCallVia(s.math, Transformer(modelView), Transformer(s.projection), s.halfWidth, s.halfHeight, g, face)
  }

  /** `FaceCall` with the model-view and projection matrices given as the
      vertex transforms `view` and `project`. */
  function FaceCallVia(math: FixedMath, view: Vector4 -> Vector4, project: Vector4 -> Vector4,
                       halfWidth: Fixed, halfHeight: Fixed, g: Meshes.Mesh<Vector3, Vector2>, face: Meshes.MeshFace)
    : Result<Option<TexturedTriangle>, Fault>
  {
    var vi, ti := face.vertexIndices, face.textureCoordinateIndices;
    var pa :- Fetch(g.vertices, vi[0]);
    var pb :- Fetch(g.vertices, vi[1]);
    var pc :- Fetch(g.vertices, vi[2]);
    var ta :- Fetch(g.textureCoordinates, ti[0]);
    var tb :- Fetch(g.textureCoordinates, ti[1]);
    var tc :- Fetch(g.textureCoordinates, ti[2]);
    var va, vb, vc := view(Point(pa)), view(Point(pb)), view(Point(pc));
    match GetTriangleNormal(math, va, vb, vc)
    case None => Failure(DivisionByZero)
    case Some(normal) =>
      if !FacesCamera(normal, va) then Success(None)
      else ProjectedCall(project, halfWidth, halfHeight, va, vb, vc, ta, tb, tc)
  }

  /** The part of a face past the cull: project the view-space vertices,
      fault where a `w` is zero, map the rest to the screen. */
  function ProjectedCall(project: Vector4 -> Vector4, halfWidth: Fixed, halfHeight: Fixed,
                         va: Vector4, vb: Vector4, vc: Vector4, ta: Vector2, tb: Vector2, tc: Vector2)
    : Result<Option<TexturedTriangle>, Fault>
  {
    var ca, cb, cc := project(va), project(vb), project(vc);
    if ca.w == 0 || cb.w == 0 || cc.w == 0 then Failure(DivisionByZero)
    else Success(Some(TexturedTriangle(ToScreen(ca, halfWidth, halfHeight), ToScreen(cb, halfWidth, halfHeight),
                                       ToScreen(cc, halfWidth, halfHeight), ta, tb, tc)))
  }

  /** Vertex `k` of the face after the transform `view`. */
  function Viewed(view: Vector4 -> Vector4, g: Meshes.Mesh<Vector3, Vector2>, face: Meshes.MeshFace, k: nat): Vector4
    requires FetchesInRange(g, face) && k < 3
  {
    view(Point(g.vertices[face.vertexIndices[k]]))
  }

  /** A face throws `OutOfRange` exactly when one of its indices is past the
      end, whatever the transforms. */
  lemma OutOfRangeIffBadIndex(math: FixedMath, view: Vector4 -> Vector4, project: Vector4 -> Vector4,
                              halfWidth: Fixed, halfHeight: Fixed, g: Meshes.Mesh<Vector3, Vector2>,
                              face: Meshes.MeshFace)
    ensures FaceCallVia(math, view, project, halfWidth, halfHeight, g, face) == Failure(OutOfRange)
      <==> !FetchesInRange(g, face)
  {
  }

  /** The back-face cull: a face with valid indices and a normal gives no draw
      call exactly when `normal . (0 - a) <= 0` in view space. */
  lemma CullIffFacingAway(math: FixedMath, view: Vector4 -> Vector4, project: Vector4 -> Vector4,
                          halfWidth: Fixed, halfHeight: Fixed, g: Meshes.Mesh<Vector3, Vector2>,
                          face: Meshes.MeshFace)
    requires FetchesInRange(g, face)
    requires GetTriangleNormal(math, Viewed(view, g, face, 0), Viewed(view, g, face, 1), Viewed(view, g, face, 2)).Some?
    ensures FaceCallVia(math, view, project, halfWidth, halfHeight, g, face) == Success(None) <==>
      !FacesCamera(GetTriangleNormal(math, Viewed(view, g, face, 0), Viewed(view, g, face, 1),
                                     Viewed(view, g, face, 2)).value,
                   Viewed(view, g, face, 0))
  {
  }

  /** Past the cull, a face's outcome is that of its view-space vertices. */
  lemma FaceCallAfterCull(math: FixedMath, view: Vector4 -> Vector4, project: Vector4 -> Vector4,
                          halfWidth: Fixed, halfHeight: Fixed, g: Meshes.Mesh<Vector3, Vector2>,
                          face: Meshes.MeshFace)
    requires FetchesInRange(g, face)
    requires GetTriangleNormal(math, Viewed(view, g, face, 0), Viewed(view, g, face, 1), Viewed(view, g, face, 2)).Some?
    requires FacesCamera(GetTriangleNormal(math, Viewed(view, g, face, 0), Viewed(view, g, face, 1),
                                           Viewed(view, g, face, 2)).value,
                         Viewed(view, g, face, 0))
    ensures FaceCallVia(math, view, project, halfWidth, halfHeight, g, face)
      == ProjectedCall(project, halfWidth, halfHeight,
                       Viewed(view, g, face, 0), Viewed(view, g, face, 1), Viewed(view, g, face, 2),
                       g.textureCoordinates[face.textureCoordinateIndices[0]],
                       g.textureCoordinates[face.textureCoordinateIndices[1]],
                       g.textureCoordinates[face.textureCoordinateIndices[2]])
  {
  }

  /** A drawn face passes its texture coordinates in face-index order, and
      each vertex carries the `w` its projection gives it. */
  lemma DrawCallFollowsFace(math: FixedMath, view: Vector4 -> Vector4, project: Vector4 -> Vector4,
                            halfWidth: Fixed, halfHeight: Fixed, g: Meshes.Mesh<Vector3, Vector2>,
                            face: Meshes.MeshFace)
    requires FaceCallVia(math, view, project, halfWidth, halfHeight, g, face).Success?
    requires FaceCallVia(math, view, project, halfWidth, halfHeight, g, face).value.Some?
    ensures FetchesInRange(g, face)
    ensures var t := FaceCallVia(math, view, project, halfWidth, halfHeight, g, face).value.value;
      && t.ta == g.textureCoordinates[face.textureCoordinateIndices[0]]
      && t.tb == g.textureCoordinates[face.textureCoordinateIndices[1]]
      && t.tc == g.textureCoordinates[face.textureCoordinateIndices[2]]
      && t.a.w == project(Viewed(view, g, face, 0)).w
      && t.b.w == project(Viewed(view, g, face, 1)).w
      && t.c.w == project(Viewed(view, g, face, 2)).w
  {
  }

  /** Under a projection whose last row is `(0, 0, 1, 0)`, as the renderer's
      is, the vertices of a drawn face keep their view-space depth as `w`. */
  lemma DrawnDepthIsViewDepth(s: Stage, modelView: Matrix4x4, g: Meshes.Mesh<Vector3, Vector2>,
                              face: Meshes.MeshFace)
    requires FaceCall(s, modelView, g, face).Success? && FaceCall(s, modelView, g, face).value.Some?
    requires s.projection.r3 == Vector4(0, 0, One, 0)
    ensures FetchesInRange(g, face)
    ensures var t := FaceCall(s, modelView, g, face).value.value;
      && t.a.w == Viewed(Transformer(modelView), g, face, 0).z
      && t.b.w == Viewed(Transformer(modelView), g, face, 1).z
      && t.c.w == Viewed(Transformer(modelView), g, face, 2).z
  {
    var view := Transformer(modelView);
    DrawCallFollowsFace(s.math, view, Transformer(s.projection), s.halfWidth, s.halfHeight, g, face);
    Dot4Unit(Viewed(view, g, face, 0));
    Dot4Unit(Viewed(view, g, face, 1));
    Dot4Unit(Viewed(view, g, face, 2));
  }

  /** A stroke that writes nothing and stops the frame with `f`: a fault raised
      before any pixel of the face is written. */
  function Halt(f: Fault): Stroke
  {
    Stroke(Pixel(0, 0), Failure(f))
  }

  /** The writes of one face. */
  function FaceStrokes(texture: Option<PngTexture>, call: Result<Option<TexturedTriangle>, Fault>): seq<Stroke>
  {
    match call
    case Failure(f) => [Halt(f)]
    case Success(None) => []
    case Success(Some(t)) => TriangleStrokes(texture, t)
  }

  /** A range-`for` over the face's three vertices: each is replaced by `f(vertex)`. */
  method TransformEach(f: Vector4 -> Vector4, vertices: array<Vector4>)
    requires vertices.Length == 3
    modifies vertices
    ensures vertices[0] == f(old(vertices[0])) && vertices[1] == f(old(vertices[1])) && vertices[2] == f(old(vertices[2]))
  {
    for k := 0 to 3
      invariant forall j | 0 <= j < k :: vertices[j] == f(old(vertices[j]))
      invariant forall j | k <= j < 3 :: vertices[j] == old(vertices[j])
    {
      vertices[k] := f(vertices[k]);
    }
  }

  /** The screen-space loop: `x := (x / w) * halfWidth + halfWidth`, likewise
      `y`, vertex by vertex; `false` at the first `w == 0`, whose division
      stops the frame. */
  method ScreenEach(vertices: array<Vector4>, halfWidth: Fixed, halfHeight: Fixed) returns (ok: bool)
    requires vertices.Length == 3
    modifies vertices
    ensures ok <==> old(vertices[0]).w != 0 && old(vertices[1]).w != 0 && old(vertices[2]).w != 0
    ensures ok ==> && old(vertices[0]).w != 0 && vertices[0] == ToScreen(old(vertices[0]), halfWidth, halfHeight)
                   && old(vertices[1]).w != 0 && vertices[1] == ToScreen(old(vertices[1]), halfWidth, halfHeight)
                   && old(vertices[2]).w != 0 && vertices[2] == ToScreen(old(vertices[2]), halfWidth, halfHeight)
  {
    for k := 0 to 3
      invariant forall j | 0 <= j < k ::
        old(vertices[j]).w != 0 && vertices[j] == ToScreen(old(vertices[j]), halfWidth, halfHeight)
      invariant forall j | k <= j < 3 :: vertices[j] == old(vertices[j])
    {
      if vertices[k].w == 0 {
        return false;
      }
      vertices[k] := ToScreen(vertices[k], halfWidth, halfHeight);
    }
    return true;
  }

  /** A halting stroke leaves the buffer alone and reports its fault. */
  lemma HaltStops(buffer: seq<Colour>, width: nat, f: Fault)
    ensures Paint(buffer, width, [Halt(f)]) == Painted(buffer, Failed(f))
  {
    assert [Halt(f)][..0] == [];
  }

  /** A prefix one longer is the prefix and the next item. */
  lemma TakeOneMore<T>(xs: seq<T>, i: nat)
    requires i < |xs|
    ensures xs[..i + 1] == xs[..i] + [xs[i]]
  {
  }

  /** Appending nothing changes nothing. */
  lemma AppendNothing<T>(xs: seq<T>, none: seq<T>)
    requires |none| == 0
    ensures xs + none == xs
  {
  }

  /** The runs `f` gives the items, one after another. */
  function Flatten<T>(f: T -> seq<Stroke>, xs: seq<T>): seq<Stroke>
  {
    if |xs| == 0 then [] else Flatten(f, xs[..|xs| - 1]) + f(xs[|xs| - 1])
  }

  lemma FlattenSnoc<T>(f: T -> seq<Stroke>, xs: seq<T>, x: T)
    ensures Flatten(f, xs + [x]) == Flatten(f, xs) + f(x)
  {
    assert (xs + [x])[..|xs|] == xs;
  }

  lemma {:induction false} FlattenAppend<T>(f: T -> seq<Stroke>, front: seq<T>, back: seq<T>)
    ensures Flatten(f, front + back) == Flatten(f, front) + Flatten(f, back)
    decreases |back|
  {
    if |back| == 0 {
      assert front + back == front;
    } else {
      var init, last := back[..|back| - 1], back[|back| - 1];
      assert front + back == (front + init) + [last];
      assert back == init + [last];
      FlattenSnoc(f, front + init, last);
      FlattenSnoc(f, init, last);
      FlattenAppend(f, front, init);
      Meshes.AppendAssociates(Flatten(f, front), Flatten(f, init), f(last));
    }
  }

  /** Painting the runs of `front + next` passes through the buffer that
      `front` leaves when it completes. */
  lemma PaintThrough<T>(buffer: seq<Colour>, width: nat, f: T -> seq<Stroke>, front: seq<T>, next: seq<T>,
                        middle: seq<Colour>)
    requires Paint(buffer, width, Flatten(f, front)) == Painted(middle, Completed)
    ensures Paint(buffer, width, Flatten(f, front + next)) == Paint(middle, width, Flatten(f, next))
  {
    FlattenAppend(f, front, next);
    PaintAppend(buffer, width, Flatten(f, front), Flatten(f, next));
  }

  /** Once the writes of a prefix of the items fault, the rest change nothing. */
  lemma FlattenAfterFault<T>(buffer: seq<Colour>, width: nat, f: T -> seq<Stroke>, front: seq<T>, all: seq<T>)
    requires front <= all && Paint(buffer, width, Flatten(f, front)).outcome.Failed?
    ensures Paint(buffer, width, Flatten(f, all)) == Paint(buffer, width, Flatten(f, front))
  {
    assert all == front + all[|front|..];
    FlattenAppend(f, front, all[|front|..]);
    PaintAppend(buffer, width, Flatten(f, front), Flatten(f, all[|front|..]));
  }

  /** The writes of one face of a mesh placed by `modelView`. */
  function FaceWriter(s: Stage, modelView: Matrix4x4, mesh: SceneMesh): Meshes.MeshFace -> seq<Stroke>
  {
    (face: Meshes.MeshFace) => FaceStrokes(mesh.texture, FaceCall(s, modelView, mesh.geometry, face))
  }

  /** The writes of a mesh: its faces in vector order. */
  function MeshStrokes(s: Stage, modelView: Matrix4x4, mesh: SceneMesh): seq<Stroke>
  {
    Flatten(FaceWriter(s, modelView, mesh), mesh.geometry.faces)
  }

  /** The writes of one mesh draw under the view matrix. */
  function MeshWriter(s: Stage, view: Matrix4x4): MeshDraw -> seq<Stroke>
  {
    (d: MeshDraw) => MeshStrokes(s, ModelView(s.math, view, d.entity), d.mesh)
  }

  /** The writes of a sequence of mesh draws. */
  function OrderStrokes(s: Stage, view: Matrix4x4, order: seq<MeshDraw>): seq<Stroke>
  {
    Flatten(MeshWriter(s, view), order)
  }

  /** The writes of a whole frame: a view matrix that cannot be built stops it
      before anything is drawn. */
  function SceneStrokes(s: Stage, camera: Vector3, scene: Entity): seq<Stroke>
  {
    match ViewMatrix(s.math, camera)
    case None => [Halt(DivisionByZero)]
    case Some(view) => OrderStrokes(s, view, DrawOrder(scene))
  }

  /** The rasteriser's scan counters end for every triangle the face hands it. */
  predicate CallScansEnd(call: Result<Option<TexturedTriangle>, Fault>)
  {
    call.Success? && call.value.Some? && call.value.value.CounterClockwise() ==> ScanEnds(call.value.value)
  }

  lemma ScansEndOfCall(call: Result<Option<TexturedTriangle>, Fault>, t: TexturedTriangle)
    requires CallScansEnd(call) && call == Success(Some(t))
    ensures t.CounterClockwise() ==> ScanEnds(t)
  {
  }

  /** The scan counters end for every face of the mesh the face loop
      reaches: each face whose earlier faces write without a fault on a
      target of `n` entries, `width` wide. Faces after a fault are never
      drawn and need nothing. */
  predicate MeshScansEnd(s: Stage, modelView: Matrix4x4, mesh: SceneMesh, n: nat, width: nat)
  {
    forall i | 0 <= i < |mesh.geometry.faces| ::
      Completes(n, width, Flatten(FaceWriter(s, modelView, mesh), mesh.geometry.faces[..i])) ==>
        CallScansEnd(FaceCall(s, modelView, mesh.geometry, mesh.geometry.faces[i]))
  }

  /** The same for every mesh draw of `order` that is reached: the draws
      before it write without a fault. */
  predicate OrderScansEnd(s: Stage, view: Matrix4x4, order: seq<MeshDraw>, n: nat, width: nat)
  {
    forall k | 0 <= k < |order| ::
      Completes(n, width, OrderStrokes(s, view, order[..k])) ==>
        MeshScansEnd(s, ModelView(s.math, view, order[k].entity), order[k].mesh, n, width)
  }

  /** The draw after a prefix that completes is reached. */
  lemma ReachedDraw(s: Stage, view: Matrix4x4, order: seq<MeshDraw>, front: seq<MeshDraw>, d: MeshDraw,
                    n: nat, width: nat)
    requires front + [d] <= order && OrderScansEnd(s, view, order, n, width)
    requires Completes(n, width, OrderStrokes(s, view, front))
    ensures MeshScansEnd(s, ModelView(s.math, view, d.entity), d.mesh, n, width)
  {
    assert order[..|front|] == front;
    assert order[|front|] == (front + [d])[|front|] == d;
  }

  // ---------------------------------------------------------------------
  // The renderer

  class Renderer {
    const Math: FixedMath
    const FrameBuffer: RenderTarget
    /** `m_projectionMatrix`. */
    const Projection: Matrix4x4

    /** The frame buffer and the projection for the resolution. */
    constructor(fm: FixedMath, width: uint16, height: uint16)
      requires CreatePerspectiveMatrix(fm, DefaultFieldOfView, width, height, NearPlane, FarPlane).Some?
      ensures Math == fm
      ensures Projection == CreatePerspectiveMatrix(fm, DefaultFieldOfView, width, height, NearPlane, FarPlane).value
      ensures fresh(FrameBuffer) && fresh(FrameBuffer.Buffer) && FrameBuffer.Valid()
      ensures FrameBuffer.Width == width && FrameBuffer.Height == height
      ensures forall i | 0 <= i < FrameBuffer.Buffer.Length :: FrameBuffer.Buffer[i] == DefaultBackground
    {
      Math := fm;
      FrameBuffer := new RenderTarget(width, height);
      Projection := CreatePerspectiveMatrix(fm, DefaultFieldOfView, width, height, NearPlane, FarPlane).value;
    }

    function Pipeline(): Stage
    {
      Stage(Math, Projection, HalfOf(FrameBuffer.Width), HalfOf(FrameBuffer.Height))
    }

    /** One face of `DrawEntityMesh`, under the vertex transforms `view`
        (`viewMatrix * entityTranslate * entityRotate`) and `project` (the
        projection matrix): the three vertices are overwritten in place by
        the view transform, then (for a face that survives the cull) by the
        projection, then by the screen mapping. */
    method DrawFace(view: Vector4 -> Vector4, project: Vector4 -> Vector4, mesh: SceneMesh, face: Meshes.MeshFace)
      returns (outcome: Outcome)
      requires CallScansEnd(FaceCallVia(Math, view, project, HalfOf(FrameBuffer.Width), HalfOf(FrameBuffer.Height),
                                        mesh.geometry, face))
      modifies FrameBuffer.Buffer
      ensures Painted(FrameBuffer.Buffer[..], outcome)
        == Paint(old(FrameBuffer.Buffer[..]), FrameBuffer.Width,
                 FaceStrokes(mesh.texture, FaceCallVia(Math, view, project, HalfOf(FrameBuffer.Width),
                                                       HalfOf(FrameBuffer.Height), mesh.geometry, face)))
    {
      var halfWidth, halfHeight := HalfOf(FrameBuffer.Width), HalfOf(FrameBuffer.Height);
      ghost var call := FaceCallVia(Math, view, project, halfWidth, halfHeight, mesh.geometry, face);
      ghost var before := FrameBuffer.Buffer[..];
      var g, vi, ti := mesh.geometry, face.vertexIndices, face.textureCoordinateIndices;
      if !(vi[0] < |g.vertices| && vi[1] < |g.vertices| && vi[2] < |g.vertices|
           && ti[0] < |g.textureCoordinates| && ti[1] < |g.textureCoordinates| && ti[2] < |g.textureCoordinates|) {
        HaltStops(before, FrameBuffer.Width, OutOfRange);
        return Failed(OutOfRange);
      }
      var ta, tb, tc := g.textureCoordinates[ti[0]], g.textureCoordinates[ti[1]], g.textureCoordinates[ti[2]];
      var vertices := new Vector4[3];
      vertices[0], vertices[1], vertices[2] := Point(g.vertices[vi[0]]), Point(g.vertices[vi[1]]), Point(g.vertices[vi[2]]);
      TransformEach(view, vertices);
      ghost var va, vb, vc := vertices[0], vertices[1], vertices[2];
      assert va == Viewed(view, g, face, 0) && vb == Viewed(view, g, face, 1) && vc == Viewed(view, g, face, 2);
      var normal := GetTriangleNormal(Math, vertices[0], vertices[1], vertices[2]);
      if normal.None? {
        HaltStops(before, FrameBuffer.Width, DivisionByZero);
        return Failed(DivisionByZero);
      }
      if !FacesCamera(normal.value, vertices[0]) {
        return Completed;
      }
      FaceCallAfterCull(Math, view, project, halfWidth, halfHeight, g, face);
      assert call == ProjectedCall(project, halfWidth, halfHeight, va, vb, vc, ta, tb, tc);
      TransformEach(project, vertices);
      var onScreen := ScreenEach(vertices, halfWidth, halfHeight);
      if !onScreen {
        HaltStops(before, FrameBuffer.Width, DivisionByZero);
        return Failed(DivisionByZero);
      }
      ghost var t := TexturedTriangle(vertices[0], vertices[1], vertices[2], ta, tb, tc);
      assert t == TexturedTriangle(ToScreen(project(va), halfWidth, halfHeight), ToScreen(project(vb), halfWidth, halfHeight),
                                   ToScreen(project(vc), halfWidth, halfHeight), ta, tb, tc);
      assert call == Success(Some(t));
      ScansEndOfCall(call, t);
      assert FrameBuffer.Buffer[..] == before;
      outcome := FrameBuffer.DrawTexturedTriangle(vertices[0], vertices[1], vertices[2], ta, tb, tc, mesh.texture);
    }

    /** `DrawEntityMesh`: the entity's placement, then the faces. */
    method DrawEntityMesh(view: Matrix4x4, entity: Entity, mesh: SceneMesh) returns (outcome: Outcome)
      requires MeshScansEnd(Pipeline(), ModelView(Math, view, entity), mesh, FrameBuffer.Buffer.Length, FrameBuffer.Width)
      modifies FrameBuffer.Buffer
      ensures Painted(FrameBuffer.Buffer[..], outcome)
        == Paint(old(FrameBuffer.Buffer[..]), FrameBuffer.Width, MeshStrokes(Pipeline(), ModelView(Math, view, entity), mesh))
    {
      var modelView := ModelView(Math, view, entity);
      outcome := DrawFaces(modelView, mesh);
    }

    /** The face loop of `DrawEntityMesh`: the faces in vector order; the
        first fault ends the frame. */
    method DrawFaces(modelView: Matrix4x4, mesh: SceneMesh) returns (outcome: Outcome)
      requires MeshScansEnd(Pipeline(), modelView, mesh, FrameBuffer.Buffer.Length, FrameBuffer.Width)
      modifies FrameBuffer.Buffer
      ensures Painted(FrameBuffer.Buffer[..], outcome)
        == Paint(old(FrameBuffer.Buffer[..]), FrameBuffer.Width, MeshStrokes(Pipeline(), modelView, mesh))
    {
      ghost var before := FrameBuffer.Buffer[..];
      ghost var writer := FaceWriter(Pipeline(), modelView, mesh);
      var view, project := Transformer(modelView), Transformer(Projection);
      var faces := mesh.geometry.faces;
      var i := 0;
      while i < |faces|
        invariant 0 <= i <= |faces|
        invariant Painted(FrameBuffer.Buffer[..], Completed) == Paint(before, FrameBuffer.Width, Flatten(writer, faces[..i]))
      {
        PaintCompletes(before, FrameBuffer.Width, Flatten(writer, faces[..i]));
        outcome := DrawFace(view, project, mesh, faces[i]);
        TakeOneMore(faces, i);
        FlattenSnoc(writer, faces[..i], faces[i]);
        PaintAppend(before, FrameBuffer.Width, Flatten(writer, faces[..i]), writer(faces[i]));
        if outcome.Failed? {
          FlattenAfterFault(before, FrameBuffer.Width, writer, faces[..i + 1], faces);
          return;
        }
        i := i + 1;
      }
      assert faces[..i] == faces;
      outcome := Completed;
    }

    /** `DrawEntityTreeMeshes`: the children's trees, then the entity's own
        meshes; the first fault ends the frame. */
    method DrawEntityTreeMeshes(view: Matrix4x4, entity: Entity) returns (outcome: Outcome)
      requires OrderScansEnd(Pipeline(), view, DrawOrder(entity), FrameBuffer.Buffer.Length, FrameBuffer.Width)
      modifies FrameBuffer.Buffer
      ensures Painted(FrameBuffer.Buffer[..], outcome)
        == Paint(old(FrameBuffer.Buffer[..]), FrameBuffer.Width, OrderStrokes(Pipeline(), view, DrawOrder(entity)))
      decreases entity, 2
    {
      ghost var before := FrameBuffer.Buffer[..];
      outcome := DrawChildTrees(view, entity);
      if outcome.Failed? {
        ChildrenOrderPrefix(entity, |entity.children|);
        FlattenAfterFault(before, FrameBuffer.Width, MeshWriter(Pipeline(), view),
                          ChildrenOrder(entity, |entity.children|), DrawOrder(entity));
        return;
      }
      outcome := DrawOwnMeshes(view, entity, before);
    }

    /** The first loop of `DrawEntityTreeMeshes`: the trees of the children,
        in vector order. */
    method DrawChildTrees(view: Matrix4x4, entity: Entity) returns (outcome: Outcome)
      requires OrderScansEnd(Pipeline(), view, DrawOrder(entity), FrameBuffer.Buffer.Length, FrameBuffer.Width)
      modifies FrameBuffer.Buffer
      ensures outcome.Completed? ==>
        Painted(FrameBuffer.Buffer[..], outcome)
          == Paint(old(FrameBuffer.Buffer[..]), FrameBuffer.Width,
                   OrderStrokes(Pipeline(), view, ChildrenOrder(entity, |entity.children|)))
      // a fault in one child's tree is where the writes of all the trees stop
      ensures outcome.Failed? ==>
        Painted(FrameBuffer.Buffer[..], outcome)
          == Paint(old(FrameBuffer.Buffer[..]), FrameBuffer.Width,
                   OrderStrokes(Pipeline(), view, ChildrenOrder(entity, |entity.children|)))
      decreases entity, 1
    {
      ghost var before := FrameBuffer.Buffer[..];
      var i := 0;
      outcome := Completed;
      while i < |entity.children| && outcome.Completed?
        invariant 0 <= i <= |entity.children|
        invariant Painted(FrameBuffer.Buffer[..], outcome)
          == Paint(before, FrameBuffer.Width, OrderStrokes(Pipeline(), view, ChildrenOrder(entity, i)))
      {
        outcome := DrawChildTree(view, entity, i, before);
        i := i + 1;
      }
      if outcome.Failed? {
        ChildFaultEndsChildren(before, FrameBuffer.Width, MeshWriter(Pipeline(), view), entity, i,
                               FrameBuffer.Buffer[..], outcome);
      }
    }

    /** One pass of the first loop: the tree of child `i`, continuing the
        trees of the children before it. */
    method DrawChildTree(view: Matrix4x4, entity: Entity, i: nat, ghost before: seq<Colour>) returns (outcome: Outcome)
      requires i < |entity.children|
      requires OrderScansEnd(Pipeline(), view, DrawOrder(entity), FrameBuffer.Buffer.Length, FrameBuffer.Width)
      requires Painted(FrameBuffer.Buffer[..], Completed)
        == Paint(before, FrameBuffer.Width, OrderStrokes(Pipeline(), view, ChildrenOrder(entity, i)))
      modifies FrameBuffer.Buffer
      ensures Painted(FrameBuffer.Buffer[..], outcome)
        == Paint(before, FrameBuffer.Width, OrderStrokes(Pipeline(), view, ChildrenOrder(entity, i + 1)))
      decreases entity, 0
    {
      PaintCompletes(before, FrameBuffer.Width, OrderStrokes(Pipeline(), view, ChildrenOrder(entity, i)));
      ChildScansEnd(Pipeline(), view, entity, i, FrameBuffer.Buffer.Length, FrameBuffer.Width);
      ghost var middle := FrameBuffer.Buffer[..];
      outcome := DrawEntityTreeMeshes(view, entity.children[i]);
      ChildTreeStep(before, FrameBuffer.Width, MeshWriter(Pipeline(), view), entity, i, middle, FrameBuffer.Buffer[..], outcome);
    }

    /** The second loop of `DrawEntityTreeMeshes`: the entity's own meshes,
        once the children's trees are drawn. */
    method DrawOwnMeshes(view: Matrix4x4, entity: Entity, ghost before: seq<Colour>) returns (outcome: Outcome)
      requires OrderScansEnd(Pipeline(), view, DrawOrder(entity), FrameBuffer.Buffer.Length, FrameBuffer.Width)
      requires Painted(FrameBuffer.Buffer[..], Completed)
        == Paint(before, FrameBuffer.Width, OrderStrokes(Pipeline(), view, ChildrenOrder(entity, |entity.children|)))
      modifies FrameBuffer.Buffer
      ensures Painted(FrameBuffer.Buffer[..], outcome)
        == Paint(before, FrameBuffer.Width, OrderStrokes(Pipeline(), view, DrawOrder(entity)))
    {
      ghost var width := FrameBuffer.Width;
      ghost var writer := MeshWriter(Pipeline(), view);
      ghost var children := ChildrenOrder(entity, |entity.children|);
      AppendNothing(children, OwnMeshes(entity, 0));
      var j := 0;
      while j < |entity.meshes|
        invariant 0 <= j <= |entity.meshes|
        invariant Painted(FrameBuffer.Buffer[..], Completed)
          == Paint(before, width, Flatten(writer, children + OwnMeshes(entity, j)))
      {
        var mesh := entity.meshes[j];
        ghost var front := children + OwnMeshes(entity, j);
        OwnMeshStep(entity, j);
        PaintCompletes(before, width, Flatten(writer, front));
        ReachedDraw(Pipeline(), view, DrawOrder(entity), front, MeshDraw(entity, mesh), FrameBuffer.Buffer.Length, width);
        outcome := DrawEntityMesh(view, entity, mesh);
        FlattenSnoc(writer, front, MeshDraw(entity, mesh));
        PaintAppend(before, width, Flatten(writer, front), writer(MeshDraw(entity, mesh)));
        if outcome.Failed? {
          FlattenAfterFault(before, width, writer, children + OwnMeshes(entity, j + 1), DrawOrder(entity));
          return;
        }
        j := j + 1;
      }
      outcome := Completed;
    }

    /** `DrawScene`: the view matrix from the camera position, then the tree. */
    method DrawScene(camera: Vector3, scene: Entity) returns (outcome: Outcome)
      requires ViewMatrix(Math, camera).Some? ==>
        OrderScansEnd(Pipeline(), ViewMatrix(Math, camera).value, DrawOrder(scene), FrameBuffer.Buffer.Length, FrameBuffer.Width)
      modifies FrameBuffer.Buffer
      ensures Painted(FrameBuffer.Buffer[..], outcome)
        == Paint(old(FrameBuffer.Buffer[..]), FrameBuffer.Width, SceneStrokes(Pipeline(), camera, scene))
    {
      var view := ViewMatrix(Math, camera);
      if view.None? {
        HaltStops(FrameBuffer.Buffer[..], FrameBuffer.Width, DivisionByZero);
        return Failed(DivisionByZero);
      }
      outcome := DrawEntityTreeMeshes(view.value, scene);
    }
  }

  /** The renderer, or `DivisionByZero` where its projection cannot be built. */
  method CreateRenderer(fm: FixedMath, width: uint16, height: uint16) returns (r: Result<Renderer, Fault>)
    ensures r.Failure? <==> CreatePerspectiveMatrix(fm, DefaultFieldOfView, width, height, NearPlane, FarPlane).None?
    ensures r.Success? ==>
      && fresh(r.value) && r.value.Math == fm && r.value.FrameBuffer.Valid()
      && r.value.FrameBuffer.Width == width && r.value.FrameBuffer.Height == height
      && r.value.Projection == CreatePerspectiveMatrix(fm, DefaultFieldOfView, width, height, NearPlane, FarPlane).value
  {
    if CreatePerspectiveMatrix(fm, DefaultFieldOfView, width, height, NearPlane, FarPlane).None? {
      return Failure(DivisionByZero);
    }
    var renderer := new Renderer(fm, width, height);
    return Success(renderer);
  }
}
