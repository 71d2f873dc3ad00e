/** The floating-point (Eigen) twin of the algebra layer, modelled over the
    reals: the projection, look-at, translation and rotation matrices, the 2D
    cross product, line/plane intersection and `Lerp`. */
module MathHelpers {
  import opened Wrappers

  datatype RVec2 = RVec2(x: real, y: real)

  datatype RVec3 = RVec3(x: real, y: real, z: real) {
    function Plus(rhs: RVec3): RVec3
    {
      RVec3(x + rhs.x, y + rhs.y, z + rhs.z)
    }

    function Minus(rhs: RVec3): RVec3
    {
      RVec3(x - rhs.x, y - rhs.y, z - rhs.z)
    }

    function Scale(k: real): RVec3
    {
      RVec3(k * x, k * y, k * z)
    }

    function Dot(rhs: RVec3): real
    {
      x * rhs.x + y * rhs.y + z * rhs.z
    }

    function Cross(rhs: RVec3): RVec3
    {
      RVec3(y * rhs.z - z * rhs.y, z * rhs.x - x * rhs.z, x * rhs.y - y * rhs.x)
    }
  }

  datatype RVec4 = RVec4(x: real, y: real, z: real, w: real) {
    function Dot(rhs: RVec4): real
    {
      x * rhs.x + y * rhs.y + z * rhs.z + w * rhs.w
    }
  }

  function RPoint(v: RVec3): RVec4
  {
    RVec4(v.x, v.y, v.z, 1.0)
  }

  /** `Eigen::Matrix4f`, row by row. */
  datatype RMatrix4 = RMatrix4(r0: RVec4, r1: RVec4, r2: RVec4, r3: RVec4)

  function RTransform(m: RMatrix4, v: RVec4): RVec4
  {
    RVec4(m.r0.Dot(v), m.r1.Dot(v), m.r2.Dot(v), m.r3.Dot(v))
  }

  const RIdentity: RMatrix4 := RMatrix4(
    RVec4(1.0, 0.0, 0.0, 0.0), RVec4(0.0, 1.0, 0.0, 0.0),
    RVec4(0.0, 0.0, 1.0, 0.0), RVec4(0.0, 0.0, 0.0, 1.0))

  /** `Eigen::Matrix3f`, row by row. */
  datatype RMatrix3 = RMatrix3(r0: RVec3, r1: RVec3, r2: RVec3) {
    function Column(i: nat): RVec3
      requires i < 3
    {
      if i == 0 then RVec3(r0.x, r1.x, r2.x)
      else if i == 1 then RVec3(r0.y, r1.y, r2.y)
      else RVec3(r0.z, r1.z, r2.z)
    }
  }

  function Product3(a: RMatrix3, b: RMatrix3): RMatrix3
  {
    RMatrix3(
      RVec3(a.r0.Dot(b.Column(0)), a.r0.Dot(b.Column(1)), a.r0.Dot(b.Column(2))),
      RVec3(a.r1.Dot(b.Column(0)), a.r1.Dot(b.Column(1)), a.r1.Dot(b.Column(2))),
      RVec3(a.r2.Dot(b.Column(0)), a.r2.Dot(b.Column(1)), a.r2.Dot(b.Column(2))))
  }

  datatype Axis = UnitX | UnitY | UnitZ

  /** The floating-point trigonometry and vector normalisation of the
      libraries underneath, left uninterpreted. */
  datatype FloatMath = FloatMath(
    tan: real -> real,
    normalize: RVec3 -> RVec3,
    angleAxis: (real, Axis) -> RMatrix3)

  /** `PerspectiveProjectionTransformMatrix`: `None` where a divisor
      (`tan(fov / 2)` or `far - near`) is zero, for which the float code
      produces infinities this model does not represent. */
  function PerspectiveProjectionTransformMatrix(fm: FloatMath, fieldOfViewRadians: real,
                                                aspectRatio: real, zNear: real, zFar: real)
    : (r: Option<RMatrix4>)
    ensures r.Some? <==> fm.tan(fieldOfViewRadians / 2.0) != 0.0 && zFar != zNear
  {
    var t := fm.tan(fieldOfViewRadians / 2.0);
    if t == 0.0 || zFar == zNear then None
    else
      Some(RMatrix4(
        RVec4(aspectRatio * (1.0 / t), 0.0, 0.0, 0.0),
        RVec4(0.0, 1.0 / t, 0.0, 0.0),
        RVec4(0.0, 0.0, zFar / (zFar - zNear), -(zFar / (zFar - zNear)) * zNear),
        RVec4(0.0, 0.0, 1.0, 0.0)))
  }

  function LookAt(fm: FloatMath, eye: RVec3, target: RVec3, up: RVec3): RMatrix4
  {
    var z := fm.normalize(target.Minus(eye));
    var x := fm.normalize(up.Cross(z));
    var y := z.Cross(x);
    RMatrix4(
      RVec4(x.x, x.y, x.z, -x.Dot(eye)),
      RVec4(y.x, y.y, y.z, -y.Dot(eye)),
      RVec4(z.x, z.y, z.z, -z.Dot(eye)),
      RVec4(0.0, 0.0, 0.0, 1.0))
  }

  /** `Translation(position)`: the identity with column 3 set to the position. */
  function Translation(position: RVec3): (m: RMatrix4)
    ensures m.r3 == RIdentity.r3
  {
    RMatrix4(
      RVec4(1.0, 0.0, 0.0, position.x), RVec4(0.0, 1.0, 0.0, position.y),
      RVec4(0.0, 0.0, 1.0, position.z), RVec4(0.0, 0.0, 0.0, 1.0))
  }

  /** The angle-axis rotations composed as `Z * Y * X`. */
  function RotationBlock(fm: FloatMath, rotation: RVec3): RMatrix3
  {
    Product3(Product3(fm.angleAxis(rotation.z, UnitZ), fm.angleAxis(rotation.y, UnitY)),
             fm.angleAxis(rotation.x, UnitX))
  }

  /** `Rotation(rotation)`: the rotation block in the top-left corner of the identity. */
  function Rotation(fm: FloatMath, rotation: RVec3): RMatrix4
  {
    var m := RotationBlock(fm, rotation);
    RMatrix4(
      RVec4(m.r0.x, m.r0.y, m.r0.z, 0.0), RVec4(m.r1.x, m.r1.y, m.r1.z, 0.0),
      RVec4(m.r2.x, m.r2.y, m.r2.z, 0.0), RVec4(0.0, 0.0, 0.0, 1.0))
  }

  function CrossProduct2D(a: RVec2, b: RVec2): real
  {
    a.x * b.y - a.y * b.x
  }

  datatype Plane = Plane(point: RVec3, normal: RVec3)

  /** The outcome of `LinePlaneIntersect`. `Undefined` is the case the
      float code computes as NaN: a segment lying in the plane, where the
      ratio is `0 / 0` and both range tests fail. */
  datatype Crossing = Missed | Hit(point: RVec3) | Undefined

  /** The ratio `k` along the segment at which it meets the plane. */
  function CrossingRatio(plane: Plane, lineStart: RVec3, lineEnd: RVec3): real
    requires lineEnd.Minus(lineStart).Dot(plane.normal) != 0.0
  {
    plane.point.Minus(lineStart).Dot(plane.normal) / lineEnd.Minus(lineStart).Dot(plane.normal)
  }

  /** `LinePlaneIntersect`. A zero denominator with a non-zero numerator is an
      infinite ratio in floats, which fails the range test. */
  function LinePlaneIntersect(plane: Plane, lineStart: RVec3, lineEnd: RVec3): (r: Crossing)
    ensures r.Hit? <==> lineEnd.Minus(lineStart).Dot(plane.normal) != 0.0
                        && 0.0 <= CrossingRatio(plane, lineStart, lineEnd) <= 1.0
    ensures r.Undefined? <==> lineEnd.Minus(lineStart).Dot(plane.normal) == 0.0
                              && plane.point.Minus(lineStart).Dot(plane.normal) == 0.0
    ensures r.Hit? ==>
      r.point == lineStart.Plus(lineEnd.Minus(lineStart).Scale(CrossingRatio(plane, lineStart, lineEnd)))
  {
    var v := lineEnd.Minus(lineStart);
    var w := plane.point.Minus(lineStart);
    var denominator := v.Dot(plane.normal);
    if denominator == 0.0 then
      if w.Dot(plane.normal) == 0.0 then Undefined else Missed
    else
      var k := w.Dot(plane.normal) / denominator;
      if k < 0.0 || k > 1.0 then Missed else Hit(lineStart.Plus(v.Scale(k)))
  }

  function Lerp(a: real, b: real, t: real): real
  {
    a + t * (b - a)
  }

  /** The record shapes used by clipping: a polygon with any number of
      corners, and a triangle with exactly three of each. */
  datatype Polygon = Polygon(vertices: seq<RVec3>, textureCoordinates: seq<RVec2>)

  type Vertices3 = s: seq<RVec3> | |s| == 3
    witness [RVec3(0.0, 0.0, 0.0), RVec3(0.0, 0.0, 0.0), RVec3(0.0, 0.0, 0.0)]

  type TextureCoordinates3 = s: seq<RVec2> | |s| == 3
    witness [RVec2(0.0, 0.0), RVec2(0.0, 0.0), RVec2(0.0, 0.0)]

  datatype Triangle = Triangle(vertices: Vertices3, textureCoordinates: TextureCoordinates3)

  // ---------------------------------------------------------------------
  // Laws

  /** The cross product is orthogonal to both of its factors. */
  lemma CrossIsOrthogonal(a: RVec3, b: RVec3)
    ensures a.Dot(a.Cross(b)) == 0.0
    ensures b.Dot(a.Cross(b)) == 0.0
  {
  }

  lemma CrossProduct2DAntisymmetric(a: RVec2, b: RVec2)
    ensures CrossProduct2D(a, b) == -CrossProduct2D(b, a)
    ensures CrossProduct2D(a, a) == 0.0
  {
  }

  lemma TranslationMovesPoint(position: RVec3, p: RVec3)
    ensures RTransform(Translation(position), RPoint(p)) == RPoint(p.Plus(position))
  {
  }

  /** The translation fixture: (1, 1, 1, 1) moved by (1, 2, 3) is (2, 3, 4, 1). */
  lemma TranslationFixture()
    ensures RTransform(Translation(RVec3(1.0, 2.0, 3.0)), RVec4(1.0, 1.0, 1.0, 1.0))
            == RVec4(2.0, 3.0, 4.0, 1.0)
  {
    TranslationMovesPoint(RVec3(1.0, 2.0, 3.0), RVec3(1.0, 1.0, 1.0));
  }

  /** Only the entries (0,0), (1,1), (2,2), (2,3) and (3,2) are non-zero,
      so the output w is the input z. */
  lemma PerspectiveShape(fm: FloatMath, fov: real, aspect: real, zNear: real, zFar: real, v: RVec4)
    requires PerspectiveProjectionTransformMatrix(fm, fov, aspect, zNear, zFar).Some?
    ensures var m := PerspectiveProjectionTransformMatrix(fm, fov, aspect, zNear, zFar).value;
      m.r0.y == m.r0.z == m.r0.w == 0.0 && m.r1.x == m.r1.z == m.r1.w == 0.0
      && m.r2.x == m.r2.y == 0.0 && m.r3 == RVec4(0.0, 0.0, 1.0, 0.0)
      && RTransform(m, v).w == v.z
  {
  }

  /** Depth maps the near plane to clip depth 0 and the far plane to clip
      depth `far`, which is `w` there, so its depth after division is 1. */
  lemma PerspectiveDepthRange(fm: FloatMath, fov: real, aspect: real, zNear: real, zFar: real,
                              x: real, y: real)
    requires PerspectiveProjectionTransformMatrix(fm, fov, aspect, zNear, zFar).Some?
    ensures var m := PerspectiveProjectionTransformMatrix(fm, fov, aspect, zNear, zFar).value;
      RTransform(m, RVec4(x, y, zNear, 1.0)).z == 0.0
      && RTransform(m, RVec4(x, y, zFar, 1.0)).z == zFar
      && RTransform(m, RVec4(x, y, zFar, 1.0)).w == zFar
  {
    var s := zFar / (zFar - zNear);
    assert s * (zFar - zNear) == zFar;
    assert s * zFar + -s * zNear == s * (zFar - zNear);
  }

  /** A row `(r, -r·eye)` sends the eye to zero. */
  lemma ViewRowCancels(r: RVec3, eye: RVec3)
    ensures RVec4(r.x, r.y, r.z, -r.Dot(eye)).Dot(RPoint(eye)) == 0.0
  {
  }

  /** The view matrix keeps `w` and takes the eye to the origin. */
  lemma LookAtTakesEyeToOrigin(fm: FloatMath, eye: RVec3, target: RVec3, up: RVec3)
    ensures LookAt(fm, eye, target, up).r3 == RIdentity.r3
    ensures RTransform(LookAt(fm, eye, target, up), RPoint(eye)) == RVec4(0.0, 0.0, 0.0, 1.0)
  {
    var z := fm.normalize(target.Minus(eye));
    var x := fm.normalize(up.Cross(z));
    var y := z.Cross(x);
    ViewRowCancels(x, eye);
    ViewRowCancels(y, eye);
    ViewRowCancels(z, eye);
  }

  /** However the three rotations turn out, the fourth row and column remain
      those of the identity: no translation, and `w` is kept. */
  lemma RotationIsLinear(fm: FloatMath, rotation: RVec3, v: RVec4)
    ensures Rotation(fm, rotation).r3 == RIdentity.r3
    ensures Rotation(fm, rotation).r0.w == Rotation(fm, rotation).r1.w
            == Rotation(fm, rotation).r2.w == 0.0
    ensures RTransform(Rotation(fm, rotation), v).w == v.w
    ensures RTransform(Rotation(fm, rotation), RPoint(RVec3(0.0, 0.0, 0.0))) == RPoint(RVec3(0.0, 0.0, 0.0))
  {
  }

  /** A returned point lies on the plane. */
  lemma IntersectionIsOnPlane(plane: Plane, lineStart: RVec3, lineEnd: RVec3)
    requires LinePlaneIntersect(plane, lineStart, lineEnd).Hit?
    ensures LinePlaneIntersect(plane, lineStart, lineEnd).point.Minus(plane.point).Dot(plane.normal) == 0.0
  {
    var v := lineEnd.Minus(lineStart);
    var w := plane.point.Minus(lineStart);
    var n := plane.normal;
    var k := CrossingRatio(plane, lineStart, lineEnd);
    var p := lineStart.Plus(v.Scale(k));
    assert k * v.Dot(n) == w.Dot(n);
    assert p.Minus(plane.point) == v.Scale(k).Minus(w);
    assert v.Scale(k).Minus(w).Dot(n) == k * v.Dot(n) - w.Dot(n);
  }

  /** A segment that ends on the plane meets it at its end point. */
  lemma SegmentEndingOnPlane(plane: Plane, lineStart: RVec3, lineEnd: RVec3)
    requires lineEnd.Minus(lineStart).Dot(plane.normal) != 0.0
    requires lineEnd.Minus(plane.point).Dot(plane.normal) == 0.0
    ensures LinePlaneIntersect(plane, lineStart, lineEnd) == Hit(lineEnd)
  {
    var v := lineEnd.Minus(lineStart);
    var w := plane.point.Minus(lineStart);
    var n := plane.normal;
    assert w.Dot(n) == v.Dot(n) - lineEnd.Minus(plane.point).Dot(n);
    assert w.Dot(n) == v.Dot(n);
  }

  lemma LerpEnds(a: real, b: real, t: real)
    ensures Lerp(a, b, 0.0) == a
    ensures Lerp(a, b, 1.0) == b
    ensures Lerp(a, a, t) == a
  {
  }

  lemma ProductNonNegative(x: real, y: real)
    requires x >= 0.0 && y >= 0.0
    ensures x * y >= 0.0
  {
  }

  /** Between its ends, `Lerp` stays between `a` and `b`. */
  lemma LerpBounded(a: real, b: real, t: real)
    requires a <= b && 0.0 <= t <= 1.0
    ensures a <= Lerp(a, b, t) <= b
  {
    ProductNonNegative(t, b - a);
    ProductNonNegative(1.0 - t, b - a);
  }
}
