/** Vectors and the row-major 4x4 matrix over the 16.16 fixed-point scalar,
    with the transform constructors used by the renderer. */
module MathTypes {
  import opened FixedPoint
  import opened Wrappers

  datatype Vector2 = Vector2(x: Fixed, y: Fixed) {
    /** The 2D cross product (signed parallelogram area). */
    function Cross(rhs: Vector2): Fixed
    {
      Mul(x, rhs.y) - Mul(y, rhs.x)
    }

    function Plus(rhs: Vector2): Vector2
    {
      Vector2(x + rhs.x, y + rhs.y)
    }

    function Minus(rhs: Vector2): Vector2
    {
      Vector2(x - rhs.x, y - rhs.y)
    }
  }

  datatype Vector3 = Vector3(x: Fixed, y: Fixed, z: Fixed) {
    /** `sqrt(pow(x, 2) + pow(y, 2) + pow(z, 2))` with the library's functions. */
    function Length(fm: FixedMath): Fixed
    {
      fm.sqrt(fm.square(x) + fm.square(y) + fm.square(z))
    }

    /** Each component divided by the length; `None` where the length is zero
        (a division the source leaves undefined). */
    function Normalize(fm: FixedMath): (r: Option<Vector3>)
      ensures r.Some? <==> Length(fm) != 0
    {
      var length := Length(fm);
      if length == 0 then None
      else Some(Vector3(Div(x, length), Div(y, length), Div(z, length)))
    }

    function Cross(rhs: Vector3): Vector3
    {
      Vector3(Mul(y, rhs.z) - Mul(z, rhs.y),
              Mul(z, rhs.x) - Mul(x, rhs.z),
              Mul(x, rhs.y) - Mul(y, rhs.x))
    }

    function Dot(rhs: Vector3): Fixed
    {
      Mul(x, rhs.x) + Mul(y, rhs.y) + Mul(z, rhs.z)
    }

    function Plus(rhs: Vector3): Vector3
    {
      Vector3(x + rhs.x, y + rhs.y, z + rhs.z)
    }

    function Minus(rhs: Vector3): Vector3
    {
      Vector3(x - rhs.x, y - rhs.y, z - rhs.z)
    }
  }

  datatype Vector4 = Vector4(x: Fixed, y: Fixed, z: Fixed, w: Fixed) {
    /** `explicit operator Vector2`: drops z and w. */
    function ToVector2(): Vector2
    {
      Vector2(x, y)
    }

    /** `explicit operator Vector3`: drops w. */
    function ToVector3(): Vector3
    {
      Vector3(x, y, z)
    }

    /** Component `i` in the order x, y, z, w. */
    function Component(i: nat): Fixed
      requires i < 4
    {
      if i == 0 then x else if i == 1 then y else if i == 2 then z else w
    }
  }

  /** A point with homogeneous coordinate one. */
  function Point(v: Vector3): Vector4
  {
    Vector4(v.x, v.y, v.z, One)
  }

  /** The four-component dot product, summed left to right. */
  function Dot4(a: Vector4, b: Vector4): Fixed
  {
    Mul(a.x, b.x) + Mul(a.y, b.y) + Mul(a.z, b.z) + Mul(a.w, b.w)
  }

  /** `Matrix4x4::Contents`, one `Vector4` per row. */
  datatype Matrix4x4 = Matrix4x4(r0: Vector4, r1: Vector4, r2: Vector4, r3: Vector4) {
    function Row(y: nat): Vector4
      requires y < 4
    {
      if y == 0 then r0 else if y == 1 then r1 else if y == 2 then r2 else r3
    }

    /** `At(x, y)` reads column `x` of row `y`. */
    function At(x: nat, y: nat): Fixed
      requires x < 4 && y < 4
    {
      Row(y).Component(x)
    }

    function Column(x: nat): Vector4
      requires x < 4
    {
      Vector4(r0.Component(x), r1.Component(x), r2.Component(x), r3.Component(x))
    }
  }

  /** The default constructor. */
  const Identity: Matrix4x4 := Matrix4x4(
    Vector4(One, 0, 0, 0), Vector4(0, One, 0, 0), Vector4(0, 0, One, 0), Vector4(0, 0, 0, One))

  /** One row of a product: the row against each column of `rhs`. */
  function RowTimes(row: Vector4, rhs: Matrix4x4): Vector4
  {
    Vector4(Dot4(row, rhs.Column(0)), Dot4(row, rhs.Column(1)),
            Dot4(row, rhs.Column(2)), Dot4(row, rhs.Column(3)))
  }

  /** `Matrix4x4::operator*(Matrix4x4 const&)`: entry (r, c) is
      `At(0, r) * rhs.At(c, 0) + ... + At(3, r) * rhs.At(c, 3)`. */
  function Product(a: Matrix4x4, b: Matrix4x4): (p: Matrix4x4)
    ensures forall r, c | 0 <= r < 4 && 0 <= c < 4 ::
      p.At(c, r) == Dot4(a.Row(r), b.Column(c))
  {
    Matrix4x4(RowTimes(a.r0, b), RowTimes(a.r1, b), RowTimes(a.r2, b), RowTimes(a.r3, b))
  }

  /** `Matrix4x4::operator*(Vector4 const&)`: each row against the vector. */
  function Transform(m: Matrix4x4, v: Vector4): Vector4
  {
    Vector4(Dot4(m.r0, v), Dot4(m.r1, v), Dot4(m.r2, v), Dot4(m.r3, v))
  }

  /** `fpm` division of a fixed value by an integer divides the raw value. */
  function DivByInt(x: Fixed, n: int): Fixed
    requires n != 0
  {
    TDiv(x, n)
  }

  /** `PerspectiveProjection(fov, aspect, near, far)`; `None` where one of its
      divisions (by `tan(fov / 2)` or by `far - near`) has a zero divisor. */
  function PerspectiveProjection(fm: FixedMath, fieldOfView: Fixed, aspectRatio: Fixed,
                                 zNear: Fixed, zFar: Fixed): (r: Option<Matrix4x4>)
    ensures r.Some? <==> fm.tan(DivByInt(fieldOfView, 2)) != 0 && zFar != zNear
  {
    var t := fm.tan(DivByInt(fieldOfView, 2));
    if t == 0 || zFar - zNear == 0 then None
    else
      var focal := Div(One, t);
      Some(Matrix4x4(
        Vector4(Mul(aspectRatio, focal), 0, 0, 0),
        Vector4(0, focal, 0, 0),
        Vector4(0, 0, Div(zFar, zFar - zNear), Div(Mul(-zFar, zNear), zFar - zNear)),
        Vector4(0, 0, One, 0)))
  }

  /** `LookAt(eye, target, up)`; `None` where a normalisation divides by a zero length. */
  function LookAt(fm: FixedMath, eye: Vector3, target: Vector3, up: Vector3): Option<Matrix4x4>
  {
    var z :- target.Minus(eye).Normalize(fm);
    var x :- up.Cross(z).Normalize(fm);
    var y := z.Cross(x);
    Some(Matrix4x4(
      Vector4(x.x, x.y, x.z, -x.Dot(eye)),
      Vector4(y.x, y.y, y.z, -y.Dot(eye)),
      Vector4(z.x, z.y, z.z, -z.Dot(eye)),
      Vector4(0, 0, 0, One)))
  }

  function Translation(t: Vector3): Matrix4x4
  {
    Matrix4x4(Vector4(One, 0, 0, t.x), Vector4(0, One, 0, t.y),
              Vector4(0, 0, One, t.z), Vector4(0, 0, 0, One))
  }

  function EulerRotationX(fm: FixedMath, angle: Fixed): Matrix4x4
  {
    var c, s := fm.cos(angle), fm.sin(angle);
    Matrix4x4(Vector4(One, 0, 0, 0), Vector4(0, c, s, 0),
              Vector4(0, -s, c, 0), Vector4(0, 0, 0, One))
  }

  function EulerRotationY(fm: FixedMath, angle: Fixed): Matrix4x4
  {
    var c, s := fm.cos(angle), fm.sin(angle);
    Matrix4x4(Vector4(c, 0, -s, 0), Vector4(0, One, 0, 0),
              Vector4(s, 0, c, 0), Vector4(0, 0, 0, One))
  }

  function EulerRotationZ(fm: FixedMath, angle: Fixed): Matrix4x4
  {
    var c, s := fm.cos(angle), fm.sin(angle);
    Matrix4x4(Vector4(c, s, 0, 0), Vector4(-s, c, 0, 0),
              Vector4(0, 0, One, 0), Vector4(0, 0, 0, One))
  }

  /** The combined rotation, composed as `Rx * Ry * Rz` (left to right). */
  function EulerRotation(fm: FixedMath, angles: Vector3): Matrix4x4
  {
    Product(Product(EulerRotationX(fm, angles.x), EulerRotationY(fm, angles.y)),
            EulerRotationZ(fm, angles.z))
  }

  /** `a + t * (b - a)`. */
  function Lerp(a: Fixed, b: Fixed, t: Fixed): Fixed
  {
    a + Mul(t, b - a)
  }

  /** `MyPolygon`, `Plane` and `Triangle`: plain records; a triangle's
      `std::array`s hold exactly three entries. */
  datatype Polygon = Polygon(vertices: seq<Vector3>, textureCoordinates: seq<Vector2>)
  datatype Plane = Plane(point: Vector3, normal: Vector3)

  type Vertices3 = s: seq<Vector3> | |s| == 3
    witness [Vector3(0, 0, 0), Vector3(0, 0, 0), Vector3(0, 0, 0)]

  type TextureCoordinates3 = s: seq<Vector2> | |s| == 3
    witness [Vector2(0, 0), Vector2(0, 0), Vector2(0, 0)]

  datatype Triangle = Triangle(vertices: Vertices3, textureCoordinates: TextureCoordinates3)

  // ---------------------------------------------------------------------
  // Laws

  lemma CrossAntisymmetric(a: Vector2, b: Vector2)
    ensures a.Cross(b) == -b.Cross(a)
    ensures a.Cross(a) == 0
  {
    MulCommutes(a.x, b.y);
    MulCommutes(a.y, b.x);
    MulCommutes(a.x, a.y);
  }

  lemma DotCommutes(a: Vector3, b: Vector3)
    ensures a.Dot(b) == b.Dot(a)
  {
    MulCommutes(a.x, b.x);
    MulCommutes(a.y, b.y);
    MulCommutes(a.z, b.z);
  }

  /** Against a unit vector the dot product picks one component, exactly. */
  lemma Dot4Unit(v: Vector4)
    ensures Dot4(Vector4(One, 0, 0, 0), v) == v.x && Dot4(v, Vector4(One, 0, 0, 0)) == v.x
    ensures Dot4(Vector4(0, One, 0, 0), v) == v.y && Dot4(v, Vector4(0, One, 0, 0)) == v.y
    ensures Dot4(Vector4(0, 0, One, 0), v) == v.z && Dot4(v, Vector4(0, 0, One, 0)) == v.z
    ensures Dot4(Vector4(0, 0, 0, One), v) == v.w && Dot4(v, Vector4(0, 0, 0, One)) == v.w
  {
    MulOne(v.x); MulOne(v.y); MulOne(v.z); MulOne(v.w);
    MulZero(v.x); MulZero(v.y); MulZero(v.z); MulZero(v.w);
  }

  /** The identity is neutral on both sides, exactly, even with rounding arithmetic. */
  lemma IdentityIsLeftNeutral(m: Matrix4x4)
    ensures Product(Identity, m) == m
  {
    Dot4Unit(m.Column(0)); Dot4Unit(m.Column(1)); Dot4Unit(m.Column(2)); Dot4Unit(m.Column(3));
  }

  lemma IdentityIsRightNeutral(m: Matrix4x4)
    ensures Product(m, Identity) == m
  {
    assert Identity.Column(0) == Vector4(One, 0, 0, 0);
    assert Identity.Column(1) == Vector4(0, One, 0, 0);
    assert Identity.Column(2) == Vector4(0, 0, One, 0);
    assert Identity.Column(3) == Vector4(0, 0, 0, One);
    Dot4Unit(m.r0); Dot4Unit(m.r1); Dot4Unit(m.r2); Dot4Unit(m.r3);
  }

  lemma IdentityTransform(v: Vector4)
    ensures Transform(Identity, v) == v
  {
    Dot4Unit(v);
  }

  /** A translation moves a point by the translation vector and keeps `w == 1`. */
  lemma TranslationMovesPoint(t: Vector3, p: Vector3)
    ensures Transform(Translation(t), Point(p)) == Point(p.Plus(t))
  {
    MulOne(p.x); MulOne(p.y); MulOne(p.z);
    MulOne(t.x); MulOne(t.y); MulOne(t.z);
    MulZero(p.x); MulZero(p.y); MulZero(p.z);
    Dot4Unit(Point(p));
  }

  /** A matrix whose last row is `(0, 0, 0, 1)` keeps the homogeneous coordinate. */
  predicate IsAffine(m: Matrix4x4)
  {
    m.r3 == Vector4(0, 0, 0, One)
  }

  lemma AffineKeepsW(m: Matrix4x4, v: Vector4)
    requires IsAffine(m)
    ensures Transform(m, v).w == v.w
  {
    Dot4Unit(v);
  }

  lemma TransformsAreAffine(fm: FixedMath, t: Vector3, angle: Fixed)
    ensures IsAffine(Translation(t))
    ensures IsAffine(EulerRotationX(fm, angle))
    ensures IsAffine(EulerRotationY(fm, angle))
    ensures IsAffine(EulerRotationZ(fm, angle))
  {
  }

  /** The product of two affine matrices is affine. */
  lemma ProductOfAffine(a: Matrix4x4, b: Matrix4x4)
    requires IsAffine(a) && IsAffine(b)
    ensures IsAffine(Product(a, b))
  {
    forall c | 0 <= c < 4 {
      Dot4Unit(b.Column(c));
    }
  }

  /** The combined Euler rotation keeps `w`, since each factor does. */
  lemma EulerRotationIsAffine(fm: FixedMath, angles: Vector3)
    ensures IsAffine(EulerRotation(fm, angles))
  {
    ProductOfAffine(EulerRotationX(fm, angles.x), EulerRotationY(fm, angles.y));
    ProductOfAffine(Product(EulerRotationX(fm, angles.x), EulerRotationY(fm, angles.y)),
                    EulerRotationZ(fm, angles.z));
  }

  /** Each per-axis rotation leaves its own axis component alone. */
  lemma RotationKeepsAxis(fm: FixedMath, angle: Fixed, v: Vector4)
    ensures Transform(EulerRotationX(fm, angle), v).x == v.x
    ensures Transform(EulerRotationY(fm, angle), v).y == v.y
    ensures Transform(EulerRotationZ(fm, angle), v).z == v.z
  {
    Dot4Unit(v);
  }

  /** The projection's last row copies view-space z into clip-space w. */
  lemma ProjectionWIsViewZ(fm: FixedMath, fov: Fixed, aspect: Fixed, zNear: Fixed, zFar: Fixed,
                           v: Vector4)
    requires PerspectiveProjection(fm, fov, aspect, zNear, zFar).Some?
    ensures Transform(PerspectiveProjection(fm, fov, aspect, zNear, zFar).value, v).w == v.z
  {
    Dot4Unit(v);
  }

  /** The view matrix takes the eye to the origin, exactly: each row's dot
      product with the eye cancels against the stored negated dot product. */
  lemma LookAtTakesEyeToOrigin(fm: FixedMath, eye: Vector3, target: Vector3, up: Vector3)
    requires LookAt(fm, eye, target, up).Some?
    ensures Transform(LookAt(fm, eye, target, up).value, Point(eye)) == Vector4(0, 0, 0, One)
  {
    var z := target.Minus(eye).Normalize(fm).value;
    var x := up.Cross(z).Normalize(fm).value;
    var y := z.Cross(x);
    assert LookAt(fm, eye, target, up).value
      == Matrix4x4(Vector4(x.x, x.y, x.z, -x.Dot(eye)), Vector4(y.x, y.y, y.z, -y.Dot(eye)),
                   Vector4(z.x, z.y, z.z, -z.Dot(eye)), Vector4(0, 0, 0, One));
    ViewMatrixTakesEyeToOrigin(x, y, z, eye);
  }

  /** Any matrix with rows `(r, -r . eye)` over a last row `(0, 0, 0, 1)` takes the eye to the origin. */
  lemma ViewMatrixTakesEyeToOrigin(x: Vector3, y: Vector3, z: Vector3, eye: Vector3)
    ensures Transform(Matrix4x4(Vector4(x.x, x.y, x.z, -x.Dot(eye)), Vector4(y.x, y.y, y.z, -y.Dot(eye)),
                                Vector4(z.x, z.y, z.z, -z.Dot(eye)), Vector4(0, 0, 0, One)),
                      Point(eye))
      == Vector4(0, 0, 0, One)
  {
    RowCancelsEye(x, eye);
    RowCancelsEye(y, eye);
    RowCancelsEye(z, eye);
    Dot4Unit(Point(eye));
  }

  /** A view-matrix row `(r, -r . eye)` sends the eye to zero. */
  lemma RowCancelsEye(r: Vector3, eye: Vector3)
    ensures Dot4(Vector4(r.x, r.y, r.z, -r.Dot(eye)), Point(eye)) == 0
  {
    MulOne(-r.Dot(eye));
  }

  lemma LookAtIsAffine(fm: FixedMath, eye: Vector3, target: Vector3, up: Vector3)
    requires LookAt(fm, eye, target, up).Some?
    ensures IsAffine(LookAt(fm, eye, target, up).value)
  {
  }

  lemma LerpEnds(a: Fixed, b: Fixed, t: Fixed)
    ensures Lerp(a, b, 0) == a
    ensures Lerp(a, b, One) == b
    ensures Lerp(a, a, t) == a
  {
    MulOne(b - a);
    MulZero(b - a);
    MulZero(t);
  }
}
