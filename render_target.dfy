/** The fixed-point render target: a `Width * Height` colour buffer and a
    depth buffer, the pixel, rectangle and line writers, and the textured
    triangle rasteriser with its edge functions and texel lookup. */
module RenderTargets {
  import opened Wrappers
  import opened FixedPoint
  import opened MathTypes
  import opened Raster
  import opened Texture

  /** `c_defaultBackgroundColor`: opaque black. */
  const DefaultBackground: Colour := 0xFF00_0000

  // ---------------------------------------------------------------------
  // Edge functions

  /** Twice the signed area of `a, b, c`, positive for the winding the
      rasteriser accepts. */
  function TriangleDeterminant(a: Vector2, b: Vector2, c: Vector2): Fixed
  {
    var ab, ac := b.Minus(a), c.Minus(a);
    Mul(ab.y, ac.x) - Mul(ab.x, ac.y)
  }

  /** A triangle with a repeated vertex has no area. */
  lemma DegenerateTriangleHasNoArea(a: Vector2, b: Vector2, c: Vector2)
    requires a == b || a == c || b == c
    ensures TriangleDeterminant(a, b, c) == 0
  {
    var ab := b.Minus(a);
    MulZero(ab.x);
    MulZero(ab.y);
    MulCommutes(ab.y, ab.x);
  }

  /** Swapping two vertices reverses the winding: the determinant changes sign
      exactly, so at most one of the two orders passes the winding test. */
  lemma SwappedWindingNegates(a: Vector2, b: Vector2, c: Vector2)
    ensures TriangleDeterminant(a, c, b) == -TriangleDeterminant(a, b, c)
  {
    var ab, ac := b.Minus(a), c.Minus(a);
    MulCommutes(ab.y, ac.x);
    MulCommutes(ab.x, ac.y);
  }

  /** The determinant is the parallelogram area `ac.Cross(ab)` that the
      barycentric weights divide by. */
  lemma DeterminantIsCross(a: Vector2, b: Vector2, c: Vector2)
    ensures TriangleDeterminant(a, b, c) == c.Minus(a).Cross(b.Minus(a))
  {
    var ab, ac := b.Minus(a), c.Minus(a);
    MulCommutes(ab.y, ac.x);
    MulCommutes(ab.x, ac.y);
  }

  /** A left edge goes down the screen; a top edge is horizontal and goes left. */
  function IsTriangleEdgeLeftOrTop(a: Vector2, b: Vector2): bool
  {
    var edge := b.Minus(a);
    edge.y > 0 || (edge.y == 0 && edge.x < 0)
  }

  /** Of an edge and its reverse, exactly one is left-or-top, so a pixel on an
      edge two triangles share is drawn by exactly one of them. */
  lemma LeftOrTopIsOneSided(a: Vector2, b: Vector2)
    requires a != b
    ensures IsTriangleEdgeLeftOrTop(a, b) != IsTriangleEdgeLeftOrTop(b, a)
  {
  }

  /** The weights of `point` relative to the triangle: `None` where the
      triangle has no area (the source then divides by zero). The weight of
      `a` and of `b` is the area of the triangle with that vertex moved to
      `point`, over the whole area; the weight of `c` makes up one. */
  function BarycentricWeights(a: Vector2, b: Vector2, c: Vector2, point: Vector2): (r: Option<Vector3>)
    ensures r.Some? <==> TriangleDeterminant(a, b, c) != 0
    ensures r.Some? ==>
      && r.value.x == Div(TriangleDeterminant(point, b, c), TriangleDeterminant(a, b, c))
      && r.value.y == Div(TriangleDeterminant(a, point, c), TriangleDeterminant(a, b, c))
      && r.value.x + r.value.y + r.value.z == One
  {
    var ac, ab, ap, pc, pb := c.Minus(a), b.Minus(a), point.Minus(a), c.Minus(point), b.Minus(point);
    var area := ac.Cross(ab);
    DeterminantIsCross(a, b, c);
    DeterminantIsCross(point, b, c);
    DeterminantIsCross(a, point, c);
    if area == 0 then None
    else
      var alpha := Div(pc.Cross(pb), area);
      var beta := Div(ac.Cross(ap), area);
      Some(Vector3(alpha, beta, One - alpha - beta))
  }

  /** At each vertex the weights select that vertex exactly. */
  lemma WeightsAtVertices(a: Vector2, b: Vector2, c: Vector2)
    requires TriangleDeterminant(a, b, c) != 0
    ensures BarycentricWeights(a, b, c, a) == Some(Vector3(One, 0, 0))
    ensures BarycentricWeights(a, b, c, b) == Some(Vector3(0, One, 0))
    ensures BarycentricWeights(a, b, c, c) == Some(Vector3(0, 0, One))
  {
    var ac, ab := c.Minus(a), b.Minus(a);
    var area := ac.Cross(ab);
    DeterminantIsCross(a, b, c);
    DivSelf(area);
    MulZero(ac.x);
    MulZero(ac.y);
    var cb := b.Minus(c);
    MulZero(cb.x);
    MulZero(cb.y);
    MulCommutes(ac.x, ac.y);
    assert a.Minus(a) == Vector2(0, 0);
    assert b.Minus(b) == Vector2(0, 0);
    assert c.Minus(c) == Vector2(0, 0);
  }

  // ---------------------------------------------------------------------
  // Texel lookup

  /** `1 - v`: texture rows run bottom-up in the mesh, top-down in the image. */
  function FlipV(t: Vector2): Vector2
  {
    Vector2(t.x, One - t.y)
  }

  /** Negative coordinates clamp to zero; those above one keep only their fraction. */
  function Wrap(u: Fixed): (r: Fixed)
  {
    if u < 0 then 0 else if u > One then u - Floor(u) else u
  }

  lemma WrapIsInUnit(u: Fixed)
    ensures 0 <= Wrap(u) <= One
    ensures 0 <= u <= One ==> Wrap(u) == u
    ensures u < 0 ==> Wrap(u) == 0
    ensures u > One ==> Wrap(u) < One && (u - Wrap(u)) % One == 0
  {
  }

  /** `std::clamp`. */
  function Clamp(v: int, lo: int, hi: int): int
  {
    if v < lo then lo else if hi < v then hi else v
  }

  /** `clamp(uint16(u * size), 0, uint16(size - 1))`: the texel row or
      column for a wrapped coordinate. */
  function TexelIndex(u: Fixed, size: uint16): uint16
  {
    ToUint16(Clamp(ToUint16(ToInt(u * size)), 0, ToUint16(size - 1)))
  }

  /** For a non-empty texture the index names one of its texels. */
  lemma TexelIndexInRange(u: Fixed, size: uint16)
    requires size >= 1
    ensures TexelIndex(u, size) < size
  {
  }

  /** The interpolated value `(ta / wa) * alpha + (tb / wb) * beta + (tc / wc) * gamma`. */
  function Interpolate(ta: Fixed, tb: Fixed, tc: Fixed, a: Vector4, b: Vector4, c: Vector4,
                       weights: Vector3): Fixed
    requires a.w != 0 && b.w != 0 && c.w != 0
  {
    Mul(Div(ta, a.w), weights.x) + Mul(Div(tb, b.w), weights.y) + Mul(Div(tc, c.w), weights.z)
  }

  /** The colour `DrawTexel` writes at `(x, y)`, or why it cannot: a division
      by zero (no area, a zero `w`, or a zero interpolated `1 / w`), a null
      texture pointer, or a texel index past the texture's pixels. */
  function TexelColor(texture: Option<PngTexture>, x: uint16, y: uint16, a: Vector4, b: Vector4, c: Vector4,
                      ta: Vector2, tb: Vector2, tc: Vector2): (r: Result<Colour, Fault>)
    ensures r.Failure? && r.error == DivisionByZero ==>
      TriangleDeterminant(a.ToVector2(), b.ToVector2(), c.ToVector2()) == 0
      || a.w == 0 || b.w == 0 || c.w == 0
      || Interpolate(One, One, One, a, b, c,
                     BarycentricWeights(a.ToVector2(), b.ToVector2(), c.ToVector2(),
                                        Vector2(FromInt(x), FromInt(y))).value) == 0
  {
    var weights := BarycentricWeights(a.ToVector2(), b.ToVector2(), c.ToVector2(),
                                      Vector2(FromInt(x), FromInt(y)));
    if weights.None? || a.w == 0 || b.w == 0 || c.w == 0 then Failure(DivisionByZero)
    else
      var fa, fb, fc := FlipV(ta), FlipV(tb), FlipV(tc);
      var reciprocalW := Interpolate(One, One, One, a, b, c, weights.value);
      if reciprocalW == 0 then Failure(DivisionByZero)
      else
        var u := Div(Interpolate(fa.x, fb.x, fc.x, a, b, c, weights.value), reciprocalW);
        var v := Div(Interpolate(fa.y, fb.y, fc.y, a, b, c, weights.value), reciprocalW);
        match texture
        case None => Failure(NullPointer)
        case Some(image) =>
          var tx := TexelIndex(Wrap(u), image.Width());
          var ty := TexelIndex(Wrap(v), image.Height());
          match image.ColorAt(tx, ty)
          case None => Failure(OutOfRange)
          case Some(colour) => Success(colour)
  }

  /** A texture whose decoded sizes fit 16 bits and are not zero always has
      the texel the lookup asks for. */
  lemma TexelLookupHitsTexture(texture: PngTexture, x: uint16, y: uint16, a: Vector4, b: Vector4,
                               c: Vector4, ta: Vector2, tb: Vector2, tc: Vector2)
    requires texture.Valid()
    requires 1 <= texture.image.width < 0x1_0000 && 1 <= texture.image.height < 0x1_0000
    ensures TexelColor(Some(texture), x, y, a, b, c, ta, tb, tc).Failure? ==>
      TexelColor(Some(texture), x, y, a, b, c, ta, tb, tc).error == DivisionByZero
  {
    var weights := BarycentricWeights(a.ToVector2(), b.ToVector2(), c.ToVector2(),
                                      Vector2(FromInt(x), FromInt(y)));
    if weights.Some? && a.w != 0 && b.w != 0 && c.w != 0 {
      var reciprocalW := Interpolate(One, One, One, a, b, c, weights.value);
      if reciprocalW != 0 {
        var fa, fb, fc := FlipV(ta), FlipV(tb), FlipV(tc);
        var u := Div(Interpolate(fa.x, fb.x, fc.x, a, b, c, weights.value), reciprocalW);
        var v := Div(Interpolate(fa.y, fb.y, fc.y, a, b, c, weights.value), reciprocalW);
        var tx := TexelIndex(Wrap(u), texture.Width());
        var ty := TexelIndex(Wrap(v), texture.Height());
        TexelIndexInRange(Wrap(u), texture.Width());
        TexelIndexInRange(Wrap(v), texture.Height());
        texture.ColorAtIsDecodedPixel(tx, ty);
      }
    }
  }

  /** A null texture pointer: every texel faults, with the division by zero
      that comes first or at the dereference. */
  lemma NullTextureTexelFaults(x: uint16, y: uint16, a: Vector4, b: Vector4, c: Vector4,
                               ta: Vector2, tb: Vector2, tc: Vector2)
    ensures TexelColor(None, x, y, a, b, c, ta, tb, tc).Failure?
    ensures TexelColor(None, x, y, a, b, c, ta, tb, tc).error == DivisionByZero
      || TexelColor(None, x, y, a, b, c, ta, tb, tc).error == NullPointer
  {
  }

  // ---------------------------------------------------------------------
  // Triangle coverage

  /** The arguments of `DrawTexturedTriangle`: screen-space vertices (their
      `w` kept for the perspective divide) and texture coordinates. */
  datatype TexturedTriangle = TexturedTriangle(a: Vector4, b: Vector4, c: Vector4,
                                               ta: Vector2, tb: Vector2, tc: Vector2)
  {
    function A(): Vector2 { a.ToVector2() }
    function B(): Vector2 { b.ToVector2() }
    function C(): Vector2 { c.ToVector2() }

    /** The winding test: only triangles of positive determinant are drawn. */
    predicate CounterClockwise()
    {
      TriangleDeterminant(A(), B(), C()) > 0
    }
  }

  /** The scanned pixel box, bounds inclusive. */
  datatype Box = Box(xMin: uint16, yMin: uint16, xMax: uint16, yMax: uint16)
  {
    predicate Contains(p: Pixel)
    {
      xMin <= p.x <= xMax && yMin <= p.y <= yMax
    }
  }

  /** Floor of the least and ceiling of the greatest coordinates, each truncated
      to `uint16`; the box is not clamped to the target. */
  function BoundingBox(t: TexturedTriangle): Box
  {
    Box(ToUint16(ToInt(Floor(Min(t.a.x, Min(t.b.x, t.c.x))))),
        ToUint16(ToInt(Floor(Min(t.a.y, Min(t.b.y, t.c.y))))),
        ToUint16(ToInt(Ceil(Max(t.a.x, Max(t.b.x, t.c.x))))),
        ToUint16(ToInt(Ceil(Max(t.a.y, Max(t.b.y, t.c.y))))))
  }

  /** Whole-pixel bounds of a coordinate that is not negative and whose ceiling fits 16 bits. */
  lemma WholeBounds(lo: Fixed, hi: Fixed)
    requires 0 <= lo <= hi && Ceil(hi) < 0x1_0000 * One
    ensures FromInt(ToUint16(ToInt(Floor(lo)))) == Floor(lo) <= lo
    ensures hi <= Ceil(hi) == FromInt(ToUint16(ToInt(Ceil(hi))))
  {
    DivMultiple(Floor(lo) / One, One);
    DivMultiple(Ceil(hi) / One, One);
  }

  /** On a target of at most `0x10000` pixels a side, the box holds the
      triangle: each vertex lies between its whole-pixel bounds. */
  lemma BoxHoldsTriangle(t: TexturedTriangle)
    requires 0 <= t.a.x && 0 <= t.b.x && 0 <= t.c.x && 0 <= t.a.y && 0 <= t.b.y && 0 <= t.c.y
    requires Ceil(Max(t.a.x, Max(t.b.x, t.c.x))) < 0x1_0000 * One
    requires Ceil(Max(t.a.y, Max(t.b.y, t.c.y))) < 0x1_0000 * One
    ensures var box := BoundingBox(t);
      && FromInt(box.xMin) <= Min(t.a.x, Min(t.b.x, t.c.x))
      && Max(t.a.x, Max(t.b.x, t.c.x)) <= FromInt(box.xMax)
      && FromInt(box.yMin) <= Min(t.a.y, Min(t.b.y, t.c.y))
      && Max(t.a.y, Max(t.b.y, t.c.y)) <= FromInt(box.yMax)
  {
    WholeBounds(Min(t.a.x, Min(t.b.x, t.c.x)), Max(t.a.x, Max(t.b.x, t.c.x)));
    WholeBounds(Min(t.a.y, Min(t.b.y, t.c.y)), Max(t.a.y, Max(t.b.y, t.c.y)));
  }

  /** The `uint16` scan counters pass their far bounds: the row counter
      always, and the column counter whenever a row is scanned at all (a
      wrapped `yMin` above `yMax` scans no row). Otherwise the source's loop
      runs until a write faults, or forever. */
  predicate ScanEnds(t: TexturedTriangle)
  {
    var box := BoundingBox(t);
    box.yMax < 0xFFFF && (box.yMin <= box.yMax ==> box.xMax < 0xFFFF)
  }

  /** One raw unit taken off a left or top edge, so that a pixel centre exactly
      on it is drawn and one exactly on another edge is not. */
  function Bias(p: Vector2, q: Vector2): Fixed
  {
    if IsTriangleEdgeLeftOrTop(p, q) then Epsilon else 0
  }

  /** The biased edge values at a point. */
  function EdgesAtPoint(t: TexturedTriangle, point: Vector2): Vector3
  {
    Vector3(TriangleDeterminant(t.B(), t.C(), point) - Bias(t.B(), t.C()),
            TriangleDeterminant(t.C(), t.A(), point) - Bias(t.C(), t.A()),
            TriangleDeterminant(t.A(), t.B(), point) - Bias(t.A(), t.B()))
  }

  /** The centre of the pixel `row` rows and `column` columns from the box's top-left one. */
  function PixelCentre(box: Box, row: int, column: int): Vector2
  {
    Vector2(FromInt(box.xMin + column) + Half, FromInt(box.yMin + row) + Half)
  }

  /** `dwdx`, which one column to the right subtracts from the edge values. */
  function ColumnStep(t: TexturedTriangle): Vector3
  {
    Vector3(t.b.y - t.c.y, t.c.y - t.a.y, t.a.y - t.b.y)
  }

  /** `dwdy`, which one row down adds to the edge values. */
  function RowStep(t: TexturedTriangle): Vector3
  {
    Vector3(t.b.x - t.c.x, t.c.x - t.a.x, t.a.x - t.b.x)
  }

  /** What the scan loops carry: the box, the edge values at its top-left
      pixel centre (`wLeft`), and the column and row steps (`dwdx`, `dwdy`). */
  datatype Scan = Scan(box: Box, start: Vector3, columnStep: Vector3, rowStep: Vector3)

  /** The scan of `t` over `box`: `wLeft` before the first row holds the
      biased edge values of `B C`, `C A` and `A B` at the centre of the box's
      top-left pixel. */
  function ScanOver(t: TexturedTriangle, box: Box): Scan
  {
    Scan(box, EdgesAtPoint(t, PixelCentre(box, 0, 0)), ColumnStep(t), RowStep(t))
  }

  /** The scan of `t` over its bounding box. */
  function ScanOf(t: TexturedTriangle): Scan
  {
    ScanOver(t, BoundingBox(t))
  }

  /** The colour each pixel receives. */
  function Shade(texture: Option<PngTexture>, t: TexturedTriangle): Pixel -> Result<Colour, Fault>
  {
    (p: Pixel) => TexelColor(texture, p.x, p.y, t.a, t.b, t.c, t.ta, t.tb, t.tc)
  }

  /** `shade` gives every pixel the texel `DrawTexel` computes for it. */
  ghost predicate ShadesTexels(shade: Pixel -> Result<Colour, Fault>, texture: Option<PngTexture>, t: TexturedTriangle)
  {
    forall x: uint16, y: uint16 {:trigger TexelColor(texture, x, y, t.a, t.b, t.c, t.ta, t.tb, t.tc)} ::
      shade(Pixel(x, y)) == TexelColor(texture, x, y, t.a, t.b, t.c, t.ta, t.tb, t.tc)
  }

  lemma ShadeShadesTexels(texture: Option<PngTexture>, t: TexturedTriangle)
    ensures ShadesTexels(Shade(texture, t), texture, t)
  {
  }

  /** One edge value after `row` row steps from the top-left pixel and then
      `column` column steps along the row. */
  function EdgeAt(start: Fixed, columnStep: Fixed, rowStep: Fixed, row: nat, column: nat): Fixed
    decreases row, column
  {
    if column > 0 then EdgeAt(start, columnStep, rowStep, row, column - 1) - columnStep
    else if row > 0 then EdgeAt(start, columnStep, rowStep, row - 1, 0) + rowStep
    else start
  }

  /** The steps add up: the start value plus `row` row steps less `column`
      column steps. */
  lemma {:induction false} EdgeAtClosedForm(start: Fixed, columnStep: Fixed, rowStep: Fixed,
                                            row: nat, column: nat)
    ensures EdgeAt(start, columnStep, rowStep, row, column) == start + row * rowStep - column * columnStep
    decreases row, column
  {
    if column > 0 {
      EdgeAtClosedForm(start, columnStep, rowStep, row, column - 1);
      assert column * columnStep == (column - 1) * columnStep + columnStep;
    } else if row > 0 {
      EdgeAtClosedForm(start, columnStep, rowStep, row - 1, 0);
      assert row * rowStep == (row - 1) * rowStep + rowStep;
    }
  }

  /** `horizontalW` after `row` row steps and `column` column steps. */
  function EdgesAt(scan: Scan, row: nat, column: nat): Vector3
  {
    var w, dx, dy := scan.start, scan.columnStep, scan.rowStep;
    Vector3(EdgeAt(w.x, dx.x, dy.x, row, column),
            EdgeAt(w.y, dx.y, dy.y, row, column),
            EdgeAt(w.z, dx.z, dy.z, row, column))
  }

  /** One column step subtracts `dwdx`; one row step from the start of a row adds `dwdy`. */
  lemma EdgesAtStep(scan: Scan, row: nat, column: nat)
    ensures EdgesAt(scan, row, column + 1) == EdgesAt(scan, row, column).Minus(scan.columnStep)
    ensures EdgesAt(scan, row + 1, 0) == EdgesAt(scan, row, 0).Plus(scan.rowStep)
  {
  }

  /** Moving the sample point by whole pixels changes an edge value linearly
      whenever the edge vector is whole: `Mul` by a whole value is exact. */
  lemma EdgeValueMoves(p: Vector2, q: Vector2, origin: Vector2, column: int, row: int)
    requires (q.x - p.x) % One == 0 && (q.y - p.y) % One == 0
    ensures TriangleDeterminant(p, q, Vector2(origin.x + column * One, origin.y + row * One))
      == TriangleDeterminant(p, q, origin) + column * (q.y - p.y) - row * (q.x - p.x)
  {
    var e := q.Minus(p);
    var nx, ny := e.x / One, e.y / One;
    assert e.x == FromInt(nx) && e.y == FromInt(ny);
    var u, v := origin.x - p.x, origin.y - p.y;
    MulWholeShift(ny, u, column);
    MulWholeShift(nx, v, row);
    assert Vector2(origin.x + column * One, origin.y + row * One).Minus(p) == Vector2(u + column * One, v + row * One);
  }

  /** One edge of the scan: its carried value is its biased determinant at
      the pixel centre, provided the edge vector is whole. */
  lemma ScannedEdgeIsDirect(p: Vector2, q: Vector2, bias: Fixed, box: Box, row: nat, column: nat,
                             start: Fixed, columnStep: Fixed, rowStep: Fixed)
    requires (q.x - p.x) % One == 0 && (q.y - p.y) % One == 0
    requires start == TriangleDeterminant(p, q, PixelCentre(box, 0, 0)) - bias
    requires columnStep == p.y - q.y && rowStep == p.x - q.x
    ensures EdgeAt(start, columnStep, rowStep, row, column)
      == TriangleDeterminant(p, q, PixelCentre(box, row, column)) - bias
  {
    var topLeft := PixelCentre(box, 0, 0);
    EdgeAtClosedForm(start, columnStep, rowStep, row, column);
    assert PixelCentre(box, row, column) == Vector2(topLeft.x + column * One, topLeft.y + row * One);
    EdgeValueMoves(p, q, topLeft, column, row);
    assert row * (p.x - q.x) == -(row * (q.x - p.x));
    assert column * (p.y - q.y) == -(column * (q.y - p.y));
  }

  /** The incremental scan is exact: where every edge vector is whole, the
      values the loops carry at a pixel of the box are the three biased
      determinants at that pixel's centre. */
  lemma IncrementalEdgesAreDirect(t: TexturedTriangle, box: Box, row: nat, column: nat)
    requires (t.b.x - t.a.x) % One == 0 && (t.b.y - t.a.y) % One == 0
    requires (t.c.x - t.b.x) % One == 0 && (t.c.y - t.b.y) % One == 0
    requires (t.a.x - t.c.x) % One == 0 && (t.a.y - t.c.y) % One == 0
    ensures EdgesAt(ScanOver(t, box), row, column) == EdgesAtPoint(t, PixelCentre(box, row, column))
  {
    var scan := ScanOver(t, box);
    var w, dx, dy := scan.start, scan.columnStep, scan.rowStep;
    ScannedEdgeIsDirect(t.B(), t.C(), Bias(t.B(), t.C()), box, row, column, w.x, dx.x, dy.x);
    ScannedEdgeIsDirect(t.C(), t.A(), Bias(t.C(), t.A()), box, row, column, w.y, dx.y, dy.y);
    ScannedEdgeIsDirect(t.A(), t.B(), Bias(t.A(), t.B()), box, row, column, w.z, dx.z, dy.z);
  }

  /** Without whole edge vectors the incremental values drift: `Mul` rounds
      each direct determinant, while the steps are exact. The edge from
      `(3, 1/65536)` to `(1, 0)`, started at the centre of pixel `(0, 0)` and
      carried three columns along the row, ends one raw unit above its
      determinant at the centre of pixel `(3, 0)`. */
  lemma ScannedEdgeDrifts()
    ensures var p, q, box := Vector2(0x3_0000, 1), Vector2(0x1_0000, 0), Box(0, 0, 3, 2);
      && (q.y - p.y) % One != 0
      && EdgeAt(TriangleDeterminant(p, q, PixelCentre(box, 0, 0)), p.y - q.y, p.x - q.x, 0, 3)
         == TriangleDeterminant(p, q, PixelCentre(box, 0, 3)) + 1
  {
    var p, q, box := Vector2(0x3_0000, 1), Vector2(0x1_0000, 0), Box(0, 0, 3, 2);
    assert Mul(-1, Half - 3 * One) == 3 && Mul(-2 * One, Half - 1) == -65534;
    assert TriangleDeterminant(p, q, PixelCentre(box, 0, 0)) == 65537;
    assert Mul(-1, Half) == -1;
    assert TriangleDeterminant(p, q, PixelCentre(box, 0, 3)) == 65533;
    EdgeAtClosedForm(65537, 1, 0x2_0000, 0, 3);
  }

  /** The same bias taken off the start is taken off every stepped value. */
  lemma EdgeAtLessBias(start: Fixed, bias: Fixed, columnStep: Fixed, rowStep: Fixed, row: nat, column: nat)
    ensures EdgeAt(start - bias, columnStep, rowStep, row, column)
      == EdgeAt(start, columnStep, rowStep, row, column) - bias
  {
    EdgeAtClosedForm(start - bias, columnStep, rowStep, row, column);
    EdgeAtClosedForm(start, columnStep, rowStep, row, column);
  }

  /** The screen corners of a triangle whose edge `C A` drifts. */
  predicate DriftCorners(t: TexturedTriangle)
  {
    t.A() == Vector2(0x1_0000, 0) && t.B() == Vector2(0, 0x2_0000) && t.C() == Vector2(0x3_0000, 1)
  }

  lemma DriftCornersShape(t: TexturedTriangle)
    requires DriftCorners(t)
    ensures t.CounterClockwise() && BoundingBox(t) == Box(0, 0, 3, 2)
  {
    assert Mul(2 * One, 2 * One) == 4 * One && Mul(-One, 1) == -1;
    assert TriangleDeterminant(t.A(), t.B(), t.C()) == 4 * One + 1;
    assert Floor(0) == 0 && Ceil(3 * One) == 3 * One && Ceil(2 * One) == 2 * One;
  }

  /** The drift reaches the rasteriser: a triangle with these corners (any
      depth, `w` and texture coordinates) passes the winding test, and the
      value of edge `C A` its scan tests at pixel `(3, 0)` is one raw unit
      above the biased determinant there: coverage follows the carried
      values, not the determinants at the pixel centres. */
  lemma IncrementalEdgesDrift(t: TexturedTriangle)
    requires DriftCorners(t)
    ensures t.CounterClockwise() && BoundingBox(t) == Box(0, 0, 3, 2)
    ensures EdgesAt(ScanOf(t), 0, 3).y == EdgesAtPoint(t, PixelCentre(Box(0, 0, 3, 2), 0, 3)).y + 1
  {
    DriftCornersShape(t);
    ScannedEdgeDrifts();
    var bias := Bias(t.C(), t.A());
    var scan := ScanOf(t);
    assert scan.start.y == TriangleDeterminant(t.C(), t.A(), PixelCentre(Box(0, 0, 3, 2), 0, 0)) - bias;
    EdgeAtLessBias(TriangleDeterminant(t.C(), t.A(), PixelCentre(Box(0, 0, 3, 2), 0, 0)), bias,
                   scan.columnStep.y, scan.rowStep.y, 0, 3);
  }

  /** All three biased edge values are non-negative. */
  predicate Inside(w: Vector3)
  {
    w.x >= 0 && w.y >= 0 && w.z >= 0
  }

  /** The coverage test at a pixel of the box. */
  predicate Covered(scan: Scan, p: Pixel)
  {
    scan.box.xMin <= p.x && scan.box.yMin <= p.y
    && Inside(EdgesAt(scan, p.y - scan.box.yMin, p.x - scan.box.xMin))
  }

  /** The coverage test at a pixel is the sign test on the values the scan carries there. */
  lemma CoveredIsInside(scan: Scan, x: uint16, y: uint16, w: Vector3)
    requires scan.box.xMin <= x && scan.box.yMin <= y
    requires w == EdgesAt(scan, y - scan.box.yMin, x - scan.box.xMin)
    ensures Covered(scan, Pixel(x, y)) <==> w.x >= 0 && w.y >= 0 && w.z >= 0
  {
  }

  /** The covered pixels of row `y` left of column `endX`, left to right. */
  function RowPixels(scan: Scan, y: uint16, endX: nat): seq<Pixel>
    requires endX <= 0x1_0000
  {
    if endX <= scan.box.xMin then []
    else
      var p := Pixel(endX - 1, y);
      RowPixels(scan, y, endX - 1) + (if Covered(scan, p) then [p] else [])
  }

  /** The covered pixels of the rows of the box above row `endY`, row by row. */
  function ScanPixels(scan: Scan, endY: nat): seq<Pixel>
    requires endY <= 0x1_0000
  {
    if endY <= scan.box.yMin then []
    else ScanPixels(scan, endY - 1) + RowPixels(scan, endY - 1, scan.box.xMax + 1)
  }

  /** A row holds exactly its covered pixels left of `endX`. */
  lemma {:induction false} RowPixelsMembers(scan: Scan, y: uint16, endX: nat, p: Pixel)
    requires endX <= 0x1_0000
    ensures p in RowPixels(scan, y, endX) <==> p.y == y && scan.box.xMin <= p.x < endX && Covered(scan, p)
    decreases endX
  {
    if endX > scan.box.xMin {
      RowPixelsMembers(scan, y, endX - 1, p);
    }
  }

  /** The scan holds exactly the covered pixels of the box above row `endY`. */
  lemma {:induction false} ScanPixelsMembers(scan: Scan, endY: nat, p: Pixel)
    requires endY <= 0x1_0000
    ensures p in ScanPixels(scan, endY) <==>
      scan.box.xMin <= p.x <= scan.box.xMax && scan.box.yMin <= p.y < endY && Covered(scan, p)
    decreases endY
  {
    if endY > scan.box.yMin {
      ScanPixelsMembers(scan, endY - 1, p);
      RowPixelsMembers(scan, endY - 1, scan.box.xMax + 1, p);
    }
  }

  /** The pixels `DrawTexturedTriangle` writes, in scan order. */
  function TrianglePixels(t: TexturedTriangle): seq<Pixel>
  {
    if t.CounterClockwise() then ScanPixels(ScanOf(t), BoundingBox(t).yMax + 1) else []
  }

  /** A triangle that passes the winding test is drawn at exactly the covered
      pixels of its box; one that fails it nowhere. */
  lemma TrianglePixelsAreCovered(t: TexturedTriangle, p: Pixel)
    ensures p in TrianglePixels(t) <==>
      t.CounterClockwise() && BoundingBox(t).Contains(p) && Covered(ScanOf(t), p)
  {
    if t.CounterClockwise() {
      ScanPixelsMembers(ScanOf(t), BoundingBox(t).yMax + 1, p);
    }
  }

  /** Everything `DrawTexturedTriangle` writes: the texel of each pixel of
      `TrianglePixels(t)`, in scan order. */
  function TriangleStrokes(texture: Option<PngTexture>, t: TexturedTriangle): seq<Stroke>
  {
    Shaded(TrianglePixels(t), Shade(texture, t))
  }

  /** A triangle that passes the winding test writes the shaded pixels of its scan. */
  lemma TriangleStrokesAreScanned(texture: Option<PngTexture>, t: TexturedTriangle)
    requires t.CounterClockwise()
    ensures TriangleStrokes(texture, t) == Shaded(ScanPixels(ScanOf(t), BoundingBox(t).yMax + 1), Shade(texture, t))
  {
  }

  /** A triangle drawn without a texture writes no pixel: it stops at its
      first covered pixel, and completes only when it covers none. */
  lemma NullTextureWritesNothing(buffer: seq<Colour>, width: nat, t: TexturedTriangle)
    ensures Paint(buffer, width, TriangleStrokes(None, t)).buffer == buffer
    ensures Paint(buffer, width, TriangleStrokes(None, t)).outcome.Completed? <==> |TrianglePixels(t)| == 0
  {
    var strokes := TriangleStrokes(None, t);
    forall i | 0 <= i < |strokes|
      ensures strokes[i].colour.Failure?
    {
      var p := TrianglePixels(t)[i];
      NullTextureTexelFaults(p.x, p.y, t.a, t.b, t.c, t.ta, t.tb, t.tc);
    }
    PaintFaults(buffer, width, strokes);
  }

  /** The `i`-th write is the texel of the `i`-th pixel. */
  lemma TriangleStrokeIsTexel(texture: Option<PngTexture>, t: TexturedTriangle, i: int)
    requires 0 <= i < |TrianglePixels(t)|
    ensures var p := TrianglePixels(t)[i];
      && i < |TriangleStrokes(texture, t)|
      && TriangleStrokes(texture, t)[i] == Stroke(p, TexelColor(texture, p.x, p.y, t.a, t.b, t.c, t.ta, t.tb, t.tc))
  {
  }

  lemma {:induction false} RowPixelsPrefix(scan: Scan, y: uint16, endX: nat, end: nat)
    requires endX <= end <= 0x1_0000
    ensures RowPixels(scan, y, endX) <= RowPixels(scan, y, end)
    decreases end
  {
    if end > endX {
      RowPixelsPrefix(scan, y, endX, end - 1);
    }
  }

  /** The rows scanned so far and part of the current row start the pixels of
      the whole box. */
  lemma {:induction false} ScanPixelsPrefix(scan: Scan, y: uint16, endX: nat, endY: nat)
    requires scan.box.yMin <= y < endY <= scan.box.yMax + 1 && endX <= scan.box.xMax + 1
    ensures ScanPixels(scan, y) + RowPixels(scan, y, endX) <= ScanPixels(scan, endY)
    decreases endY
  {
    if endY == y + 1 {
      RowPixelsPrefix(scan, y, endX, scan.box.xMax + 1);
    } else {
      ScanPixelsPrefix(scan, y, endX, endY - 1);
    }
  }

  /** A row of the scan starts with none of its pixels and ends with all of them. */
  lemma ScanRowEnds(scan: Scan, y: uint16, x: nat, shade: Pixel -> Result<Colour, Fault>)
    requires scan.box.yMin <= y && scan.box.xMax < x <= 0x1_0000
    requires x <= scan.box.xMax + 1 || x == scan.box.xMin
    ensures Shaded(ScanPixels(scan, y) + RowPixels(scan, y, scan.box.xMin), shade) == Shaded(ScanPixels(scan, y), shade)
    ensures Shaded(ScanPixels(scan, y) + RowPixels(scan, y, x), shade) == Shaded(ScanPixels(scan, y + 1), shade)
  {
    assert ScanPixels(scan, y) + RowPixels(scan, y, scan.box.xMin) == ScanPixels(scan, y);
    assert RowPixels(scan, y, x) == RowPixels(scan, y, scan.box.xMax + 1);
  }

  /** One column of the scan: a covered pixel is added, and the pixels still
      start those of the whole box; an uncovered one adds nothing. */
  lemma ScanStep(scan: Scan, y: uint16, x: uint16)
    requires scan.box.yMin <= y <= scan.box.yMax && scan.box.xMin <= x <= scan.box.xMax
    ensures Covered(scan, Pixel(x, y)) ==>
      && ScanPixels(scan, y) + RowPixels(scan, y, x + 1)
         == ScanPixels(scan, y) + RowPixels(scan, y, x) + [Pixel(x, y)]
      && ScanPixels(scan, y) + RowPixels(scan, y, x + 1) <= ScanPixels(scan, scan.box.yMax + 1)
    ensures !Covered(scan, Pixel(x, y)) ==> RowPixels(scan, y, x + 1) == RowPixels(scan, y, x)
  {
    if Covered(scan, Pixel(x, y)) {
      ScanPixelsPrefix(scan, y, x + 1, scan.box.yMax + 1);
    }
  }

  /** Only entries of pixels inside the box can change. */
  lemma TriangleWritesOnlyBox(buffer: seq<Colour>, width: nat, texture: Option<PngTexture>,
                              t: TexturedTriangle, j: int)
    requires 0 <= j < |buffer|
    requires forall p: Pixel | BoundingBox(t).Contains(p) :: Index(width, p) != j
    ensures Paint(buffer, width, TriangleStrokes(texture, t)).buffer[j] == buffer[j]
  {
    var strokes := TriangleStrokes(texture, t);
    forall i | 0 <= i < |strokes|
      ensures Index(width, strokes[i].at) != j
    {
      assert strokes[i].at == TrianglePixels(t)[i];
      TrianglePixelsAreCovered(t, strokes[i].at);
    }
    PaintWritesOnlyStrokes(buffer, width, strokes, j);
  }

  // ---------------------------------------------------------------------
  // The target

  class RenderTarget {
    const Width: uint16
    const Height: uint16
    /** One colour per pixel, row-major. */
    const Buffer: array<Colour>
    /** One depth per pixel; allocated and cleared, never read by the rasteriser. */
    const ZBuffer: array<Fixed>

    predicate Valid()
    {
      Buffer.Length == Width * Height && ZBuffer.Length == Width * Height
    }

    /** Every pixel opaque black, every depth one. */
    constructor(width: uint16, height: uint16)
      ensures Width == width && Height == height && Valid()
      ensures fresh(Buffer) && fresh(ZBuffer)
      ensures forall i | 0 <= i < Buffer.Length :: Buffer[i] == DefaultBackground
      ensures forall i | 0 <= i < ZBuffer.Length :: ZBuffer[i] == One
    {
      Width, Height := width, height;
      Buffer := new Colour[width * height](_ => DefaultBackground);
      ZBuffer := new Fixed[width * height](_ => One);
    }

    /** `PixelAt(x, y)`: the entry at `(Width * y) + x`, or `None` where the
        bounds-checked access throws. */
    function PixelAt(x: uint16, y: uint16): (r: Option<Colour>)
      reads Buffer
      ensures r.Some? <==> Index(Width, Pixel(x, y)) < Buffer.Length
      ensures r.Some? ==> r.value == Buffer[Index(Width, Pixel(x, y))]
    {
      var i := Index(Width, Pixel(x, y));
      if i < Buffer.Length then Some(Buffer[i]) else None
    }

    /** Inside the target every pixel has its own entry. */
    lemma PixelInsideTarget(x: uint16, y: uint16)
      requires Valid() && x < Width && y < Height
      ensures PixelAt(x, y).Some?
    {
      RowMajorInRange(y, x, Width, Height);
    }

    /** `std::fill` of the colour buffer; the depth buffer keeps its values. */
    method ClearBuffer(colour: Colour)
      modifies Buffer
      ensures forall i | 0 <= i < Buffer.Length :: Buffer[i] == colour
    {
      var i := 0;
      while i < Buffer.Length
        invariant 0 <= i <= Buffer.Length
        invariant forall k | 0 <= k < i :: Buffer[k] == colour
      {
        Buffer[i] := colour;
        i := i + 1;
      }
    }

    /** `ClearBuffer()` with no colour: the default background. */
    method ClearBufferToDefault()
      modifies Buffer
      ensures forall i | 0 <= i < Buffer.Length :: Buffer[i] == DefaultBackground
    {
      ClearBuffer(DefaultBackground);
    }

    /** Every depth back to one; the colours keep their values. */
    method ClearZBuffer()
      modifies ZBuffer
      ensures forall i | 0 <= i < ZBuffer.Length :: ZBuffer[i] == One
    {
      var i := 0;
      while i < ZBuffer.Length
        invariant 0 <= i <= ZBuffer.Length
        invariant forall k | 0 <= k < i :: ZBuffer[k] == One
      {
        ZBuffer[i] := One;
        i := i + 1;
      }
    }

    /** One bounds-checked write; an index past the end throws (`OutOfRange`)
        and writes nothing. */
    method DrawPixel(x: uint16, y: uint16, colour: Colour) returns (outcome: Outcome)
      modifies Buffer
      ensures Painted(Buffer[..], outcome)
        == Apply(old(Buffer[..]), Width, Stroke(Pixel(x, y), Success(colour)))
      ensures outcome.Completed? ==> PixelAt(x, y) == Some(colour)
    {
      var i := Index(Width, Pixel(x, y));
      if i < Buffer.Length {
        Buffer[i] := colour;
        outcome := Completed;
      } else {
        outcome := Failed(OutOfRange);
      }
    }

    /** The buffer holds what the writes `strokes` over `before` give, and none faulted. */
    ghost predicate PaintedSoFar(before: seq<Colour>, strokes: seq<Stroke>)
      reads Buffer
    {
      Paint(before, Width, strokes) == Painted(Buffer[..], Completed)
    }

    /** One pixel of the inner loop of `DrawRectangle`. */
    method DrawBoxPixel(ghost before: seq<Colour>, minX: uint16, maxX: uint16, minY: uint16, y: uint16,
                        x: uint16, ghost endY: nat, colour: Colour)
      returns (outcome: Outcome)
      requires minX <= x <= maxX < 0xFFFF && minY <= y < endY <= 0x1_0000
      requires PaintedSoFar(before, Solid(BoxRows(minX, maxX, minY, y) + Span(y, minX, x), colour))
      modifies Buffer
      ensures outcome.Completed? ==>
        PaintedSoFar(before, Solid(BoxRows(minX, maxX, minY, y) + Span(y, minX, x + 1), colour))
      ensures outcome.Failed? ==>
        Painted(Buffer[..], outcome) == Paint(before, Width, Solid(BoxRows(minX, maxX, minY, endY), colour))
    {
      ghost var done := Solid(BoxRows(minX, maxX, minY, y) + Span(y, minX, x), colour);
      ghost var current := Buffer[..];
      outcome := DrawPixel(x, y, colour);
      BoxStep(minX, maxX, minY, y, x, endY, colour);
      PaintStep(before, Width, done, Stroke(Pixel(x, y), Success(colour)),
                Solid(BoxRows(minX, maxX, minY, endY), colour), current, Painted(Buffer[..], outcome));
    }

    /** The inner loop of `DrawRectangle`: columns `minX..maxX` of row `y`,
        stopping at the first write that throws. */
    method DrawBoxRow(ghost before: seq<Colour>, minX: uint16, maxX: uint16, minY: uint16, y: uint16,
                      ghost endY: nat, colour: Colour)
      returns (outcome: Outcome)
      requires minX <= maxX < 0xFFFF && minY <= y < endY <= 0x1_0000
      requires PaintedSoFar(before, Solid(BoxRows(minX, maxX, minY, y), colour))
      modifies Buffer
      ensures outcome.Completed? ==> PaintedSoFar(before, Solid(BoxRows(minX, maxX, minY, y + 1), colour))
      ensures outcome.Failed? ==>
        Painted(Buffer[..], outcome) == Paint(before, Width, Solid(BoxRows(minX, maxX, minY, endY), colour))
    {
      var x := minX;
      BoxRowEnds(minX, maxX, minY, y, colour);
      while x <= maxX
        invariant minX <= x <= maxX + 1
        invariant PaintedSoFar(before, Solid(BoxRows(minX, maxX, minY, y) + Span(y, minX, x), colour))
      {
        outcome := DrawBoxPixel(before, minX, maxX, minY, y, x, endY, colour);
        if outcome.Failed? {
          return;
        }
        x := x + 1;
      }
      outcome := Completed;
    }

    /** Fills the inclusive box between the corners, row by row; the first
        write that throws ends the fill. The `uint16` loop counters never pass
        a bound of `0xFFFF`, so the source loops forever on such a corner. */
    method DrawRectangle(x1: uint16, y1: uint16, x2: uint16, y2: uint16, colour: Colour)
      returns (outcome: Outcome)
      requires x1 < 0xFFFF && x2 < 0xFFFF && y1 < 0xFFFF && y2 < 0xFFFF
      modifies Buffer
      ensures Painted(Buffer[..], outcome)
        == Paint(old(Buffer[..]), Width, Solid(RectanglePixels(x1, y1, x2, y2), colour))
    {
      var minX, maxX, minY, maxY := Min(x1, x2), Max(x1, x2), Min(y1, y2), Max(y1, y2);
      ghost var before := Buffer[..];
      var y := minY;
      while y <= maxY
        invariant minY <= y <= maxY + 1
        invariant PaintedSoFar(before, Solid(BoxRows(minX, maxX, minY, y), colour))
      {
        outcome := DrawBoxRow(before, minX, maxX, minY, y, maxY + 1, colour);
        if outcome.Failed? {
          return;
        }
        y := y + 1;
      }
      outcome := Completed;
    }

    /** `DrawTexel`: the texel colour at the pixel, written with `DrawPixel`. */
    method DrawTexel(x: uint16, y: uint16, texture: Option<PngTexture>, a: Vector4, b: Vector4, c: Vector4,
                     ta: Vector2, tb: Vector2, tc: Vector2)
      returns (outcome: Outcome)
      modifies Buffer
      ensures Painted(Buffer[..], outcome)
        == Apply(old(Buffer[..]), Width, Stroke(Pixel(x, y), TexelColor(texture, x, y, a, b, c, ta, tb, tc)))
    {
      var colour := TexelColor(texture, x, y, a, b, c, ta, tb, tc);
      if colour.Failure? {
        return Failed(colour.error);
      }
      outcome := DrawPixel(x, y, colour.value);
    }

    /** One column of the inner loop of `DrawTexturedTriangle`: the texel
        when all three edge values are non-negative, otherwise nothing. */
    method DrawScanPixel(ghost before: seq<Colour>, texture: Option<PngTexture>, t: TexturedTriangle,
                         ghost scan: Scan, ghost shade: Pixel -> Result<Colour, Fault>,
                         y: uint16, x: uint16, horizontalW: Vector3)
      returns (outcome: Outcome)
      requires scan.box.yMin <= y <= scan.box.yMax && scan.box.xMin <= x <= scan.box.xMax
      requires horizontalW == EdgesAt(scan, y - scan.box.yMin, x - scan.box.xMin)
      requires ShadesTexels(shade, texture, t)
      requires PaintedSoFar(before, Shaded(ScanPixels(scan, y) + RowPixels(scan, y, x), shade))
      modifies Buffer
      ensures outcome.Completed? ==>
        PaintedSoFar(before, Shaded(ScanPixels(scan, y) + RowPixels(scan, y, x + 1), shade))
      ensures outcome.Failed? ==>
        Painted(Buffer[..], outcome) == Paint(before, Width, Shaded(ScanPixels(scan, scan.box.yMax + 1), shade))
    {
      ghost var pixels := ScanPixels(scan, y) + RowPixels(scan, y, x);
      ghost var all := ScanPixels(scan, scan.box.yMax + 1);
      ScanStep(scan, y, x);
      CoveredIsInside(scan, x, y, horizontalW);
      if horizontalW.x >= 0 && horizontalW.y >= 0 && horizontalW.z >= 0 {
        ghost var stroke := Stroke(Pixel(x, y), shade(Pixel(x, y)));
        ShadedSnoc(pixels, Pixel(x, y), shade);
        ShadedPrefix(pixels + [Pixel(x, y)], all, shade);
        ghost var current := Buffer[..];
        outcome := DrawTexel(x, y, texture, t.a, t.b, t.c, t.ta, t.tb, t.tc);
        PaintStep(before, Width, Shaded(pixels, shade), stroke, Shaded(all, shade),
                  current, Painted(Buffer[..], outcome));
      } else {
        outcome := Completed;
      }
    }

    /** The inner loop of `DrawTexturedTriangle`: one row of the box, carrying
        `horizontalW` from `wLeft` one column step at a time. */
    method DrawTriangleRow(ghost before: seq<Colour>, texture: Option<PngTexture>, t: TexturedTriangle,
                           ghost scan: Scan, ghost shade: Pixel -> Result<Colour, Fault>,
                           box: Box, y: uint16, wLeft: Vector3, dwdx: Vector3)
      returns (outcome: Outcome)
      requires box == scan.box && box.xMax < 0xFFFF && box.yMin <= y <= box.yMax
      requires dwdx == scan.columnStep && wLeft == EdgesAt(scan, y - box.yMin, 0)
      requires ShadesTexels(shade, texture, t)
      requires PaintedSoFar(before, Shaded(ScanPixels(scan, y), shade))
      modifies Buffer
      ensures outcome.Completed? ==> PaintedSoFar(before, Shaded(ScanPixels(scan, y + 1), shade))
      ensures outcome.Failed? ==>
        Painted(Buffer[..], outcome) == Paint(before, Width, Shaded(ScanPixels(scan, box.yMax + 1), shade))
    {
      var horizontalW := wLeft;
      var x := box.xMin;
      ScanRowEnds(scan, y, box.xMax + 1, shade);
      while x <= box.xMax
        invariant box.xMin <= x && (x <= box.xMax + 1 || x == box.xMin)
        invariant horizontalW == EdgesAt(scan, y - box.yMin, x - box.xMin)
        invariant PaintedSoFar(before, Shaded(ScanPixels(scan, y) + RowPixels(scan, y, x), shade))
      {
        outcome := DrawScanPixel(before, texture, t, scan, shade, y, x, horizontalW);
        if outcome.Failed? {
          return;
        }
        EdgesAtStep(scan, y - box.yMin, x - box.xMin);
        horizontalW := horizontalW.Minus(dwdx);
        x := x + 1;
      }
      ScanRowEnds(scan, y, x, shade);
      outcome := Completed;
    }

    /** Fills the covered pixels of the box with texels, in scan order; a
        triangle that fails the winding test writes nothing, and the first
        texel that faults ends the fill. */
    method DrawTexturedTriangle(a: Vector4, b: Vector4, c: Vector4, ta: Vector2, tb: Vector2, tc: Vector2,
                                texture: Option<PngTexture>)
      returns (outcome: Outcome)
      requires TexturedTriangle(a, b, c, ta, tb, tc).CounterClockwise() ==>
        ScanEnds(TexturedTriangle(a, b, c, ta, tb, tc))
      modifies Buffer
      ensures Painted(Buffer[..], outcome)
        == Paint(old(Buffer[..]), Width, TriangleStrokes(texture, TexturedTriangle(a, b, c, ta, tb, tc)))
      ensures TriangleDeterminant(a.ToVector2(), b.ToVector2(), c.ToVector2()) <= 0 ==>
        outcome == Completed && Buffer[..] == old(Buffer[..])
    {
      if TriangleDeterminant(a.ToVector2(), b.ToVector2(), c.ToVector2()) <= 0 {
        return Completed;
      }
      var t := TexturedTriangle(a, b, c, ta, tb, tc);
      var box := BoundingBox(t);
      var wTop := EdgesAtPoint(t, PixelCentre(box, 0, 0));
      TriangleStrokesAreScanned(texture, t);
      ShadeShadesTexels(texture, t);
      outcome := DrawScanRows(Buffer[..], texture, t, ScanOf(t), Shade(texture, t),
                              box, wTop, ColumnStep(t), RowStep(t));
    }

    /** The outer loop of `DrawTexturedTriangle`: row after row of the box,
        the left edge values stepped down by `rowStep`. */
    method DrawScanRows(ghost before: seq<Colour>, texture: Option<PngTexture>, t: TexturedTriangle,
                        ghost scan: Scan, ghost shade: Pixel -> Result<Colour, Fault>,
                        box: Box, wTop: Vector3, dwdx: Vector3, dwdy: Vector3)
      returns (outcome: Outcome)
      requires box == scan.box && box.yMax < 0xFFFF && (box.yMin <= box.yMax ==> box.xMax < 0xFFFF)
      requires dwdx == scan.columnStep && dwdy == scan.rowStep && wTop == EdgesAt(scan, 0, 0)
      requires ShadesTexels(shade, texture, t)
      requires Buffer[..] == before
      modifies Buffer
      ensures Painted(Buffer[..], outcome) == Paint(before, Width, Shaded(ScanPixels(scan, box.yMax + 1), shade))
    {
      var wLeft := wTop;
      var y := box.yMin;
      assert ScanPixels(scan, y) == [];
      while y <= box.yMax
        invariant box.yMin <= y && (y <= box.yMax + 1 || y == box.yMin)
        invariant wLeft == EdgesAt(scan, y - box.yMin, 0)
        invariant PaintedSoFar(before, Shaded(ScanPixels(scan, y), shade))
      {
        outcome := DrawTriangleRow(before, texture, t, scan, shade, box, y, wLeft, dwdx);
        if outcome.Failed? {
          return;
        }
        EdgesAtStep(scan, y - box.yMin, 0);
        wLeft := wLeft.Plus(dwdy);
        y := y + 1;
      }
      assert ScanPixels(scan, y) == ScanPixels(scan, box.yMax + 1);
      outcome := Completed;
    }

    /** One sample of `DrawLine`, written with `DrawPixel`. */
    method DrawSample(ghost before: seq<Colour>, ghost samples: seq<Pixel>, ghost i: nat,
                      x: uint16, y: uint16, colour: Colour)
      returns (outcome: Outcome)
      requires i < |samples| && samples[i] == Pixel(x, y)
      requires PaintedSoFar(before, Solid(samples[..i], colour))
      modifies Buffer
      ensures outcome.Completed? ==> PaintedSoFar(before, Solid(samples[..i + 1], colour))
      ensures outcome.Failed? ==> Painted(Buffer[..], outcome) == Paint(before, Width, Solid(samples, colour))
    {
      ghost var current := Buffer[..];
      outcome := DrawPixel(x, y, colour);
      assert samples[..i + 1] == samples[..i] + [samples[i]];
      SolidSnoc(samples[..i], samples[i], colour);
      SolidPrefix(samples[..i + 1], samples, colour);
      PaintStep(before, Width, Solid(samples[..i], colour), Stroke(samples[i], Success(colour)),
                Solid(samples, colour), current, Painted(Buffer[..], outcome));
    }

    /** The DDA line: both ends moved to pixel centres, `sideLength + 1` samples
        one increment apart, each truncated to its pixel. Equal ends divide by
        a zero side length, which the model reports as `DivisionByZero`. */
    method DrawLine(a: Vector2, b: Vector2, colour: Colour) returns (outcome: Outcome)
      modifies Buffer
      ensures a == b ==> outcome == Failed(DivisionByZero) && Buffer[..] == old(Buffer[..])
      ensures a != b ==>
        Painted(Buffer[..], outcome) == Paint(old(Buffer[..]), Width, Solid(LineSamples(a, b), colour))
    {
      var start, end := LineStart(a), LineStart(b);
      var deltaX, deltaY := end.x - start.x, end.y - start.y;
      var sideLength := if Abs(deltaX) >= Abs(deltaY) then Abs(deltaX) else Abs(deltaY);
      assert sideLength == SideLength(a, b);
      if sideLength == 0 {
        return Failed(DivisionByZero);
      }
      var xIncrement, yIncrement := Div(deltaX, sideLength), Div(deltaY, sideLength);
      assert Vector2(xIncrement, yIncrement) == LineIncrement(a, b);
      ghost var before := Buffer[..];
      ghost var samples := LineSamples(a, b);
      var currentX, currentY := start.x, start.y;
      var count := ToInt(sideLength);
      var i := 0;
      while i <= count
        invariant 0 <= i <= count + 1 == |samples|
        invariant Vector2(currentX, currentY) == LinePoint(a, b, i)
        invariant PaintedSoFar(before, Solid(samples[..i], colour))
      {
        outcome := DrawSample(before, samples, i, ToUint16(ToInt(currentX)), ToUint16(ToInt(currentY)), colour);
        if outcome.Failed? {
          return;
        }
        LinePointStep(a, b, i);
        currentX, currentY := currentX + xIncrement, currentY + yIncrement;
        i := i + 1;
      }
      assert samples[..i] == samples;
      outcome := Completed;
    }
  }

  /** The pixel-drawing test: on a cleared 8 by 4 target, three pixels drawn
      in one colour each read back in that colour. */
  method DrawPixelsFixture() returns (first: Option<Colour>, second: Option<Colour>, third: Option<Colour>)
    ensures first == Some(0xFFFF_0000) && second == Some(0xFFFF_0000) && third == Some(0xFFFF_0000)
  {
    var target := new RenderTarget(8, 4);
    target.ClearBuffer(DefaultBackground);
    var drawn := target.DrawPixel(1, 1, 0xFFFF_0000);
    drawn := target.DrawPixel(3, 2, 0xFFFF_0000);
    drawn := target.DrawPixel(5, 3, 0xFFFF_0000);
    first := target.PixelAt(1, 1);
    second := target.PixelAt(3, 2);
    third := target.PixelAt(5, 3);
  }
}
