/** The first, brute-force renderer: an unchecked `Width * Height` frame
    buffer, the pixel, rectangle and line writers, a triangle filler that
    tests every integer point of the bounding box against the three edges
    with a top-left bias, and the order in which the entity tree's meshes are
    handed to the per-mesh drawing. */
module LegacyRenderers {
  import opened Wrappers
  import opened FixedPoint
  import opened MathTypes
  import opened Raster
  import RenderTargets
  import Renderers
  import Meshes

  // ---------------------------------------------------------------------
  // Edge tests on integer points

  /** An integer point taken as a fixed-point one: whole units. */
  function Whole(p: Pixel): Vector2
  {
    Vector2(FromInt(p.x), FromInt(p.y))
  }

  /** The determinant of three integer points, over the integers. */
  function IntDeterminant(a: Pixel, b: Pixel, c: Pixel): int
  {
    (b.y - a.y) * (c.x - a.x) - (b.x - a.x) * (c.y - a.y)
  }

  /** On integer points the fixed-point determinant loses nothing: it is the
      integer determinant in whole units. */
  lemma WholeDeterminant(a: Pixel, b: Pixel, c: Pixel)
    ensures RenderTargets.TriangleDeterminant(Whole(a), Whole(b), Whole(c)) == FromInt(IntDeterminant(a, b, c))
  {
    var p, q := (b.y - a.y) * (c.x - a.x), (b.x - a.x) * (c.y - a.y);
    MulWholes(b.y - a.y, c.x - a.x);
    MulWholes(b.x - a.x, c.y - a.y);
    assert FromInt(p) - FromInt(q) == FromInt(p - q);
  }

  /** Swapping the ends of an edge negates the determinant of every point. */
  lemma IntDeterminantSwap(a: Pixel, b: Pixel, p: Pixel)
    ensures IntDeterminant(b, a, p) == -IntDeterminant(a, b, p)
  {
    var dx, dy := b.x - a.x, b.y - a.y;
    assert (a.y - b.y) * (p.x - b.x) == -dy * (p.x - a.x) + dy * dx;
    assert (a.x - b.x) * (p.y - b.y) == -dx * (p.y - a.y) + dx * dy;
  }

  /** One edge value of `DrawTriangle` at `p`: the determinant of the edge
      and the point, less one whole unit on a left-or-top edge. */
  function EdgeValue(a: Pixel, b: Pixel, p: Pixel): Fixed
  {
    var d := RenderTargets.TriangleDeterminant(Whole(a), Whole(b), Whole(p));
    if RenderTargets.IsTriangleEdgeLeftOrTop(Whole(a), Whole(b)) then d - One else d
  }

  /** The point is written: all three edge values are non-negative. */
  predicate Covers(a: Pixel, b: Pixel, c: Pixel, p: Pixel)
  {
    EdgeValue(b, c, p) >= 0 && EdgeValue(c, a, p) >= 0 && EdgeValue(a, b, p) >= 0
  }

  /** The edge rule over the integers: a point on a left-or-top edge is
      outside, a point on any other edge is inside. */
  predicate EdgeAdmits(a: Pixel, b: Pixel, p: Pixel)
  {
    if RenderTargets.IsTriangleEdgeLeftOrTop(Whole(a), Whole(b)) then IntDeterminant(a, b, p) > 0
    else IntDeterminant(a, b, p) >= 0
  }

  /** Subtracting one whole unit from a whole-unit determinant makes the test
      on a left-or-top edge strict. */
  lemma EdgeValueAdmits(a: Pixel, b: Pixel, p: Pixel)
    ensures EdgeValue(a, b, p) >= 0 <==> EdgeAdmits(a, b, p)
  {
    WholeDeterminant(a, b, p);
  }

  lemma CoversIff(a: Pixel, b: Pixel, c: Pixel, p: Pixel)
    ensures Covers(a, b, c, p) <==> EdgeAdmits(b, c, p) && EdgeAdmits(c, a, p) && EdgeAdmits(a, b, p)
  {
    EdgeValueAdmits(b, c, p);
    EdgeValueAdmits(c, a, p);
    EdgeValueAdmits(a, b, p);
  }

  /** A point on an edge that two triangles walk in opposite directions is
      admitted by exactly one of them, so shared edges are not drawn twice
      and not left out. */
  lemma SharedEdgeAdmitsOnce(a: Pixel, b: Pixel, p: Pixel)
    requires a != b && IntDeterminant(a, b, p) == 0
    ensures EdgeAdmits(a, b, p) != EdgeAdmits(b, a, p)
  {
    IntDeterminantSwap(a, b, p);
    assert Whole(a) != Whole(b);
    RenderTargets.LeftOrTopIsOneSided(Whole(a), Whole(b));
  }

  /** The points of `pixels` the triangle covers, in order. */
  function CoveredIn(a: Pixel, b: Pixel, c: Pixel, pixels: seq<Pixel>): seq<Pixel>
  {
    if |pixels| == 0 then []
    else
      var last := pixels[|pixels| - 1];
      CoveredIn(a, b, c, pixels[..|pixels| - 1]) + if Covers(a, b, c, last) then [last] else []
  }

  lemma CoveredInSnoc(a: Pixel, b: Pixel, c: Pixel, pixels: seq<Pixel>, p: Pixel)
    ensures CoveredIn(a, b, c, pixels + [p])
      == CoveredIn(a, b, c, pixels) + if Covers(a, b, c, p) then [p] else []
  {
    assert (pixels + [p])[..|pixels|] == pixels;
  }

  lemma {:induction false} CoveredInMembers(a: Pixel, b: Pixel, c: Pixel, pixels: seq<Pixel>, p: Pixel)
    ensures p in CoveredIn(a, b, c, pixels) <==> p in pixels && Covers(a, b, c, p)
    decreases |pixels|
  {
    if |pixels| > 0 {
      var init := pixels[..|pixels| - 1];
      CoveredInMembers(a, b, c, init, p);
      assert pixels == init + [pixels[|pixels| - 1]];
    }
  }

  function MinOf3(a: uint16, b: uint16, c: uint16): uint16
  {
    Min(a, Min(b, c))
  }

  function MaxOf3(a: uint16, b: uint16, c: uint16): uint16
  {
    Max(a, Max(b, c))
  }

  /** The determinant `DrawTriangle` checks the winding with. */
  function Winding(a: Pixel, b: Pixel, c: Pixel): Fixed
  {
    RenderTargets.TriangleDeterminant(Whole(a), Whole(b), Whole(c))
  }

  /** The integer points of the bounding box, row by row. */
  function TriangleBox(a: Pixel, b: Pixel, c: Pixel): seq<Pixel>
  {
    BoxRows(MinOf3(a.x, b.x, c.x), MaxOf3(a.x, b.x, c.x), MinOf3(a.y, b.y, c.y), MaxOf3(a.y, b.y, c.y) + 1)
  }

  /** The points `DrawTriangle` writes, in the order it writes them: none for
      a triangle that does not wind counter-clockwise. */
  function TrianglePixels(a: Pixel, b: Pixel, c: Pixel): seq<Pixel>
  {
    if Winding(a, b, c) <= 0 then [] else CoveredIn(a, b, c, TriangleBox(a, b, c))
  }

  /** A point is written exactly when the triangle winds counter-clockwise,
      the point lies in the inclusive bounding box, and every edge admits it. */
  lemma TrianglePixelsMembers(a: Pixel, b: Pixel, c: Pixel, p: Pixel)
    ensures p in TrianglePixels(a, b, c) <==>
      Winding(a, b, c) > 0
      && MinOf3(a.x, b.x, c.x) <= p.x <= MaxOf3(a.x, b.x, c.x)
      && MinOf3(a.y, b.y, c.y) <= p.y <= MaxOf3(a.y, b.y, c.y)
      && EdgeAdmits(b, c, p) && EdgeAdmits(c, a, p) && EdgeAdmits(a, b, p)
  {
    CoversIff(a, b, c, p);
    if Winding(a, b, c) > 0 {
      BoxMembers(a, b, c, p);
    }
  }

  /** The box's points that pass the edges are the points written. */
  lemma BoxMembers(a: Pixel, b: Pixel, c: Pixel, p: Pixel)
    ensures p in CoveredIn(a, b, c, TriangleBox(a, b, c)) <==>
      MinOf3(a.x, b.x, c.x) <= p.x <= MaxOf3(a.x, b.x, c.x)
      && MinOf3(a.y, b.y, c.y) <= p.y <= MaxOf3(a.y, b.y, c.y)
      && Covers(a, b, c, p)
  {
    CoveredInMembers(a, b, c, TriangleBox(a, b, c), p);
    BoxRowsMembers(MinOf3(a.x, b.x, c.x), MaxOf3(a.x, b.x, c.x), MinOf3(a.y, b.y, c.y), MaxOf3(a.y, b.y, c.y) + 1, p);
  }

  /** The winding test is the sign of the integer determinant. */
  lemma WindingIsIntDeterminant(a: Pixel, b: Pixel, c: Pixel)
    ensures Winding(a, b, c) > 0 <==> IntDeterminant(a, b, c) > 0
  {
    WholeDeterminant(a, b, c);
  }

  /** Where every written point has its entry, so has every covered point of
      each row of the box. */
  lemma RowInside(a: Pixel, b: Pixel, c: Pixel, y: uint16, width: nat, length: nat)
    requires Winding(a, b, c) > 0 && AllInside(width, length, TrianglePixels(a, b, c))
    requires MinOf3(a.y, b.y, c.y) <= y <= MaxOf3(a.y, b.y, c.y)
    ensures forall x: uint16 | MinOf3(a.x, b.x, c.x) <= x <= MaxOf3(a.x, b.x, c.x) && Covers(a, b, c, Pixel(x, y)) ::
      Index(width, Pixel(x, y)) < length
  {
    var written := TrianglePixels(a, b, c);
    forall x: uint16 | MinOf3(a.x, b.x, c.x) <= x <= MaxOf3(a.x, b.x, c.x) && Covers(a, b, c, Pixel(x, y))
      ensures Index(width, Pixel(x, y)) < length
    {
      BoxMembers(a, b, c, Pixel(x, y));
      var i :| 0 <= i < |written| && written[i] == Pixel(x, y);
    }
  }

  // ---------------------------------------------------------------------
  // The samples of the line

  /** The number of steps of `DrawLine`: the side length converted to a
      `uint16_t` (whole part, modulo 2^16). */
  function LineSteps(a: Vector2, b: Vector2): uint16
  {
    ToUint16(ToInt(SideLength(a, b)))
  }

  /** The pixels `DrawLine` visits: `LineSteps + 1` samples one increment
      apart, each truncated to its pixel. */
  function LegacyLineSamples(a: Vector2, b: Vector2): (r: seq<Pixel>)
    requires a != b
    ensures |r| == LineSteps(a, b) + 1
    ensures forall i | 0 <= i < |r| :: r[i] == PixelOf(LinePoint(a, b, i))
  {
    seq(LineSteps(a, b) + 1, i requires 0 <= i => PixelOf(LinePoint(a, b, i)))
  }

  /** Below 2^16 units, the `uint16_t` step count loses nothing: the line is
      the render target's. */
  lemma LegacyLineIsTargetLine(a: Vector2, b: Vector2)
    requires a != b && ToInt(SideLength(a, b)) < 0x1_0000
    ensures LegacyLineSamples(a, b) == LineSamples(a, b)
  {
  }

  /** Every pixel of the sequence has an entry in a buffer of `length` entries. */
  predicate AllInside(width: nat, length: nat, pixels: seq<Pixel>)
  {
    forall i | 0 <= i < |pixels| :: Index(width, pixels[i]) < length
  }

  // ---------------------------------------------------------------------
  // Writes that cannot fail

  /** The writes of a solid fill painted so far, where each lies inside the
      buffer, extended by one more. */
  lemma FillStep(before: seq<Colour>, width: nat, done: seq<Pixel>, p: Pixel, colour: Colour,
                 current: seq<Colour>)
    requires Paint(before, width, Solid(done, colour)) == Painted(current, Completed)
    requires Index(width, p) < |current|
    ensures Paint(before, width, Solid(done + [p], colour))
      == Painted(current[Index(width, p) := colour], Completed)
  {
    SolidSnoc(done, p, colour);
    PaintSnoc(before, width, Solid(done, colour), Stroke(p, Success(colour)));
  }

  /** A solid fill inside the buffer: each entry is the colour where some
      pixel addresses it, and keeps its value elsewhere. */
  lemma FillResult(before: seq<Colour>, width: nat, pixels: seq<Pixel>, colour: Colour, after: seq<Colour>)
    requires AllInside(width, |before|, pixels)
    requires Paint(before, width, Solid(pixels, colour)) == Painted(after, Completed)
    ensures |after| == |before|
    ensures forall j | 0 <= j < |after| ::
      after[j] == if WritesPixels(width, pixels, j) then colour else before[j]
  {
    PaintSolid(before, width, pixels, colour);
  }

  /** `(Width * y) + x` grows with both coordinates. */
  lemma IndexMonotone(width: nat, p: Pixel, q: Pixel)
    requires p.x <= q.x && p.y <= q.y
    ensures Index(width, p) <= Index(width, q)
  {
    assert width * q.y == width * p.y + width * (q.y - p.y);
  }

  /** Where the box's last entry exists, every entry of the box does. */
  lemma RectangleInside(x1: uint16, y1: uint16, x2: uint16, y2: uint16, width: nat, length: nat)
    requires x1 < 0xFFFF && x2 < 0xFFFF && y1 < 0xFFFF && y2 < 0xFFFF
    requires Index(width, Pixel(Max(x1, x2), Max(y1, y2))) < length
    ensures AllInside(width, length, RectanglePixels(x1, y1, x2, y2))
  {
    var pixels := RectanglePixels(x1, y1, x2, y2);
    forall i | 0 <= i < |pixels|
      ensures Index(width, pixels[i]) < length
    {
      RectangleIsBox(x1, y1, x2, y2, pixels[i]);
      IndexMonotone(width, pixels[i], Pixel(Max(x1, x2), Max(y1, y2)));
    }
  }

  // ---------------------------------------------------------------------
  // The renderer

  class LegacyRenderer {
    const Width: uint16
    const Height: uint16
    /** `m_frameBuffer`: one colour per pixel, row-major. */
    const FrameBuffer: array<Colour>
    /** The `DrawEntityMesh` calls made so far, in order; the wireframe they
        draw is not modelled. */
    var MeshCalls: seq<Renderers.MeshDraw>

    predicate Valid()
    {
      FrameBuffer.Length == Width * Height
    }

    /** A buffer of `Width * Height` entries, all the default background. */
    constructor(width: uint16, height: uint16)
      ensures Width == width && Height == height && Valid()
      ensures fresh(FrameBuffer) && MeshCalls == []
      ensures forall i | 0 <= i < FrameBuffer.Length :: FrameBuffer[i] == RenderTargets.DefaultBackground
    {
      Width, Height := width, height;
      FrameBuffer := new Colour[width * height](_ => RenderTargets.DefaultBackground);
      MeshCalls := [];
    }

    /** `std::fill` of the whole buffer. */
    method ClearBuffer(colour: Colour)
      modifies FrameBuffer
      ensures forall i | 0 <= i < FrameBuffer.Length :: FrameBuffer[i] == colour
    {
      var i := 0;
      while i < FrameBuffer.Length
        invariant 0 <= i <= FrameBuffer.Length
        invariant forall k | 0 <= k < i :: FrameBuffer[k] == colour
      {
        FrameBuffer[i] := colour;
        i := i + 1;
      }
    }

    /** `ClearBuffer()` with no colour: opaque black. */
    method ClearBufferToDefault()
      modifies FrameBuffer
      ensures forall i | 0 <= i < FrameBuffer.Length :: FrameBuffer[i] == RenderTargets.DefaultBackground
    {
      ClearBuffer(RenderTargets.DefaultBackground);
    }

    /** An unchecked write of entry `(Width * y) + x`: the source indexes the
        vector without a bounds check, so the entry must exist. */
    method DrawPixel(x: uint16, y: uint16, colour: Colour)
      requires Index(Width, Pixel(x, y)) < FrameBuffer.Length
      modifies FrameBuffer
      ensures FrameBuffer[..] == old(FrameBuffer[..])[Index(Width, Pixel(x, y)) := colour]
    {
      FrameBuffer[Width * y + x] := colour;
    }

    ghost predicate FilledSoFar(before: seq<Colour>, pixels: seq<Pixel>, colour: Colour)
      reads FrameBuffer
    {
      Paint(before, Width, Solid(pixels, colour)) == Painted(FrameBuffer[..], Completed)
    }

    /** The inner loop of `DrawRectangle`: columns `minX..maxX` of row `y`. */
    method DrawRectangleRow(ghost before: seq<Colour>, minX: uint16, maxX: uint16, minY: uint16, y: uint16,
                            colour: Colour)
      requires minX <= maxX < 0xFFFF && minY <= y
      requires Index(Width, Pixel(maxX, y)) < FrameBuffer.Length
      requires FilledSoFar(before, BoxRows(minX, maxX, minY, y), colour)
      modifies FrameBuffer
      ensures FilledSoFar(before, BoxRows(minX, maxX, minY, y + 1), colour)
    {
      BoxRowEnds(minX, maxX, minY, y, colour);
      ghost var rows := BoxRows(minX, maxX, minY, y);
      var x := minX;
      while x <= maxX
        invariant minX <= x <= maxX + 1
        invariant FilledSoFar(before, rows + Span(y, minX, x), colour)
      {
        ghost var current := FrameBuffer[..];
        IndexMonotone(Width, Pixel(x, y), Pixel(maxX, y));
        DrawPixel(x, y, colour);
        assert rows + Span(y, minX, x + 1) == (rows + Span(y, minX, x)) + [Pixel(x, y)];
        FillStep(before, Width, rows + Span(y, minX, x), Pixel(x, y), colour, current);
        x := x + 1;
      }
    }

    /** Fills the inclusive box between the corners, row by row. The box's
        last entry must exist, and the `uint16_t` loop counters never pass a
        bound of `0xFFFF`, so the source loops forever on such a corner. */
    method DrawRectangle(x1: uint16, y1: uint16, x2: uint16, y2: uint16, colour: Colour)
      requires x1 < 0xFFFF && x2 < 0xFFFF && y1 < 0xFFFF && y2 < 0xFFFF
      requires Index(Width, Pixel(Max(x1, x2), Max(y1, y2))) < FrameBuffer.Length
      modifies FrameBuffer
      ensures forall j | 0 <= j < FrameBuffer.Length ::
        FrameBuffer[j] == if WritesPixels(Width, RectanglePixels(x1, y1, x2, y2), j) then colour
                          else old(FrameBuffer[j])
    {
      var minX, maxX, minY, maxY := Min(x1, x2), Max(x1, x2), Min(y1, y2), Max(y1, y2);
      ghost var before := FrameBuffer[..];
      var y := minY;
      while y <= maxY
        invariant minY <= y <= maxY + 1
        invariant FilledSoFar(before, BoxRows(minX, maxX, minY, y), colour)
      {
        IndexMonotone(Width, Pixel(maxX, y), Pixel(maxX, maxY));
        DrawRectangleRow(before, minX, maxX, minY, y, colour);
        y := y + 1;
      }
      RectangleInside(x1, y1, x2, y2, Width, |before|);
      FillResult(before, Width, RectanglePixels(x1, y1, x2, y2), colour, FrameBuffer[..]);
    }

    /** The DDA line: both ends moved to pixel centres, `LineSteps + 1`
        samples one increment apart, each truncated to its pixel. Equal ends
        divide by a zero side length, which the model reports as
        `DivisionByZero`; otherwise every sample must be inside the buffer and
        the `uint16_t` counter must be able to pass the step count. */
    method DrawLine(a: Vector2, b: Vector2, colour: Colour) returns (outcome: Outcome)
      requires a != b ==> LineSteps(a, b) < 0xFFFF && AllInside(Width, FrameBuffer.Length, LegacyLineSamples(a, b))
      modifies FrameBuffer
      ensures a == b ==> outcome == Failed(DivisionByZero) && FrameBuffer[..] == old(FrameBuffer[..])
      ensures a != b ==> outcome == Completed
      ensures a != b ==> forall j | 0 <= j < FrameBuffer.Length ::
        FrameBuffer[j] == if WritesPixels(Width, LegacyLineSamples(a, b), j) then colour else old(FrameBuffer[j])
    {
      var start, end := LineStart(a), LineStart(b);
      var deltaX, deltaY := end.x - start.x, end.y - start.y;
      var sideLength := if Abs(deltaX) >= Abs(deltaY) then Abs(deltaX) else Abs(deltaY);
      assert sideLength == SideLength(a, b);
      if sideLength == 0 {
        return Failed(DivisionByZero);
      }
      var xIncrement, yIncrement := Div(deltaX, sideLength), Div(deltaY, sideLength);
      assert Vector2(xIncrement, yIncrement) == LineIncrement(a, b);
      ghost var before := FrameBuffer[..];
      ghost var samples := LegacyLineSamples(a, b);
      var currentX, currentY := start.x, start.y;
      var steps := ToUint16(ToInt(sideLength));
      var i := 0;
      while i <= steps
        invariant 0 <= i <= steps + 1 == |samples|
        invariant Vector2(currentX, currentY) == LinePoint(a, b, i)
        invariant FilledSoFar(before, samples[..i], colour)
      {
        ghost var current := FrameBuffer[..];
        DrawPixel(ToUint16(ToInt(currentX)), ToUint16(ToInt(currentY)), colour);
        assert samples[..i + 1] == samples[..i] + [samples[i]];
        FillStep(before, Width, samples[..i], samples[i], colour, current);
        LinePointStep(a, b, i);
        currentX, currentY := currentX + xIncrement, currentY + yIncrement;
        i := i + 1;
      }
      assert samples[..i] == samples;
      FillResult(before, Width, samples, colour, FrameBuffer[..]);
      outcome := Completed;
    }

    /** One point of the box: the three edge values, the top-left bias, and
        the write when all three are non-negative. */
    method DrawTrianglePoint(ghost before: seq<Colour>, a: Pixel, b: Pixel, c: Pixel, ghost done: seq<Pixel>,
                             point: Pixel, colour: Colour)
      requires Covers(a, b, c, point) ==> Index(Width, point) < FrameBuffer.Length
      requires FilledSoFar(before, CoveredIn(a, b, c, done), colour)
      modifies FrameBuffer
      ensures FilledSoFar(before, CoveredIn(a, b, c, done + [point]), colour)
    {
      var pa, pb, pc, pp := Whole(a), Whole(b), Whole(c), Whole(point);
      var edgeX := RenderTargets.TriangleDeterminant(pb, pc, pp);
      var edgeY := RenderTargets.TriangleDeterminant(pc, pa, pp);
      var edgeZ := RenderTargets.TriangleDeterminant(pa, pb, pp);
      if RenderTargets.IsTriangleEdgeLeftOrTop(pb, pc) {
        edgeX := edgeX - One;
      }
      if RenderTargets.IsTriangleEdgeLeftOrTop(pc, pa) {
        edgeY := edgeY - One;
      }
      if RenderTargets.IsTriangleEdgeLeftOrTop(pa, pb) {
        edgeZ := edgeZ - One;
      }
      assert edgeX == EdgeValue(b, c, point) && edgeY == EdgeValue(c, a, point) && edgeZ == EdgeValue(a, b, point);
      CoveredInSnoc(a, b, c, done, point);
      if edgeX >= 0 && edgeY >= 0 && edgeZ >= 0 {
        ghost var current := FrameBuffer[..];
        DrawPixel(point.x, point.y, colour);
        FillStep(before, Width, CoveredIn(a, b, c, done), point, colour, current);
      } else {
        assert CoveredIn(a, b, c, done + [point]) == CoveredIn(a, b, c, done);
      }
    }

    /** The inner loop of `DrawTriangle`: columns `minX..maxX` of row `y`. */
    method DrawTriangleRow(ghost before: seq<Colour>, a: Pixel, b: Pixel, c: Pixel,
                           minX: uint16, maxX: uint16, minY: uint16, y: uint16, colour: Colour)
      requires minX <= maxX < 0xFFFF && minY <= y
      requires forall x: uint16 | minX <= x <= maxX && Covers(a, b, c, Pixel(x, y)) ::
        Index(Width, Pixel(x, y)) < FrameBuffer.Length
      requires FilledSoFar(before, CoveredIn(a, b, c, BoxRows(minX, maxX, minY, y)), colour)
      modifies FrameBuffer
      ensures FilledSoFar(before, CoveredIn(a, b, c, BoxRows(minX, maxX, minY, y + 1)), colour)
    {
      ghost var rows := BoxRows(minX, maxX, minY, y);
      assert rows + Span(y, minX, minX) == rows;
      var x := minX;
      while x <= maxX
        invariant minX <= x <= maxX + 1
        invariant FilledSoFar(before, CoveredIn(a, b, c, rows + Span(y, minX, x)), colour)
      {
        DrawTrianglePoint(before, a, b, c, rows + Span(y, minX, x), Pixel(x, y), colour);
        assert rows + Span(y, minX, x + 1) == (rows + Span(y, minX, x)) + [Pixel(x, y)];
        x := x + 1;
      }
    }

    /** `DrawTriangle`: a triangle that does not wind counter-clockwise writes
        nothing; otherwise every integer point of the inclusive bounding box
        is visited, row by row, and written when it passes all three edges.
        Every point written must have its entry. The points are modelled as
        `Pixel`s, so the `auto` box counters are taken to be `uint16_t`
        (the coordinate type of `IntPoint2D` is not part of this model); they
        must be able to pass the box's far bounds. */
    method DrawTriangle(a: Pixel, b: Pixel, c: Pixel, colour: Colour)
      requires Winding(a, b, c) > 0 ==>
        MaxOf3(a.x, b.x, c.x) < 0xFFFF && MaxOf3(a.y, b.y, c.y) < 0xFFFF
        && AllInside(Width, FrameBuffer.Length, TrianglePixels(a, b, c))
      modifies FrameBuffer
      ensures Winding(a, b, c) <= 0 ==> FrameBuffer[..] == old(FrameBuffer[..])
      ensures forall j | 0 <= j < FrameBuffer.Length ::
        FrameBuffer[j] == if WritesPixels(Width, TrianglePixels(a, b, c), j) then colour else old(FrameBuffer[j])
    {
      ghost var before := FrameBuffer[..];
      if RenderTargets.TriangleDeterminant(Whole(a), Whole(b), Whole(c)) <= 0 {
        return;
      }
      var minX, minY := MinOf3(a.x, b.x, c.x), MinOf3(a.y, b.y, c.y);
      var maxX, maxY := MaxOf3(a.x, b.x, c.x), MaxOf3(a.y, b.y, c.y);
      var y := minY;
      while y <= maxY
        invariant minY <= y <= maxY + 1
        invariant FilledSoFar(before, CoveredIn(a, b, c, BoxRows(minX, maxX, minY, y)), colour)
      {
        RowInside(a, b, c, y, Width, FrameBuffer.Length);
        DrawTriangleRow(before, a, b, c, minX, maxX, minY, y, colour);
        y := y + 1;
      }
      FillResult(before, Width, TrianglePixels(a, b, c), colour, FrameBuffer[..]);
    }

    /** `DrawEntityMesh`: the call is recorded; its wireframe is not modelled. */
    method DrawEntityMesh(entity: Renderers.Entity, mesh: Renderers.SceneMesh)
      modifies this
      ensures MeshCalls == old(MeshCalls) + [Renderers.MeshDraw(entity, mesh)]
    {
      MeshCalls := MeshCalls + [Renderers.MeshDraw(entity, mesh)];
    }

    /** `DrawEntityTreeMeshes`: the children's trees in vector order, then the
        entity's own meshes in vector order. */
    method DrawEntityTreeMeshes(root: Renderers.Entity)
      modifies this
      ensures MeshCalls == old(MeshCalls) + Renderers.DrawOrder(root)
      decreases root
    {
      ghost var calls := MeshCalls;
      var i := 0;
      while i < |root.children|
        invariant 0 <= i <= |root.children|
        invariant MeshCalls == calls + Renderers.ChildrenOrder(root, i)
      {
        DrawEntityTreeMeshes(root.children[i]);
        Meshes.AppendAssociates(calls, Renderers.ChildrenOrder(root, i), Renderers.DrawOrder(root.children[i]));
        i := i + 1;
      }
      ghost var children := Renderers.ChildrenOrder(root, |root.children|);
      Renderers.AppendNothing(children, Renderers.OwnMeshes(root, 0));
      var j := 0;
      while j < |root.meshes|
        invariant 0 <= j <= |root.meshes|
        invariant MeshCalls == calls + (children + Renderers.OwnMeshes(root, j))
      {
        DrawEntityMesh(root, root.meshes[j]);
        Renderers.OwnMeshStep(root, j);
        Meshes.AppendAssociates(calls, children + Renderers.OwnMeshes(root, j), [Renderers.MeshDraw(root, root.meshes[j])]);
        j := j + 1;
      }
    }
  }
}
