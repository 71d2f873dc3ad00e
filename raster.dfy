/** What the rasterisers write into a flat, row-major colour buffer: the
    pixel sequences of rectangles and lines, and a fold that applies colour
    writes in order and stops at the first one that faults (an exception or an
    undefined division in the drawing code). */
module Raster {
  import opened Wrappers
  import opened FixedPoint
  import opened MathTypes

  /** Why a drawing operation stopped early: an index rejected by a
      bounds-checked access, a division by zero, or a null pointer
      dereferenced (undefined in C++; the frame is taken to stop there). */
  datatype Fault = OutOfRange | DivisionByZero | NullPointer

  datatype Outcome = Completed | Failed(fault: Fault)

  datatype Pixel = Pixel(x: uint16, y: uint16)

  /** One pixel write: the colour, or the fault met while computing it. */
  datatype Stroke = Stroke(at: Pixel, colour: Result<Colour, Fault>)

  datatype Painted = Painted(buffer: seq<Colour>, outcome: Outcome)

  /** The flat index `(width * y) + x` of a pixel. */
  function Index(width: int, p: Pixel): int
  {
    width * p.y + p.x
  }

  /** One write: a faulty colour stops, an index past the end stops with
      `OutOfRange`, otherwise the entry is replaced. */
  function Apply(buffer: seq<Colour>, width: nat, s: Stroke): (r: Painted)
    ensures |r.buffer| == |buffer|
    ensures r.outcome.Completed? <==> s.colour.Success? && Index(width, s.at) < |buffer|
    ensures r.outcome.Completed? ==> r.buffer == buffer[Index(width, s.at) := s.colour.value]
    ensures r.outcome.Failed? ==> r.buffer == buffer
  {
    match s.colour
    case Failure(f) => Painted(buffer, Failed(f))
    case Success(c) =>
      var i := Index(width, s.at);
      if i < |buffer| then Painted(buffer[i := c], Completed)
      else Painted(buffer, Failed(OutOfRange))
  }

  /** The writes applied in order; the first fault leaves the buffer as the
      earlier writes made it. */
  function Paint(buffer: seq<Colour>, width: nat, strokes: seq<Stroke>): (r: Painted)
    ensures |r.buffer| == |buffer|
    decreases |strokes|
  {
    if |strokes| == 0 then Painted(buffer, Completed)
    else
      var before := Paint(buffer, width, strokes[..|strokes| - 1]);
      if before.outcome.Failed? then before
      else Apply(before.buffer, width, strokes[|strokes| - 1])
  }

  /** Every pixel in one colour. */
  function Solid(pixels: seq<Pixel>, colour: Colour): (r: seq<Stroke>)
    ensures |r| == |pixels|
  {
    seq(|pixels|, i requires 0 <= i < |pixels| => Stroke(pixels[i], Success(colour)))
  }

  ghost predicate Writes(width: nat, strokes: seq<Stroke>, j: int)
  {
    exists i | 0 <= i < |strokes| :: Index(width, strokes[i].at) == j
  }

  ghost predicate WritesPixels(width: nat, pixels: seq<Pixel>, j: int)
  {
    exists i | 0 <= i < |pixels| :: Index(width, pixels[i]) == j
  }

  /** Painting leaves every entry that no write addresses as it was. */
  lemma {:induction false} PaintWritesOnlyStrokes(buffer: seq<Colour>, width: nat,
                                                  strokes: seq<Stroke>, j: int)
    requires 0 <= j < |buffer| && !Writes(width, strokes, j)
    ensures Paint(buffer, width, strokes).buffer[j] == buffer[j]
    decreases |strokes|
  {
    if |strokes| > 0 {
      var prefix := strokes[..|strokes| - 1];
      PaintWritesOnlyStrokes(buffer, width, prefix, j);
      assert Index(width, strokes[|strokes| - 1].at) != j;
    }
  }

  /** Painting completes exactly when no write faults and every index is in range. */
  lemma {:induction false} PaintCompletes(buffer: seq<Colour>, width: nat, strokes: seq<Stroke>)
    ensures Paint(buffer, width, strokes).outcome.Completed? <==>
      forall i | 0 <= i < |strokes| ::
        strokes[i].colour.Success? && Index(width, strokes[i].at) < |buffer|
    decreases |strokes|
  {
    if |strokes| > 0 {
      var prefix := strokes[..|strokes| - 1];
      PaintCompletes(buffer, width, prefix);
      forall i | 0 <= i < |prefix|
        ensures prefix[i] == strokes[i]
      {
      }
    }
  }

  /** No write of `strokes` faults on a buffer of `n` entries, `width` wide:
      painting them completes, whatever the entries hold. */
  predicate Completes(n: nat, width: nat, strokes: seq<Stroke>)
  {
    forall i | 0 <= i < |strokes| :: strokes[i].colour.Success? && Index(width, strokes[i].at) < n
  }

  /** Writes one after another complete exactly when each run does. */
  lemma CompletesAppend(n: nat, width: nat, front: seq<Stroke>, back: seq<Stroke>)
    ensures Completes(n, width, front + back) <==> Completes(n, width, front) && Completes(n, width, back)
  {
    if Completes(n, width, front) && Completes(n, width, back) {
      forall i | 0 <= i < |front + back|
        ensures (front + back)[i].colour.Success? && Index(width, (front + back)[i].at) < n
      {
        if i >= |front| {
          assert (front + back)[i] == back[i - |front|];
        }
      }
    }
    if Completes(n, width, front + back) {
      forall i | 0 <= i < |front|
        ensures front[i].colour.Success? && Index(width, front[i].at) < n
      {
        assert (front + back)[i] == front[i];
      }
      forall i | 0 <= i < |back|
        ensures back[i].colour.Success? && Index(width, back[i].at) < n
      {
        assert (front + back)[|front| + i] == back[i];
      }
    }
  }

  /** A solid fill that stays in range paints exactly the named pixels. */
  lemma {:induction false} PaintSolid(buffer: seq<Colour>, width: nat, pixels: seq<Pixel>,
                                      colour: Colour)
    requires forall i | 0 <= i < |pixels| :: Index(width, pixels[i]) < |buffer|
    ensures Paint(buffer, width, Solid(pixels, colour)).outcome == Completed
    ensures forall j | 0 <= j < |buffer| ::
      Paint(buffer, width, Solid(pixels, colour)).buffer[j]
        == if WritesPixels(width, pixels, j) then colour else buffer[j]
    decreases |pixels|
  {
    if |pixels| > 0 {
      var prefix := pixels[..|pixels| - 1];
      assert Solid(pixels, colour)[..|pixels| - 1] == Solid(prefix, colour);
      PaintSolid(buffer, width, prefix, colour);
      forall j | 0 <= j < |buffer|
        ensures WritesPixels(width, pixels, j) <==>
          WritesPixels(width, prefix, j) || Index(width, pixels[|pixels| - 1]) == j
      {
        if WritesPixels(width, pixels, j) && Index(width, pixels[|pixels| - 1]) != j {
          var i :| 0 <= i < |pixels| && Index(width, pixels[i]) == j;
          assert prefix[i] == pixels[i];
        }
        if WritesPixels(width, prefix, j) {
          var i :| 0 <= i < |prefix| && Index(width, prefix[i]) == j;
          assert prefix[i] == pixels[i];
        }
      }
    }
  }

  /** Writes that all fault change nothing: the first one stops the fold. */
  lemma {:induction false} PaintFaults(buffer: seq<Colour>, width: nat, strokes: seq<Stroke>)
    requires forall i | 0 <= i < |strokes| :: strokes[i].colour.Failure?
    ensures Paint(buffer, width, strokes)
      == if |strokes| == 0 then Painted(buffer, Completed) else Painted(buffer, Failed(strokes[0].colour.error))
    decreases |strokes|
  {
    if |strokes| > 0 {
      var prefix := strokes[..|strokes| - 1];
      PaintFaults(buffer, width, prefix);
      if |prefix| > 0 {
        assert prefix[0] == strokes[0];
      }
    }
  }

  /** One more write extends the fold by one step. */
  lemma PaintSnoc(buffer: seq<Colour>, width: nat, strokes: seq<Stroke>, s: Stroke)
    ensures Paint(buffer, width, strokes + [s])
      == if Paint(buffer, width, strokes).outcome.Failed? then Paint(buffer, width, strokes)
         else Apply(Paint(buffer, width, strokes).buffer, width, s)
  {
    assert (strokes + [s])[..|strokes|] == strokes;
  }

  /** Once a write has faulted, later writes change nothing: a fold whose
      prefix failed gives the prefix's result. */
  lemma {:induction false} PaintAfterFault(buffer: seq<Colour>, width: nat,
                                           done: seq<Stroke>, all: seq<Stroke>)
    requires done <= all && Paint(buffer, width, done).outcome.Failed?
    ensures Paint(buffer, width, all) == Paint(buffer, width, done)
    decreases |all|
  {
    if |all| > |done| {
      var prefix := all[..|all| - 1];
      assert done <= prefix;
      PaintAfterFault(buffer, width, done, prefix);
    } else {
      assert all == done;
    }
  }

  /** One loop step of a rasteriser: a write that completes extends the fold,
      and one that faults fixes the result of every longer run. */
  lemma PaintStep(buffer: seq<Colour>, width: nat, done: seq<Stroke>, s: Stroke, all: seq<Stroke>,
                  current: seq<Colour>, next: Painted)
    requires Paint(buffer, width, done) == Painted(current, Completed)
    requires next == Apply(current, width, s) && done + [s] <= all
    ensures next.outcome.Completed? ==> Paint(buffer, width, done + [s]) == next
    ensures next.outcome.Failed? ==> Paint(buffer, width, all) == next
  {
    PaintSnoc(buffer, width, done, s);
    if next.outcome.Failed? {
      PaintAfterFault(buffer, width, done + [s], all);
    }
  }

  /** Two runs of writes one after the other: the second starts from what the
      first left, unless the first faulted. */
  lemma {:induction false} PaintAppend(buffer: seq<Colour>, width: nat, front: seq<Stroke>, back: seq<Stroke>)
    ensures Paint(buffer, width, front + back)
      == if Paint(buffer, width, front).outcome.Failed? then Paint(buffer, width, front)
         else Paint(Paint(buffer, width, front).buffer, width, back)
    decreases |back|
  {
    if |back| == 0 {
      assert front + back == front;
    } else {
      var init, last := back[..|back| - 1], back[|back| - 1];
      assert front + back == (front + init) + [last];
      assert back == init + [last];
      PaintAppend(buffer, width, front, init);
      PaintSnoc(buffer, width, front + init, last);
      PaintSnoc(Paint(buffer, width, front).buffer, width, init, last);
    }
  }

  /** One write per pixel, each with the outcome `shade` gives it. */
  function Shaded(pixels: seq<Pixel>, shade: Pixel -> Result<Colour, Fault>): (r: seq<Stroke>)
    ensures |r| == |pixels|
  {
    seq(|pixels|, i requires 0 <= i < |pixels| => Stroke(pixels[i], shade(pixels[i])))
  }

  lemma ShadedSnoc(pixels: seq<Pixel>, p: Pixel, shade: Pixel -> Result<Colour, Fault>)
    ensures Shaded(pixels + [p], shade) == Shaded(pixels, shade) + [Stroke(p, shade(p))]
  {
    var left, right := Shaded(pixels + [p], shade), Shaded(pixels, shade) + [Stroke(p, shade(p))];
    forall i | 0 <= i < |left|
      ensures left[i] == right[i]
    {
      if i < |pixels| {
        assert (pixels + [p])[i] == pixels[i];
      }
    }
  }

  lemma ShadedPrefix(done: seq<Pixel>, all: seq<Pixel>, shade: Pixel -> Result<Colour, Fault>)
    requires done <= all
    ensures Shaded(done, shade) <= Shaded(all, shade)
  {
    assert Shaded(done, shade) == Shaded(all, shade)[..|done|];
  }

  lemma SolidSnoc(pixels: seq<Pixel>, p: Pixel, colour: Colour)
    ensures Solid(pixels + [p], colour) == Solid(pixels, colour) + [Stroke(p, Success(colour))]
  {
  }

  lemma SolidPrefix(done: seq<Pixel>, all: seq<Pixel>, colour: Colour)
    requires done <= all
    ensures Solid(done, colour) <= Solid(all, colour)
  {
    assert Solid(done, colour) == Solid(all, colour)[..|done|];
  }

  // ---------------------------------------------------------------------
  // Pixel sequences

  /** Row `y` from column `from` up to but excluding column `to`. */
  function Span(y: uint16, from: nat, to: nat): (r: seq<Pixel>)
    requires to <= 0x1_0000
    ensures |r| == if from < to then to - from else 0
    ensures forall i | 0 <= i < |r| :: r[i] == Pixel(from + i, y)
  {
    if to <= from then [] else Span(y, from, to - 1) + [Pixel(to - 1, y)]
  }

  /** Columns `minX..maxX` of rows `minY` up to but excluding `endY`, row by row. */
  function BoxRows(minX: nat, maxX: nat, minY: nat, endY: nat): seq<Pixel>
    requires maxX < 0x1_0000 && endY <= 0x1_0000
  {
    if endY <= minY then []
    else BoxRows(minX, maxX, minY, endY - 1) + Span(endY - 1, minX, maxX + 1)
  }

  lemma {:induction false} BoxRowsMembers(minX: nat, maxX: nat, minY: nat, endY: nat, p: Pixel)
    requires maxX < 0x1_0000 && endY <= 0x1_0000
    ensures p in BoxRows(minX, maxX, minY, endY) <==>
      minX <= p.x <= maxX && minY <= p.y < endY
    decreases endY
  {
    if endY > minY {
      BoxRowsMembers(minX, maxX, minY, endY - 1, p);
      var row := Span(endY - 1, minX, maxX + 1);
      if p.y == endY - 1 && minX <= p.x <= maxX {
        assert row[p.x - minX] == p;
      }
    }
  }

  lemma SpanPrefix(y: uint16, from: nat, to: nat, end: nat)
    requires to <= end <= 0x1_0000
    ensures Span(y, from, to) <= Span(y, from, end)
  {
    assert Span(y, from, to) == Span(y, from, end)[..|Span(y, from, to)|];
  }

  /** The rows visited so far, then a part of the current row, are where the
      whole box starts. */
  lemma {:induction false} BoxRowsPrefix(minX: nat, maxX: nat, minY: nat, y: nat, x: nat, endY: nat)
    requires maxX < 0x1_0000 && endY <= 0x1_0000 && minY <= y < endY && x <= maxX + 1
    ensures BoxRows(minX, maxX, minY, y) + Span(y, minX, x) <= BoxRows(minX, maxX, minY, endY)
    decreases endY
  {
    if endY == y + 1 {
      SpanPrefix(y, minX, x, maxX + 1);
    } else {
      BoxRowsPrefix(minX, maxX, minY, y, x, endY - 1);
    }
  }

  /** One step of a row-by-row fill of the box: the strokes so far plus the
      next pixel are the strokes up to the next column, and start the strokes
      of the whole box. */
  lemma BoxStep(minX: nat, maxX: nat, minY: nat, y: nat, x: nat, endY: nat, colour: Colour)
    requires maxX < 0x1_0000 && endY <= 0x1_0000 && minY <= y < endY && minX <= x <= maxX
    ensures Solid(BoxRows(minX, maxX, minY, y) + Span(y, minX, x + 1), colour)
      == Solid(BoxRows(minX, maxX, minY, y) + Span(y, minX, x), colour) + [Stroke(Pixel(x, y), Success(colour))]
    ensures Solid(BoxRows(minX, maxX, minY, y) + Span(y, minX, x + 1), colour)
      <= Solid(BoxRows(minX, maxX, minY, endY), colour)
  {
    var done := BoxRows(minX, maxX, minY, y) + Span(y, minX, x);
    assert done + [Pixel(x, y)] == BoxRows(minX, maxX, minY, y) + Span(y, minX, x + 1);
    SolidSnoc(done, Pixel(x, y), colour);
    BoxRowsPrefix(minX, maxX, minY, y, x + 1, endY);
    SolidPrefix(done + [Pixel(x, y)], BoxRows(minX, maxX, minY, endY), colour);
  }

  /** A row of the box starts with no columns and ends with all of them. */
  lemma BoxRowEnds(minX: nat, maxX: nat, minY: nat, y: nat, colour: Colour)
    requires minX <= maxX < 0x1_0000 && minY <= y < 0x1_0000
    ensures Solid(BoxRows(minX, maxX, minY, y) + Span(y, minX, minX), colour) == Solid(BoxRows(minX, maxX, minY, y), colour)
    ensures Solid(BoxRows(minX, maxX, minY, y) + Span(y, minX, maxX + 1), colour)
      == Solid(BoxRows(minX, maxX, minY, y + 1), colour)
  {
    assert BoxRows(minX, maxX, minY, y) + Span(y, minX, minX) == BoxRows(minX, maxX, minY, y);
  }

  /** The pixels `DrawRectangle` visits: the inclusive box spanned by the
      two corners, row by row. */
  function RectanglePixels(x1: uint16, y1: uint16, x2: uint16, y2: uint16): seq<Pixel>
    requires x1 < 0xFFFF && x2 < 0xFFFF && y1 < 0xFFFF && y2 < 0xFFFF
  {
    BoxRows(Min(x1, x2), Max(x1, x2), Min(y1, y2), Max(y1, y2) + 1)
  }

  /** The box holds exactly the pixels between the corners, whichever corners
      are given first. */
  lemma RectangleIsBox(x1: uint16, y1: uint16, x2: uint16, y2: uint16, p: Pixel)
    requires x1 < 0xFFFF && x2 < 0xFFFF && y1 < 0xFFFF && y2 < 0xFFFF
    ensures p in RectanglePixels(x1, y1, x2, y2) <==>
      Min(x1, x2) <= p.x <= Max(x1, x2) && Min(y1, y2) <= p.y <= Max(y1, y2)
    ensures RectanglePixels(x1, y1, x2, y2) == RectanglePixels(x2, y2, x1, y1)
    ensures RectanglePixels(x1, y1, x2, y2) == RectanglePixels(x1, y2, x2, y1)
  {
    BoxRowsMembers(Min(x1, x2), Max(x1, x2), Min(y1, y2), Max(y1, y2) + 1, p);
  }

  /** The line's ends moved to pixel centres. */
  function LineStart(a: Vector2): Vector2
  {
    Vector2(a.x + Half, a.y + Half)
  }

  /** The longer of the two axis extents, which sets the number of steps. */
  function SideLength(a: Vector2, b: Vector2): (r: Fixed)
    ensures r >= 0
    ensures r == 0 <==> a == b
  {
    var dx, dy := b.x - a.x, b.y - a.y;
    if Abs(dx) >= Abs(dy) then Abs(dx) else Abs(dy)
  }

  /** The per-step increments `delta / sideLength`. */
  function LineIncrement(a: Vector2, b: Vector2): Vector2
    requires a != b
  {
    Vector2(Div(b.x - a.x, SideLength(a, b)), Div(b.y - a.y, SideLength(a, b)))
  }

  /** The number of samples: the whole part of the side length, plus one. */
  function LineCount(a: Vector2, b: Vector2): (n: nat)
    ensures n >= 1
  {
    ToInt(SideLength(a, b)) + 1
  }

  /** The `i`-th sample position, which the loop reaches by adding the
      increment `i` times. */
  function LinePoint(a: Vector2, b: Vector2, i: nat): Vector2
    requires a != b
  {
    var start, step := LineStart(a), LineIncrement(a, b);
    Vector2(start.x + i * step.x, start.y + i * step.y)
  }

  /** Each sample is the previous one plus the increment. */
  lemma LinePointStep(a: Vector2, b: Vector2, i: nat)
    requires a != b
    ensures LinePoint(a, b, i + 1) == LinePoint(a, b, i).Plus(LineIncrement(a, b))
  {
    var step := LineIncrement(a, b);
    assert (i + 1) * step.x == i * step.x + step.x;
    assert (i + 1) * step.y == i * step.y + step.y;
  }

  /** A position truncated to the pixel that holds it. */
  function PixelOf(v: Vector2): Pixel
  {
    Pixel(ToUint16(ToInt(v.x)), ToUint16(ToInt(v.y)))
  }

  /** The pixels `DrawLine` visits. */
  function LineSamples(a: Vector2, b: Vector2): (r: seq<Pixel>)
    requires a != b
    ensures |r| == LineCount(a, b)
    ensures forall i | 0 <= i < |r| :: r[i] == PixelOf(LinePoint(a, b, i))
  {
    seq(LineCount(a, b), i requires 0 <= i => PixelOf(LinePoint(a, b, i)))
  }

  // Fixtures from the line-drawing tests.

  lemma DiagonalLineFixture()
    ensures LineSamples(Vector2(FromInt(1), FromInt(1)), Vector2(FromInt(5), FromInt(2)))
            == [Pixel(1, 1), Pixel(2, 1), Pixel(3, 2), Pixel(4, 2), Pixel(5, 2)]
  {
    var a, b := Vector2(FromInt(1), FromInt(1)), Vector2(FromInt(5), FromInt(2));
    assert SideLength(a, b) == FromInt(4);
    DivSelf(FromInt(4));
    assert LineIncrement(a, b) == Vector2(One, One / 4) by {
      assert Div(FromInt(1), FromInt(4)) == One / 4;
    }
  }

  lemma VerticalLineFixture()
    ensures LineSamples(Vector2(FromInt(3), 0), Vector2(FromInt(3), FromInt(3)))
            == [Pixel(3, 0), Pixel(3, 1), Pixel(3, 2), Pixel(3, 3)]
  {
    var a, b := Vector2(FromInt(3), 0), Vector2(FromInt(3), FromInt(3));
    assert SideLength(a, b) == FromInt(3);
    DivSelf(FromInt(3));
    assert LineIncrement(a, b) == Vector2(0, One);
  }

  lemma HorizontalLineFixture()
    ensures LineSamples(Vector2(0, FromInt(2)), Vector2(FromInt(7), FromInt(2)))
            == [Pixel(0, 2), Pixel(1, 2), Pixel(2, 2), Pixel(3, 2),
                Pixel(4, 2), Pixel(5, 2), Pixel(6, 2), Pixel(7, 2)]
  {
    var a, b := Vector2(0, FromInt(2)), Vector2(FromInt(7), FromInt(2));
    assert SideLength(a, b) == FromInt(7);
    DivSelf(FromInt(7));
    assert LineIncrement(a, b) == Vector2(One, 0);
  }
}
