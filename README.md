# UnnamedShooter software renderer, modelled in Dafny

UnnamedShooter is a small C++ game whose pictures come from its own software
renderer. This project models the renderer's core and states what it does:

- the 16.16 fixed-point algebra of vectors and 4x4 matrices (`MathTypes.h`),
  and its floating-point twin (`MathHelpers`);
- the textured triangle rasteriser and the pixel, rectangle and line writers of
  the render target;
- the per-face pipeline of the renderer: model-view transform, back-face cull,
  projection, screen mapping, and the walk over the entity tree;
- the first, brute-force renderer (`src/Renderer.cpp`), with its integer-point
  triangle filler;
- the OBJ mesh loader and the built-in meshes, in both versions;
- the PNG texture's pixel packing and lookup;
- the BMFont binary font reader behind `TextPainter`.

Modules follow the source files:

| module | file |
|---|---|
| `Wrappers` | `Option`/`Result` and the C++ unsigned ranges |
| `FixedPoint` | the fpm `fixed_16_16` scalar, as its raw integer |
| `MathTypes` | `src/MathTypes.h` |
| `MathHelpers` | `src/MathHelpers.cpp`, `src/MathHelpers.h` |
| `Texture` | `src/Texture/PngTexture.cpp` |
| `Raster` | the write model shared by both targets, and the pixel sequences of rectangles and lines |
| `RenderTargets` | `src/Renderer/RenderTarget.cpp` |
| `Meshes` | `src/Mesh/Mesh.cpp` |
| `Renderers` | `src/Renderer/Renderer.cpp` |
| `LegacyMeshes` | `src/Mesh.cpp` |
| `LegacyRenderers` | `src/Renderer.cpp` |
| `BitmapFonts` | `src/Painters/TextPainter.cpp` |

How the source is represented:

- A `FixedUnit` is its raw integer: the number `raw / 65536`. Multiplication
  and division round the way the fpm library's default does: the exact
  quotient is taken to one extra bit, then that bit is rounded away from zero.
- Drawing is described by the sequence of writes (`Stroke`s) an operation
  makes. `Raster.Paint` applies them in order to the row-major colour buffer.
  It stops at the first write that faults: a `.at()` index past the end
  (`OutOfRange`), or an integer division by zero (`DivisionByZero`).
- Each drawing method updates the buffer array in place. Its contract states
  that the new buffer and outcome are `Paint` of the old buffer with that
  method's writes. The lemmas then say which pixels those writes cover.
- Library calls whose results the model cannot compute are supplied as
  function values: fpm `sin`/`cos`/`tan`/`sqrt`/`pow`, Eigen normalisation and
  angle-axis rotation, and the float parsing of `>>`. Every lemma holds for
  any choice of them.
- Files are given as their contents: the font as bytes, the OBJ file as its
  lines, the PNG as the decoder's output.
- Both renderers write a frame buffer that depends on the draw order of the
  entity tree. `Renderers.DrawOrder` is that order: each child's tree first,
  in vector order, then the entity's own meshes.
- The BMFont reader has a partner, an encoder of font files (`EncodeFile`).
  The model proves that reading an encoded file gives back exactly the font
  its blocks describe.

Where the code and its evident intent part (the info block's font name), the
model follows the corrected reading and models the code as written beside it;
see "Findings".

## Model

| member | source | states |
|---|---|---|
| `Wrappers.ToUint16` | src/Renderer/RenderTarget.cpp:99-102 | a conversion to `uint16_t` keeps values below 2^16 and is otherwise congruent modulo 2^16 |
| `FixedPoint.FromInt` | src/pch.h:40-42 | `FixedUnit{ n }` is a whole value whose whole part is `n` |
| `FixedPoint.TDiv` | src/pch.h:40-42 | C++ division truncates toward zero: it agrees with Euclidean division on non-negative operands and gives a quotient that is zero or has the sign of the operands' product |
| `FixedPoint.Floor` | src/pch.h:40-42 | `fpm::floor` is the whole value `r` with `r <= x < r + 1` |
| `FixedPoint.Ceil` | src/pch.h:40-42 | `fpm::ceil` is the whole value `r` with `r - 1 < x <= r` |
| `FixedPoint.Abs` | src/pch.h:40-42 | `fpm::abs` is non-negative and is `x` or `-x` |
| `FixedPoint.Min` | src/pch.h:40-42 | `std::min` is one of its arguments and below both |
| `FixedPoint.Max` | src/pch.h:40-42 | `std::max` is one of its arguments and above both |
| `FixedPoint.MulIsRoundedQuotient` | src/pch.h:40-42 | the product is the exact product truncated to one extra bit and then rounded half away from zero |
| `FixedPoint.RoundHalfIsQuotientPlusRemainder` | src/pch.h:40-42 | the rounding step is the library's `v / 2 + v % 2` in C++ arithmetic |
| `FixedPoint.MulWholeLeft` | src/pch.h:40-42 | multiplying by a whole value `n` is exactly `n` times the other factor |
| `FixedPoint.MulWholeRight` | src/pch.h:40-42 | the same on the right |
| `FixedPoint.MulWholeShift` | src/pch.h:40-42 | with a whole left factor, adding whole units to the right factor shifts the product linearly |
| `FixedPoint.MulWholes` | src/pch.h:40-42 | the product of two whole values is their whole product, with nothing lost |
| `FixedPoint.MulOne` | src/pch.h:40-42 | one is neutral for `*` on both sides |
| `FixedPoint.MulZero` | src/pch.h:40-42 | zero annihilates on both sides |
| `FixedPoint.MulCommutes` | src/pch.h:40-42 | the rounded product is commutative |
| `FixedPoint.DivSelf` | src/pch.h:40-42 | a non-zero value divided by itself is one, its negation divided by it is minus one, and zero divided by it is zero |
| `FixedPoint.DivOne` | src/pch.h:40-42 | dividing by one changes nothing |
| `MathTypes.CrossAntisymmetric` | src/MathTypes.h:9-12 | swapping the operands of the 2D cross product negates it, and a vector crossed with itself is zero |
| `MathTypes.Vector3.Normalize` | src/MathTypes.h:36-44 | normalising is defined exactly when the length is non-zero (the source divides by the length) |
| `MathTypes.DotCommutes` | src/MathTypes.h:55-58 | the 3D dot product is commutative |
| `MathTypes.Dot4Unit` | src/MathTypes.h:203-211 | a row equal to a unit vector selects that component of the point it is dotted with |
| `MathTypes.Product` | src/MathTypes.h:121-201 | each entry of the matrix product is the dot product of a row of the left factor with a column of the right, as the unrolled source writes them |
| `MathTypes.IdentityIsLeftNeutral` | src/MathTypes.h:101-107 | the default-constructed identity times a matrix is that matrix |
| `MathTypes.IdentityIsRightNeutral` | src/MathTypes.h:121-201 | a matrix times the identity is that matrix |
| `MathTypes.IdentityTransform` | src/MathTypes.h:203-211 | the identity transforms every vector to itself |
| `MathTypes.TranslationMovesPoint` | src/MathTypes.h:243-251 | the translation matrix adds the position to a point with `w == 1` and keeps `w` |
| `MathTypes.AffineKeepsW` | src/MathTypes.h:203-211 | a matrix whose last row is `(0, 0, 0, 1)` keeps the `w` of every vector |
| `MathTypes.TransformsAreAffine` | src/MathTypes.h:243-281 | translation and the three Euler rotations have last row `(0, 0, 0, 1)` |
| `MathTypes.ProductOfAffine` | src/MathTypes.h:121-201 | the product of two such matrices is again one |
| `MathTypes.EulerRotationIsAffine` | src/MathTypes.h:283-286 | the composed Euler rotation is affine |
| `MathTypes.RotationKeepsAxis` | src/MathTypes.h:253-281 | each elementary rotation leaves its own axis fixed |
| `MathTypes.PerspectiveProjection` | src/MathTypes.h:213-226 | the projection exists exactly when `tan(fov / 2)` is non-zero and the planes differ, the two divisors of the source |
| `MathTypes.ProjectionWIsViewZ` | src/MathTypes.h:213-226 | the projection copies view-space `z` into clip-space `w` |
| `MathTypes.LookAtTakesEyeToOrigin` | src/MathTypes.h:228-241 | the look-at matrix sends the eye to the origin and keeps `w` |
| `MathTypes.ViewMatrixTakesEyeToOrigin` | src/MathTypes.h:228-241 | any matrix with rows `(r, -r·eye)` over the last row `(0, 0, 0, 1)` sends the eye to the origin, whatever the axes are |
| `MathTypes.RowCancelsEye` | src/MathTypes.h:235-237 | a row `(r, -r·eye)` sends the eye to zero |
| `MathTypes.LookAtIsAffine` | src/MathTypes.h:238-240 | the look-at matrix's last row is `(0, 0, 0, 1)` |
| `MathTypes.LerpEnds` | src/MathTypes.h:307-310 | `Lerp` is `a` at `t = 0`, `b` at `t = 1`, and `a` whenever both ends are `a` |
| `MathHelpers.PerspectiveProjectionTransformMatrix` | src/MathHelpers.cpp:18-29 | the float projection is finite exactly when `tan(fov / 2)` is non-zero and far differs from near |
| `MathHelpers.PerspectiveShape` | src/MathHelpers.cpp:18-29 | only the entries (0,0), (1,1), (2,2), (2,3) and (3,2) are set, so output `w` is input `z` |
| `MathHelpers.PerspectiveDepthRange` | src/MathHelpers.cpp:25-26 | the near plane maps to depth 0 and the far plane to depth `far`, equal to its `w` |
| `MathHelpers.ViewRowCancels` | src/MathHelpers.cpp:40-45 | a row `(r, -r·eye)` sends the eye to zero |
| `MathHelpers.LookAtTakesEyeToOrigin` | src/MathHelpers.cpp:31-47 | the float look-at sends the eye to the origin, whatever the normalisation gives |
| `MathHelpers.Translation` | src/MathHelpers.cpp:49-56 | the translation keeps the identity's last row |
| `MathHelpers.TranslationMovesPoint` | src/MathHelpers.cpp:49-56 | translation adds the position to every point |
| `MathHelpers.TranslationFixture` | test/MathTests.cpp:4-13 | (1, 1, 1, 1) translated by (1, 2, 3) is (2, 3, 4, 1) |
| `MathHelpers.RotationIsLinear` | src/MathHelpers.cpp:58-66 | the rotation matrix has no translation part and keeps `w`, whatever the angle-axis factors are |
| `MathHelpers.CrossIsOrthogonal` | src/MathHelpers.cpp:36-38 | the cross product is orthogonal to both factors |
| `MathHelpers.CrossProduct2DAntisymmetric` | src/MathHelpers.cpp:68-71 | the 2D cross product changes sign when its operands swap and is zero on equal ones |
| `MathHelpers.LinePlaneIntersect` | src/MathHelpers.cpp:73-87 | a point is returned exactly when the segment is not parallel to the plane and the crossing ratio lies in [0, 1]; that point is start plus ratio times the segment; a segment in the plane is the NaN case |
| `MathHelpers.IntersectionIsOnPlane` | src/MathHelpers.cpp:73-87 | a returned point lies on the plane |
| `MathHelpers.SegmentEndingOnPlane` | src/MathHelpers.cpp:73-87 | a segment that ends on the plane meets it at its end |
| `MathHelpers.LerpEnds` | src/MathHelpers.h:64-67 | the float `Lerp` is `a` at 0, `b` at 1, and `a` when both ends are `a` |
| `MathHelpers.LerpBounded` | src/MathHelpers.h:64-67 | for `a <= b` and `t` in [0, 1], `Lerp` lies between `a` and `b` |
| `Texture.PackRoundTrip` | src/Texture/PngTexture.cpp:58-62 | each of red, green, blue and alpha reads back from its byte of the packed `0xAARRGGBB` colour |
| `Texture.PixelBytesInRange` | src/Texture/PngTexture.cpp:53-57 | the four bytes read for column `j` of row `i` lie inside the decoded data |
| `Texture.PixelOffset` | src/Texture/PngTexture.cpp:53 | the byte offset of a pixel is `i * 4 * width + j * 4` and leaves room for its four bytes |
| `Texture.PackedRow` | src/Texture/PngTexture.cpp:51-64 | the packed pixels of a row are its columns' colours, in order |
| `Texture.PackedRows` | src/Texture/PngTexture.cpp:49-65 | the packed rows have `width` entries each |
| `Texture.PackedRowsAt` | src/Texture/PngTexture.cpp:49-65 | entry `i * width + j` of the packed pixels is the colour of the bytes of column `j`, row `i` |
| `Texture.PackRow` | src/Texture/PngTexture.cpp:51-64 | the inner packing loop builds exactly the packed row |
| `Texture.Check` | src/Texture/PngTexture.cpp:36-45 | the constructor accepts the decoder's output exactly when there is data and four components per pixel |
| `Texture.PngTexture.constructor` | src/Texture/PngTexture.cpp:46-65 | the sizes are the decoded ones truncated to 16 bits, and the pixels are the packed rows |
| `Texture.FromDecoded` | src/Texture/PngTexture.cpp:28-45 | the texture is built exactly when `Check` finds nothing wrong, and otherwise the error `Check` reports is thrown |
| `Texture.PngTexture.ColorAt` | src/Texture/PngTexture.cpp:22-26 | the entry at `(y * width) + x`, or none where `.at` throws |
| `Texture.PngTexture.ColorAtIsDecodedPixel` | src/Texture/PngTexture.cpp:22-26 | inside an image whose sizes fit 16 bits, `ColorAt` is the packed colour of the decoded pixel |
| `Raster.Apply` | src/Renderer/RenderTarget.cpp:61-64 | one write replaces exactly its entry when its colour is computed and its index is in range, and otherwise stops with the fault and changes nothing |
| `Raster.Paint` | src/Renderer/RenderTarget.cpp:61-64 | the writes in order never change the buffer's size |
| `Raster.PaintWritesOnlyStrokes` | src/Renderer/RenderTarget.cpp:61-64 | an entry that no write addresses keeps its value |
| `Raster.PaintCompletes` | src/Renderer/RenderTarget.cpp:61-64 | a run of writes completes exactly when every colour is computed and every index is in range |
| `Raster.PaintSolid` | src/Renderer/RenderTarget.cpp:113-126 | a solid fill in range completes and sets exactly the entries of its pixels |
| `Raster.PaintSnoc` | src/Renderer/RenderTarget.cpp:61-64 | one more write after a completed run is that write applied to the run's buffer |
| `Raster.PaintAfterFault` | src/Renderer/RenderTarget.cpp:61-64 | after a write has thrown, later writes change nothing |
| `Raster.PaintFaults` | src/Renderer/RenderTarget.cpp:61-64 | writes that all fault leave the buffer as it was and report the first one's fault |
| `Raster.CompletesAppend` | src/Renderer/RenderTarget.cpp:61-64 | two runs of writes in a row are fault-free exactly when each is |
| `Raster.PaintStep` | src/Renderer/RenderTarget.cpp:61-64 | one loop step of a rasteriser either extends the run or fixes its result |
| `Raster.PaintAppend` | src/Renderer/RenderTarget.cpp:61-64 | two runs of writes compose: the second starts from what the first left, unless it threw |
| `Raster.Solid` | src/Renderer/RenderTarget.cpp:123 | a solid fill makes one write per pixel |
| `Raster.Shaded` | src/Renderer/RenderTarget.cpp:205 | a shaded fill makes one write per pixel |
| `Raster.Span` | src/Renderer/RenderTarget.cpp:121-124 | a row span lists the columns from `from` to `to - 1` of its row, in order |
| `Raster.BoxRowsMembers` | src/Renderer/RenderTarget.cpp:119-125 | the nested loops visit exactly the points of the inclusive box |
| `Raster.BoxStep` | src/Renderer/RenderTarget.cpp:119-125 | one pass of the inner loop adds the next pixel and stays a prefix of the whole box |
| `Raster.BoxRowEnds` | src/Renderer/RenderTarget.cpp:119-125 | the inner loop starts a row with none of its pixels and ends it with all of them |
| `Raster.RectangleIsBox` | src/Renderer/RenderTarget.cpp:113-126 | the rectangle's pixels are exactly the box between `min` and `max` of the corners, and the order of the corners does not matter |
| `Raster.SideLength` | src/Renderer/RenderTarget.cpp:135-138 | the longer axis extent is non-negative and zero exactly when the ends coincide |
| `Raster.LineCount` | src/Renderer/RenderTarget.cpp:145 | a line always has at least one sample |
| `Raster.LinePointStep` | src/Renderer/RenderTarget.cpp:143-150 | each sample position is the previous one plus the increment |
| `Raster.LineSamples` | src/Renderer/RenderTarget.cpp:128-151 | the line's pixels are `whole(sideLength) + 1` samples, each the truncation of its position |
| `Raster.DiagonalLineFixture` | test/RenderTests.cpp:26-34 | (1, 1) to (5, 2) visits (1,1), (2,1), (3,2), (4,2), (5,2) |
| `Raster.VerticalLineFixture` | test/RenderTests.cpp:36-43 | (3, 0) to (3, 3) visits the four pixels of column 3 |
| `Raster.HorizontalLineFixture` | test/RenderTests.cpp:45-56 | (0, 2) to (7, 2) visits the eight pixels of row 2 |
| `RenderTargets.DegenerateTriangleHasNoArea` | src/Renderer/RenderTarget.cpp:8-15 | a triangle with a repeated vertex has determinant zero |
| `RenderTargets.SwappedWindingNegates` | src/Renderer/RenderTarget.cpp:8-15 | swapping two vertices negates the determinant |
| `RenderTargets.DeterminantIsCross` | src/Renderer/RenderTarget.cpp:8-15 | the determinant is the parallelogram area `ac x ab` that the weights divide by |
| `RenderTargets.LeftOrTopIsOneSided` | src/Renderer/RenderTarget.cpp:17-23 | of a non-zero edge and its reverse, exactly one is left-or-top |
| `RenderTargets.BarycentricWeights` | src/Renderer/RenderTarget.cpp:25-39 | the weights exist exactly when the triangle has non-zero area; the weight of `a` (of `b`) is the area of the triangle with `a` (`b`) moved to the point over the whole area, and the three sum to one |
| `RenderTargets.WeightsAtVertices` | src/Renderer/RenderTarget.cpp:25-39 | at each vertex the weights select that vertex: (1,0,0), (0,1,0), (0,0,1) |
| `RenderTargets.WrapIsInUnit` | src/Renderer/RenderTarget.cpp:90-97 | after the wrap a coordinate lies in [0, 1]: negatives become 0, values in range stay, values above one keep only their fraction |
| `RenderTargets.TexelIndexInRange` | src/Renderer/RenderTarget.cpp:99-102 | for a non-empty texture the clamped index names a texel |
| `RenderTargets.TexelColor` | src/Renderer/RenderTarget.cpp:66-106 | a `DivisionByZero` fault arises only from a zero divisor: a zero `w`, a zero-area triangle, or a zero interpolated `1/w`; a null texture faults at `texture->Width()` |
| `RenderTargets.TexelLookupHitsTexture` | src/Renderer/RenderTarget.cpp:99-103 | on a valid texture whose sizes fit 16 bits, the texel lookup never throws: the only fault left is a division by zero |
| `RenderTargets.NullTextureTexelFaults` | src/Renderer/RenderTarget.cpp:66-102 | with a null texture every texel faults, at a zero divisor or at the dereference |
| `RenderTargets.WholeBounds` | src/Renderer/RenderTarget.cpp:165-172 | the floor and ceiling truncated to `uint16_t` keep their value below 2^16 units |
| `RenderTargets.BoxHoldsTriangle` | src/Renderer/RenderTarget.cpp:165-172 | for non-negative vertices that fit the target, the box holds every vertex |
| `RenderTargets.ShadeShadesTexels` | src/Renderer/RenderTarget.cpp:205 | the colour given to each covered pixel is the texel `DrawTexel` computes for it |
| `RenderTargets.EdgeAtClosedForm` | src/Renderer/RenderTarget.cpp:197-213 | an edge value after `row` row steps and `column` column steps is start plus `row * dwdy` less `column * dwdx` |
| `RenderTargets.EdgesAtStep` | src/Renderer/RenderTarget.cpp:210-212 | one column subtracts `dwdx` and one row adds `dwdy` |
| `RenderTargets.EdgeValueMoves` | src/Renderer/RenderTarget.cpp:8-15 | for a whole-unit edge, moving the point by whole pixels changes the determinant linearly |
| `RenderTargets.ScannedEdgeIsDirect` | src/Renderer/RenderTarget.cpp:176-213 | one edge's carried value equals its biased determinant recomputed at the pixel centre |
| `RenderTargets.IncrementalEdgesAreDirect` | src/Renderer/RenderTarget.cpp:176-213 | when the edge vectors are whole units, the incremental edge values at every pixel equal the biased determinants at its centre `(x + 0.5, y + 0.5)` |
| `RenderTargets.EdgeAtLessBias` | src/Renderer/RenderTarget.cpp:179-191 | a bias taken off the starting edge value is taken off every stepped value |
| `RenderTargets.ScannedEdgeDrifts` | src/Renderer/RenderTarget.cpp:173-213 | for an edge vector that is not whole, the value carried three columns differs by one raw unit from the determinant recomputed there |
| `RenderTargets.DriftCornersShape` | src/Renderer/RenderTarget.cpp:156-170 | the drifting triangle passes the winding test and has the box `(0, 0)`–`(3, 2)` |
| `RenderTargets.IncrementalEdgesDrift` | src/Renderer/RenderTarget.cpp:173-213 | in a drawn triangle with such an edge, the value the scan tests at a pixel is not the biased determinant at its centre |
| `RenderTargets.CoveredIsInside` | src/Renderer/RenderTarget.cpp:202-203 | a pixel is drawn exactly when all three carried values are non-negative |
| `RenderTargets.RowPixelsMembers` | src/Renderer/RenderTarget.cpp:200-211 | a row holds exactly its covered pixels left of the current column |
| `RenderTargets.ScanPixelsMembers` | src/Renderer/RenderTarget.cpp:197-213 | the scan holds exactly the covered pixels of the box rows above the current one |
| `RenderTargets.TrianglePixelsAreCovered` | src/Renderer/RenderTarget.cpp:157-213 | a pixel is written exactly when the triangle winds counter-clockwise, the pixel is in the box, and all three biased edge tests pass there |
| `RenderTargets.TriangleStrokesAreScanned` | src/Renderer/RenderTarget.cpp:197-213 | a drawn triangle writes the texels of its scan's pixels in scan order |
| `RenderTargets.TriangleStrokeIsTexel` | src/Renderer/RenderTarget.cpp:205 | the i-th write is the texel of the i-th pixel |
| `RenderTargets.ScanPixelsPrefix` | src/Renderer/RenderTarget.cpp:197-213 | the rows so far and part of the current row begin the whole scan |
| `RenderTargets.ScanRowEnds` | src/Renderer/RenderTarget.cpp:199-212 | a row starts with none of its covered pixels and ends with all of them |
| `RenderTargets.ScanStep` | src/Renderer/RenderTarget.cpp:200-211 | one column adds its pixel exactly when it is covered |
| `RenderTargets.TriangleWritesOnlyBox` | src/Renderer/RenderTarget.cpp:165-213 | an entry of no pixel in the bounding box keeps its value |
| `RenderTargets.NullTextureWritesNothing` | src/Renderer/RenderTarget.cpp:66-102 | a triangle drawn without a texture writes no pixel: it stops at its first covered pixel, and completes only when it covers none |
| `RenderTargets.RenderTarget.constructor` | src/Renderer/RenderTarget.cpp:42-44 | both buffers have `Width * Height` entries: every colour opaque black and every depth one |
| `RenderTargets.RenderTarget.PixelAt` | src/Renderer/RenderTarget.cpp:46-49 | the entry at `(Width * y) + x`, or none where `.at` throws |
| `RenderTargets.RenderTarget.PixelInsideTarget` | src/Renderer/RenderTarget.cpp:46-49 | every pixel inside the target has an entry |
| `RenderTargets.RenderTarget.ClearBuffer` | src/Renderer/RenderTarget.cpp:56-59 | every colour entry becomes the given colour |
| `RenderTargets.RenderTarget.ClearBufferToDefault` | src/Renderer/RenderTarget.cpp:51-54 | every colour entry becomes opaque black |
| `RenderTargets.RenderTarget.ClearZBuffer` | src/Renderer/RenderTarget.cpp:108-111 | every depth entry becomes one |
| `RenderTargets.RenderTarget.DrawPixel` | src/Renderer/RenderTarget.cpp:61-64 | the write changes only entry `(Width * y) + x`, after which `PixelAt(x, y)` is the colour; past the end it throws and changes nothing |
| `RenderTargets.DrawPixelsFixture` | test/RenderTests.cpp:10-20 | on a cleared 8 by 4 target, the pixels drawn at (1,1), (3,2) and (5,3) read back in the colour drawn |
| `RenderTargets.RenderTarget.DrawBoxPixel` | src/Renderer/RenderTarget.cpp:121-124 | one pixel of the rectangle extends the fill, or its fault ends the whole fill |
| `RenderTargets.RenderTarget.DrawBoxRow` | src/Renderer/RenderTarget.cpp:121-124 | the inner loop fills row `y` of the box, or its fault ends the whole fill |
| `RenderTargets.RenderTarget.DrawRectangle` | src/Renderer/RenderTarget.cpp:113-126 | the buffer is the solid fill of the inclusive box between the corners, row by row, stopping at the first index that throws |
| `RenderTargets.RenderTarget.DrawTexel` | src/Renderer/RenderTarget.cpp:66-106 | the buffer is the write of the texel colour at the pixel, or the fault met computing it |
| `RenderTargets.RenderTarget.DrawScanPixel` | src/Renderer/RenderTarget.cpp:202-210 | one column of the scan extends the writes with its texel when covered |
| `RenderTargets.RenderTarget.DrawTriangleRow` | src/Renderer/RenderTarget.cpp:199-211 | the inner loop writes the row's covered pixels, carrying `horizontalW` |
| `RenderTargets.RenderTarget.DrawScanRows` | src/Renderer/RenderTarget.cpp:197-213 | the outer loop writes the shaded pixels of the whole scan |
| `RenderTargets.RenderTarget.DrawTexturedTriangle` | src/Renderer/RenderTarget.cpp:153-213 | the buffer is the texel writes of the triangle's covered pixels in scan order; a triangle of non-positive determinant changes nothing |
| `RenderTargets.RenderTarget.DrawSample` | src/Renderer/RenderTarget.cpp:147 | one sample of the line extends the writes, or its fault ends the line |
| `RenderTargets.RenderTarget.DrawLine` | src/Renderer/RenderTarget.cpp:128-151 | the buffer is the solid fill of the line's samples; equal ends divide by zero and change nothing |
| `Meshes.WordLength` | src/Mesh/Mesh.cpp:39-41 | the first word is a run of non-space characters ended by a space or the end |
| `Meshes.Words` | src/Mesh/Mesh.cpp:63 | each word `>>` extracts is non-empty and has no whitespace |
| `Meshes.WordsOfJoin` | src/Mesh/Mesh.cpp:63 | words separated by spaces are extracted back, the same words in the same order |
| `Meshes.DigitCount` | src/Mesh/Mesh.cpp:68 | the digit run at the start of a word is maximal |
| `Meshes.Decimal` | src/Mesh/Mesh.cpp:68 | a decimal numeral is a non-empty run of digits |
| `Meshes.DecimalValue` | src/Mesh/Mesh.cpp:68 | a numeral's digits read back as its value |
| `Meshes.StoiReadsDecimal` | src/Mesh/Mesh.cpp:68 | `stoi` reads a numeral that fits an `int` and ignores a non-digit tail |
| `Meshes.StoiOfDecimal` | src/Mesh/Mesh.cpp:68 | `stoi` reads a numeral that fits an `int` back |
| `Meshes.StoiInRange` | src/Mesh/Mesh.cpp:68 | what `stoi` returns fits an `int` |
| `Meshes.StoiRejectsEmpty` | src/Mesh/Mesh.cpp:81-83 | `stoi` of the empty string throws `invalid_argument` |
| `Meshes.FirstSlash` | src/Mesh/Mesh.cpp:72 | `find_first_of('/')` is a slash with none before it |
| `Meshes.LastSlash` | src/Mesh/Mesh.cpp:79 | `find_last_of('/')` is a slash with none after it |
| `Meshes.TwoSlashesApart` | src/Mesh/Mesh.cpp:76-79 | with two slashes, the first comes before the last |
| `Meshes.SplitNoSlash` | src/Mesh/Mesh.cpp:66-69 | a word without a slash is a vertex index only |
| `Meshes.SplitOneSlash` | src/Mesh/Mesh.cpp:70-75 | `a/b` is split into vertex `a` and texture coordinate `b` |
| `Meshes.SplitTwoSlashes` | src/Mesh/Mesh.cpp:76-84 | `a/b/c` keeps `a` and the `b` between the slashes |
| `Meshes.SplitDoubleSlash` | src/Mesh/Mesh.cpp:76-84 | `a//c` leaves an empty texture coordinate |
| `Meshes.ReadsVertexWord` | src/Mesh/Mesh.cpp:66-69 | a numeral adds a vertex index only |
| `Meshes.ReadsPairWord` | src/Mesh/Mesh.cpp:70-75 | `v/t` adds the vertex and texture coordinate indices |
| `Meshes.ReadsTripleWord` | src/Mesh/Mesh.cpp:76-84 | `v/t/n` adds the vertex and texture coordinate and drops the normal |
| `Meshes.RejectsMissingTextureCoordinate` | src/Mesh/Mesh.cpp:76-84 | `v//n` makes `stoi` throw, so the load fails |
| `Meshes.PairWords` | src/Mesh/Mesh.cpp:63-85 | the face line of `v/t` words has one word per pair, in order |
| `Meshes.ReadFaceWordsStep` | src/Mesh/Mesh.cpp:63-85 | after a word that reads, the rest of the line reads on from its result |
| `Meshes.ReadsPairWords` | src/Mesh/Mesh.cpp:63-85 | a line of `v/t` words collects the vertices and texture coordinates in order |
| `Meshes.ReadsVertexWords` | src/Mesh/Mesh.cpp:63-69 | a line of bare numerals collects vertices only |
| `Meshes.DecrementedIndices` | src/Mesh/Mesh.cpp:98-103 | a positive one-based index becomes its predecessor, and index 0 wraps to 2^64 - 1 |
| `Meshes.PositiveDecremented` | src/Mesh/Mesh.cpp:98-103 | positive one-based indices all become zero-based |
| `Meshes.ParseFaceOfIndices` | src/Mesh/Mesh.cpp:86-109 | a face whose words read is kept exactly when it names three vertices and three texture coordinates, and then holds them decremented with the colour of its position |
| `Meshes.PairFace` | src/Mesh/Mesh.cpp:86-109 | a face of `v/t` words is kept exactly when it has three of them, with zero-based indices |
| `Meshes.SlashlessFaceIsRejected` | src/Mesh/Mesh.cpp:92-97 | a face without texture coordinates makes the loader return null |
| `Meshes.ReadFaceLine` | src/Mesh/Mesh.cpp:60-109 | the token loop and the decrement loop give the face `ParseFace` describes |
| `Meshes.ToZeroBased` | src/Mesh/Mesh.cpp:98-103 | the in-place decrement loop makes both index lists zero-based, modulo 2^64 |
| `Meshes.OtherLinesChangeNothing` | src/Mesh/Mesh.cpp:54-57 | lines other than `v`, `vt` and `f` (`vn` among them) leave the mesh as it is |
| `Meshes.ReadLineAppends` | src/Mesh/Mesh.cpp:42-53 | one line appends its vertex or texture coordinate and keeps the face colours cyclic |
| `Meshes.ReadLinesAppends` | src/Mesh/Mesh.cpp:37-111 | the line loop appends the `v` and `vt` lines in file order |
| `Meshes.LoadedMeshIsInFileOrder` | src/Mesh/Mesh.cpp:17-122 | a loaded mesh holds the `v` and `vt` lines in file order, and face `i` has colour `i mod 6` of the palette |
| `Meshes.ReadLinesConcat` | src/Mesh/Mesh.cpp:37-111 | reading two runs of lines is reading the first, then the second from its result |
| `Meshes.RejectedFaceStopsLoad` | src/Mesh/Mesh.cpp:86-97 | a rejected face ends the load with null, whatever lines follow |
| `Meshes.MissingFileGivesNoMesh` | src/Mesh/Mesh.cpp:21-31 | a file that is missing or cannot be opened gives null |
| `Meshes.FromObjFile` | src/Mesh/Mesh.cpp:17-122 | the line loop gives exactly the loader's result on the file's lines |
| `Meshes.CubeShape` | src/Mesh/Mesh.cpp:124-164 | eight corners, twelve faces naming only them, no texture coordinates |
| `Meshes.AdjoiningTrianglesShape` | src/Mesh/Mesh.cpp:166-190 | four vertices and texture coordinates, two faces naming only them |
| `LegacyMeshes.FromObjFile` | src/Mesh.cpp:4-15 | the stub loader never returns a mesh |
| `LegacyMeshes.CubeVertices` | src/Mesh.cpp:17-56 | eight distinct corners, each coordinate half a unit from zero |
| `LegacyMeshes.CubeFaces` | src/Mesh.cpp:17-56 | twelve faces, each naming three different corners |
| `LegacyMeshes.AdjoiningTrianglesShape` | src/Mesh.cpp:58-74 | four vertices in the plane z = 0, faces naming only them |
| `LegacyMeshes.AdjoiningTrianglesShareEdge` | src/Mesh.cpp:58-74 | the two faces walk their shared edge in opposite directions, so they wind the same way |
| `Renderers.OwnMeshes` | src/Renderer/Renderer.cpp:82-85 | the entity's own mesh draws are its meshes in vector order |
| `Renderers.DrawOrderMembers` | src/Renderer/Renderer.cpp:76-86 | every mesh of every entity of the tree is drawn, and nothing else |
| `Renderers.ChildrenOrderMembers` | src/Renderer/Renderer.cpp:78-81 | the draws of the first `n` children are those of their trees |
| `Renderers.OwnMeshesComeLast` | src/Renderer/Renderer.cpp:76-86 | the node's own meshes close its draw order in vector order, after all the children's draws |
| `Renderers.ChildDrawsAreTreeDraws` | src/Renderer/Renderer.cpp:78-81 | every draw of a child's tree is a draw of the whole tree |
| `Renderers.ChildrenOrderGrows` | src/Renderer/Renderer.cpp:78-81 | each child's trees follow the trees of the children before it |
| `Renderers.ChildrenOrderPrefix` | src/Renderer/Renderer.cpp:78-81 | the trees of the first children begin the draw order |
| `Renderers.OwnMeshesPrefix` | src/Renderer/Renderer.cpp:82-85 | after the children, the first own meshes begin the rest of the draw order |
| `Renderers.OwnMeshStep` | src/Renderer/Renderer.cpp:82-85 | one more own mesh is the next draw, and the last one completes the order |
| `Renderers.AspectRatio` | src/Renderer/Renderer.cpp:33 | `FixedUnit{ height / width }` is the quotient rounded to the nearest raw unit, and fails for a zero width |
| `Renderers.CreatePerspectiveMatrix` | src/Renderer/Renderer.cpp:30-35 | the projection exists exactly when the width is non-zero, `tan(fov / 2)` is non-zero and the planes differ |
| `Renderers.ProjectionCopiesDepth` | src/Renderer/Renderer.cpp:52-53 | the renderer's projection copies view-space depth into clip-space `w` |
| `Renderers.ViewMatrixCentresCamera` | src/Renderer/Renderer.cpp:66-74 | the view matrix takes the camera to the origin and is affine |
| `Renderers.ModelViewKeepsW` | src/Renderer/Renderer.cpp:91-92 | under an affine view matrix, vertices reach view space with `w == 1` |
| `Renderers.Fetch` | src/Renderer/Renderer.cpp:144-151 | the checked `.at(i)` gives entry `i`, or `OutOfRange` past the end |
| `Renderers.HalfOf` | src/Renderer/Renderer.cpp:181-182 | `FixedUnit{ n / 2.0f }` doubled is `n` |
| `Renderers.ToScreen` | src/Renderer/Renderer.cpp:183-187 | the screen mapping keeps `z` and `w` |
| `Renderers.ScreenMappingEnds` | src/Renderer/Renderer.cpp:183-187 | the left, centre and right of device coordinates land on 0, the half size and the whole size |
| `Renderers.OutOfRangeIffBadIndex` | src/Renderer/Renderer.cpp:144-151 | a face throws `OutOfRange` exactly when one of its indices lies past its list |
| `Renderers.CullIffFacingAway` | src/Renderer/Renderer.cpp:164-172 | a face with valid indices gives no draw exactly when its normal dotted with the ray to the camera is not positive |
| `Renderers.FaceCallAfterCull` | src/Renderer/Renderer.cpp:174-191 | past the cull, a face's outcome is projection and screen mapping of its view-space vertices |
| `Renderers.DrawCallFollowsFace` | src/Renderer/Renderer.cpp:147-191 | a drawn face hands over its texture coordinates in face-index order, with its vertices projected and mapped |
| `Renderers.DrawnDepthIsViewDepth` | src/Renderer/Renderer.cpp:175-191 | under the renderer's projection, a drawn vertex's `w` is its view-space depth |
| `Renderers.TransformEach` | src/Renderer/Renderer.cpp:159-162 | the range-`for` replaces each of the three vertices by its transform |
| `Renderers.ScreenEach` | src/Renderer/Renderer.cpp:183-187 | the screen loop succeeds exactly when no `w` is zero, and maps each vertex |
| `Renderers.HaltStops` | src/Renderer/Renderer.cpp:141-192 | a fault met before the rasteriser stops the frame and changes nothing |
| `Renderers.ChildTreeStep` | src/Renderer/Renderer.cpp:78-81 | one child's tree continues the writes of the children before it |
| `Renderers.ChildFaultEndsChildren` | src/Renderer/Renderer.cpp:78-81 | a fault in one child's tree is the outcome of the whole loop |
| `Renderers.ReachedDraw` | src/Renderer/Renderer.cpp:76-86 | a mesh draw whose earlier draws are fault-free is reached, so its faces' condition applies |
| `Renderers.ReachedRun` | src/Renderer/Renderer.cpp:76-86 | the reached-triangle condition of an order holds of any run inside it whose earlier draws are fault-free |
| `Renderers.ChildScansEnd` | src/Renderer/Renderer.cpp:78-81 | the reached-triangle condition of a tree holds of each child's tree that the loop reaches |
| `Renderers.Renderer.constructor` | src/Renderer/Renderer.cpp:48-54 | the frame buffer has the resolution and is cleared; the projection is the one built for the resolution |
| `Renderers.CreateRenderer` | src/Renderer/Renderer.cpp:48-54 | the renderer is built exactly when its projection exists, and then has the resolution and that projection |
| `Renderers.Renderer.DrawFace` | src/Renderer/Renderer.cpp:141-192 | one face writes exactly its triangle's texels, or nothing when culled, or stops with its fault; a mesh without a texture stops at its first covered pixel |
| `Renderers.Renderer.DrawEntityMesh` | src/Renderer/Renderer.cpp:88-194 | the mesh's writes are its faces' writes in vector order, under the entity's placement |
| `Renderers.Renderer.DrawFaces` | src/Renderer/Renderer.cpp:141-192 | the face loop writes each face in vector order; the first fault ends the frame, and no face after it is constrained |
| `Renderers.Renderer.DrawEntityTreeMeshes` | src/Renderer/Renderer.cpp:76-86 | the writes are those of the meshes in draw order: children's trees first, then the node's own meshes |
| `Renderers.Renderer.DrawChildTrees` | src/Renderer/Renderer.cpp:78-81 | the first loop writes the children's trees in vector order |
| `Renderers.Renderer.DrawChildTree` | src/Renderer/Renderer.cpp:80 | one child's tree continues the writes of the children before it |
| `Renderers.Renderer.DrawOwnMeshes` | src/Renderer/Renderer.cpp:82-85 | the second loop completes the draw order with the node's own meshes |
| `Renderers.Renderer.DrawScene` | src/Renderer/Renderer.cpp:66-74 | the frame is the writes of the tree under the view matrix of the camera position |
| `LegacyRenderers.WholeDeterminant` | src/Renderer.cpp:37-44 | on integer points the fixed-point determinant is exact: the integer determinant in whole units |
| `LegacyRenderers.IntDeterminantSwap` | src/Renderer.cpp:37-44 | swapping an edge's ends negates the determinant of every point |
| `LegacyRenderers.EdgeValueAdmits` | src/Renderer.cpp:155-173 | taking one whole unit off a left-or-top edge's value makes the test strict on that edge |
| `LegacyRenderers.CoversIff` | src/Renderer.cpp:155-177 | a point is written exactly when it passes all three edge tests |
| `LegacyRenderers.SharedEdgeAdmitsOnce` | src/Renderer.cpp:46-53 | a point on an edge that two triangles walk in opposite directions passes exactly one of the two tests |
| `LegacyRenderers.CoveredInMembers` | src/Renderer.cpp:149-180 | the covered points of a run are exactly its points that pass the edge tests |
| `LegacyRenderers.TrianglePixelsMembers` | src/Renderer.cpp:133-181 | a point is written exactly when the triangle winds counter-clockwise, the point is in the box, and it passes the edge tests |
| `LegacyRenderers.BoxMembers` | src/Renderer.cpp:145-180 | the covered points of the box are the points written |
| `LegacyRenderers.WindingIsIntDeterminant` | src/Renderer.cpp:136 | the winding test is the sign of the integer determinant |
| `LegacyRenderers.RowInside` | src/Renderer.cpp:149-180 | where every written point has an entry, so has every covered point of each row |
| `LegacyRenderers.LegacyLineSamples` | src/Renderer.cpp:108-131 | the line's pixels are `uint16(sideLength) + 1` samples, each truncated to its pixel |
| `LegacyRenderers.LegacyLineIsTargetLine` | src/Renderer.cpp:125 | below 2^16 units the `uint16_t` step count loses nothing: the line is the render target's |
| `LegacyRenderers.FillResult` | src/Renderer.cpp:88-91 | a fill inside the buffer sets each entry that some pixel addresses and keeps the rest |
| `LegacyRenderers.RectangleInside` | src/Renderer.cpp:93-106 | where the box's last entry exists, every entry of the box does |
| `LegacyRenderers.LegacyRenderer.constructor` | src/Renderer.cpp:56-63 | the frame buffer has `Width * Height` entries, all opaque black |
| `LegacyRenderers.LegacyRenderer.ClearBuffer` | src/Renderer.cpp:83-86 | every entry becomes the given colour |
| `LegacyRenderers.LegacyRenderer.ClearBufferToDefault` | src/Renderer.cpp:78-81 | every entry becomes opaque black |
| `LegacyRenderers.LegacyRenderer.DrawPixel` | src/Renderer.cpp:88-91 | the unchecked write changes exactly entry `(Width * y) + x` |
| `LegacyRenderers.LegacyRenderer.DrawRectangleRow` | src/Renderer.cpp:101-104 | the inner loop fills row `y` of the box |
| `LegacyRenderers.LegacyRenderer.DrawRectangle` | src/Renderer.cpp:93-106 | each entry of the box between the corners becomes the colour, and every other entry keeps its value |
| `LegacyRenderers.LegacyRenderer.DrawLine` | src/Renderer.cpp:108-131 | each entry some sample addresses becomes the colour and the rest keep theirs; equal ends divide by zero and write nothing |
| `LegacyRenderers.LegacyRenderer.DrawTrianglePoint` | src/Renderer.cpp:153-178 | one point of the box is written exactly when it passes the three biased edge tests |
| `LegacyRenderers.LegacyRenderer.DrawTriangleRow` | src/Renderer.cpp:151-179 | the inner loop writes the row's covered points |
| `LegacyRenderers.LegacyRenderer.DrawTriangle` | src/Renderer.cpp:133-181 | a triangle that does not wind counter-clockwise changes nothing; otherwise each entry of a covered point becomes the colour and every other entry keeps its value |
| `LegacyRenderers.LegacyRenderer.DrawEntityMesh` | src/Renderer.cpp:204-250 | the mesh draw is recorded after those before it |
| `LegacyRenderers.LegacyRenderer.DrawEntityTreeMeshes` | src/Renderer.cpp:192-202 | the meshes are drawn in tree order: the children's trees in vector order, then the node's own meshes |
| `BitmapFonts.Le16Bytes` | src/Painters/TextPainter.cpp:50-51 | two little-endian bytes read back as the value |
| `BitmapFonts.Le32Bytes` | src/Painters/TextPainter.cpp:105 | four little-endian bytes read back as the value |
| `BitmapFonts.ReadSpan` | src/Painters/TextPainter.cpp:76 | a read of `n` bytes succeeds exactly when they are all in the file, and gives them |
| `BitmapFonts.NegatedInt16` | src/Painters/TextPainter.cpp:26-32 | the font size is minus the stored `int16_t`, modulo 2^16 |
| `BitmapFonts.InfoNameLength` | src/Painters/TextPainter.cpp:36 | `blockSize - 14` in `uint32_t` is the difference when no smaller than 14, and wraps to above 2^32 - 15 below it |
| `BitmapFonts.Block` | src/Painters/TextPainter.cpp:100-127 | a block that reads ends at least five bytes on, past its header |
| `BitmapFonts.BlocksKeepHeaderErrors` | src/Painters/TextPainter.cpp:159-162 | no block reports a bad signature or version |
| `BitmapFonts.SignatureRequired` | src/Painters/TextPainter.cpp:141-149 | a file is rejected for its signature exactly when it does not start with `BMF` |
| `BitmapFonts.VersionRequired` | src/Painters/TextPainter.cpp:150-158 | after the signature, it is rejected for its version exactly when the fourth byte is missing or not 3 |
| `BitmapFonts.HeaderOnly` | src/Painters/TextPainter.cpp:159-165 | a header alone is the empty font |
| `BitmapFonts.UnknownBlockRejected` | src/Painters/TextPainter.cpp:123-126 | a block is rejected for its id exactly when the id lies outside 1..5 |
| `BitmapFonts.KerningPairsSkipped` | src/Painters/TextPainter.cpp:120-122 | the kerning block is skipped whole and changes nothing |
| `BitmapFonts.InfoNameLimit` | src/Painters/TextPainter.cpp:36-41 | the info block throws for the name's length exactly when its size is below 14 or above 526 |
| `BitmapFonts.InfoBlockContents` | src/Painters/TextPainter.cpp:23-45 | the info block consumes `blockSize` bytes, stores the negated size, takes the name from the bytes after its 14-byte header, and changes nothing else |
| `BitmapFonts.AsWrittenFontName` | src/Painters/TextPainter.cpp:42-44 | as written, the name is followed by 14 NUL bytes, and a block longer than the buffer reads past it |
| `BitmapFonts.AsWrittenFontNameDiffers` | src/Painters/TextPainter.cpp:42-44 | as written, the loaded name is never the name in the file |
| `BitmapFonts.AsWrittenFontNameExample` | src/Painters/TextPainter.cpp:42-44 | "Arial" comes back with 14 NUL bytes, and a 500-byte name is read past the buffer |
| `BitmapFonts.CommonPageCount` | src/Painters/TextPainter.cpp:47-64 | the common block is accepted exactly when the page count is one, and then sets line height and base only and consumes 15 bytes |
| `BitmapFonts.PagesNameLimit` | src/Painters/TextPainter.cpp:66-78 | the pages block throws exactly for a name longer than 512, and otherwise takes its `blockSize` bytes as the texture name |
| `BitmapFonts.InsertRecordsKeys` | src/Painters/TextPainter.cpp:84-97 | after the chars block, the ids present are those before and those of the records read |
| `BitmapFonts.LastRecordWins` | src/Painters/TextPainter.cpp:96 | a repeated id keeps its last record |
| `BitmapFonts.OtherIdsKept` | src/Painters/TextPainter.cpp:96 | an id no record carries keeps its entry |
| `BitmapFonts.CharsBlockExtent` | src/Painters/TextPainter.cpp:80-98 | the chars block reads `blockSize / 20` records of 20 bytes, and changes only the glyph table |
| `BitmapFonts.HoldsHeader` | src/Painters/TextPainter.cpp:102-105 | a written block header reads back as its id and body size |
| `BitmapFonts.HoldsRecord` | src/Painters/TextPainter.cpp:86-95 | a written glyph record reads back as the glyph |
| `BitmapFonts.HoldsGlyphs` | src/Painters/TextPainter.cpp:84-97 | written glyph records read back in the same order |
| `BitmapFonts.HoldsInfoBody` | src/Painters/TextPainter.cpp:23-45 | a written info body reads back as the size and name written |
| `BitmapFonts.HoldsCommonBody` | src/Painters/TextPainter.cpp:47-64 | a written common body reads back as the line height and base written |
| `BitmapFonts.HoldsPagesBody` | src/Painters/TextPainter.cpp:66-78 | a written pages body reads back as the texture name written |
| `BitmapFonts.HoldsCharsBody` | src/Painters/TextPainter.cpp:80-98 | a written chars body reads back as its glyphs, inserted in order |
| `BitmapFonts.HoldsBody` | src/Painters/TextPainter.cpp:106-126 | a written body of any kind reads back as what the block does to the font |
| `BitmapFonts.HoldsWritten` | src/Painters/TextPainter.cpp:100-127 | a written block reads back as what it does to the font, and ends where it does |
| `BitmapFonts.HoldsLaid` | src/Painters/TextPainter.cpp:159-162 | written blocks read back one after the other |
| `BitmapFonts.LaidBlocks` | src/Painters/TextPainter.cpp:159-162 | blocks running to the end of the file read back as their effect, in order |
| `BitmapFonts.LoadWrittenFile` | src/Painters/TextPainter.cpp:129-166 | reading an encoded file gives the font its blocks describe: a later block or glyph replaces an earlier one |
| `BitmapFonts.StandardWritable` | src/Painters/TextPainter.cpp:10-11 | the four standard blocks can be written exactly when both names fit 512 bytes and the glyph table's size fits 32 bits |
| `BitmapFonts.StandardFont` | src/Painters/TextPainter.h:20-30 | the standard blocks describe the font with those fields and those glyphs |
| `BitmapFonts.FontReader.constructor` | src/Painters/TextPainter.cpp:134-135 | reading starts at the first byte with the empty font |
| `BitmapFonts.FontReader.Skip` | src/Painters/TextPainter.cpp:34 | `seekg` moves the cursor forward, even past the end |
| `BitmapFonts.FontReader.ReadU8` | src/Painters/TextPainter.cpp:104 | one byte is read where there is one |
| `BitmapFonts.FontReader.ReadU16` | src/Painters/TextPainter.cpp:50-51 | two bytes are read little-endian where there are two |
| `BitmapFonts.FontReader.ReadU32` | src/Painters/TextPainter.cpp:105 | four bytes are read little-endian where there are four |
| `BitmapFonts.FontReader.ReadBytes` | src/Painters/TextPainter.cpp:43 | `n` bytes are read as `ReadSpan` gives them |
| `BitmapFonts.FontReader.LoadInfoBlock` | src/Painters/TextPainter.cpp:23-45 | the reader's state after the info block is the info block's result |
| `BitmapFonts.FontReader.LoadCommonBlock` | src/Painters/TextPainter.cpp:47-64 | the same for the common block |
| `BitmapFonts.FontReader.LoadPagesBlock` | src/Painters/TextPainter.cpp:66-78 | the same for the pages block |
| `BitmapFonts.FontReader.ReadCharacter` | src/Painters/TextPainter.cpp:86-94 | the eight fields of a glyph record are read where they are present |
| `BitmapFonts.FontReader.LoadCharsBlock` | src/Painters/TextPainter.cpp:80-98 | the record loop leaves the chars block's result |
| `BitmapFonts.FontReader.LoadBlock` | src/Painters/TextPainter.cpp:100-127 | one block's dispatch leaves that block's result |
| `BitmapFonts.LoadBitmapFontData` | src/Painters/TextPainter.cpp:129-166 | the loader's result is the font file's reading |
| `BitmapFonts.TextPainter.constructor` | src/Painters/TextPainter.cpp:184-186 | the painter keeps the font it is given |
| `BitmapFonts.TextPainter.FromBitmapFont` | src/Painters/TextPainter.cpp:174-177 | a painter is made exactly when the font loads, with that font; otherwise the loader's error is thrown |
| `BitmapFonts.TextPainter.PaintText` | src/Painters/TextPainter.cpp:179-182 | painting text changes neither buffer of the target |

## Left out

- Window, SDL renderer and texture creation, `Render`, texture upload and
  presentation: foreign I/O.
- Opening files, and the `stb_image` decoder: the model starts from the
  file's bytes, its lines, or the decoder's output. The texture loaded for a
  font (`LoadFontTexture`) and for an OBJ mesh, and the painter's texture,
  are left out for the same reason. A mesh loaded without a texture keeps
  a null pointer; the model keeps it as `None`, and drawing with it stops
  at a `NullPointer` fault, since the C++ dereference is undefined.
- Floating-point arithmetic: the Eigen helpers are modelled over the reals.
  The float parsing of `v`/`vt` lines is a given function. The float
  conversions `FixedUnit{ 0.1f }` and the like are the nearest raw value.
- The fpm library and the header that names `FixedUnit` are not part of this
  model. Its default rounding of `*` and `/` is modelled from its documented
  behaviour.
- fpm `sin`, `cos`, `tan`, `sqrt`, `pow` (the `pow(x, 2)` of `Length`) and
  Eigen `normalize`/`AngleAxisf`: given
  functions, so no lemma depends on their values.
- The 32-bit range of `FixedUnit`: raw values are unbounded, so products and
  sums that would overflow `int32_t` are not wrapped.
- The glm code of the first renderer: `CreatePerspectiveMatrix`, `DrawScene`,
  and the projection, screen mapping and wireframe of `DrawEntityMesh`
  (`src/Renderer.cpp:31-35, 183-190, 204-250`). These are calls into glm, a
  third-party library that is not modelled. Only the draw order is kept.
- `LegacyRenderers.LegacyRenderer.DrawEntityMesh`: records the call instead
  of drawing the glm wireframe.
- Camera rotation: the source ignores it too.
- The triangle fixture of test/RenderTests.cpp:59-77 calls the
  `DrawTriangle(Vector2, Vector2, Vector2, uint32_t)` overload declared at
  src/Renderer/RenderTarget.h:13, which src/Renderer/RenderTarget.cpp does
  not define. It is not stated about either rasteriser.
- Frustum clipping and the depth test are not in the modelled source: the
  `ZBuffer` is allocated and cleared, never read.
- Entity physics, timing, resource registries and logging.
- `RenderTargets.RenderTarget.DrawTexturedTriangle`: requires that the
  `uint16_t` row counter passes `yMax` (`yMax < 65535`), and, when any row
  is scanned, that the column counter passes `xMax` (`xMax < 65535`).
  Otherwise the counter wraps and the source's loop goes on until a write
  faults or forever; the model does not follow a wrapped scan.
- `Renderers.Renderer.DrawScene`, `Renderers.Renderer.DrawEntityTreeMeshes`,
  `Renderers.Renderer.DrawChildTrees`, `Renderers.Renderer.DrawChildTree`,
  `Renderers.Renderer.DrawOwnMeshes`, `Renderers.Renderer.DrawEntityMesh`,
  `Renderers.Renderer.DrawFaces`: require the same only of the triangles of
  faces reached before the first fault; `Renderers.Renderer.DrawFace`
  requires it of its own triangle.
- `RenderTargets.IncrementalEdgesAreDirect`: proved only when the edge
  vectors are whole units. Otherwise the value carried across a row drifts
  from the determinant at the pixel centre by rounding
  (`RenderTargets.IncrementalEdgesDrift`), so a pixel on an edge may be drawn
  or dropped differently from the direct test.
- `RenderTargets.RenderTarget.DrawRectangle`: requires corners below 65535.
  At 65535 the `uint16_t` loop counter wraps and the source loops forever.
- `LegacyRenderers.LegacyRenderer.DrawPixel`: requires the index in range.
  The source writes `m_frameBuffer[...]` unchecked, which is undefined past
  the end.
- `LegacyRenderers.LegacyRenderer.DrawRectangle`,
  `LegacyRenderers.LegacyRenderer.DrawLine`,
  `LegacyRenderers.LegacyRenderer.DrawTriangle`: require every written point
  to be inside the buffer, for the same reason. `DrawLine` also requires
  fewer than 65535 steps, where the `uint16_t` counter would wrap.
- `LegacyRenderers.LegacyRenderer.DrawRectangle`,
  `LegacyRenderers.LegacyRenderer.DrawTriangle`: also require the box's
  corners below 65535. At 65535 the `uint16_t` counter wraps and the source
  loops forever, even where the box's last entry is inside the buffer.
  `IntPoint2D` is not part of this model; its coordinates are taken to be
  `uint16_t`, as the model's `Pixel` has them.
- The first renderer's `DrawLine` takes glm float points. The model takes
  their fixed-point conversion.
- `Renderers.AspectRatio`: rounds the exact quotient `height / width`, not the
  float quotient the source converts.
- `Meshes.Stoi`: `std::stoi` also skips leading whitespace. Words never hold
  any, so that step is not modelled.
- `Renderers.Renderer.DrawFace`: the three vertices live in a three-entry
  array updated in place, as in the source. The transforms are function
  values, not matrices.
- Font reading:
  - A short read inside a block is reported as `Truncated`. The source's
    stream fails and carries on with indeterminate or partial values.
  - A file too short for its signature is `BadSignature`, and a file that
    ends after the signature is `BadVersion`. In the source those reads leave
    `fileSignature` or `formatVersion` partly indeterminate
    (src/Painters/TextPainter.cpp:142-153); the model takes the comparison
    to fail.
  - A truncated common block is therefore `Truncated`, not an unsupported page
    count.
  - Fields that are never read stay zero, as the font starts empty. In the
    source `BitmapFontData fontData;` (src/Painters/TextPainter.cpp:134)
    leaves `FontSize`, `LineHeight` and `Base` indeterminate
    (src/Painters/TextPainter.h:23-27) until a block sets them.
  - Seeking past the end succeeds, as `seekg` does.
  - The host is taken to be little-endian.
  - Names keep any NUL bytes as read.
- `BitmapFonts.TextPainter.PaintText`: the source's body is empty, so nothing
  is drawn.

## Findings

| source | as written | input that shows it | evidently intended | confidence | as-written member | corrected member |
|---|---|---|---|---|---|---|
| src/Painters/TextPainter.cpp:42-44 | the font name is built from the first `blockSize` bytes of the 512-byte buffer, but the name has only `blockSize - 14` bytes | an info block for "Arial" (block size 19): the name comes back as "Arial" followed by 14 NUL bytes; a 500-byte name (block size 514) is read past the end of the buffer | the name is the `blockSize - 14` bytes read | not executed | `BitmapFonts.AsWrittenFontNameExample` | `BitmapFonts.InfoBlockContents` |
