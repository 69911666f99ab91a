# A verified model of a CPU software rasteriser

This project models the core of a small software rasteriser written in C++.
A `SoftwareRasteriser` owns:

- two colour buffers, drawn into and presented in turn;
- a depth buffer;
- a viewport ("port") matrix;
- the view-projection matrix and the texture currently bound.

It draws meshes of points, lines, line loops and triangles pixel by pixel.
The `Mesh` type holds a primitive tag, an unsigned vertex count and the
vertex arrays. Its factories build demo meshes, and it can also load a mesh
from a text file.

The modules follow the program's structure:

| module | models |
|---|---|
| `Common` | the C++ casts: `(int)` truncation and `unsigned int` wrap-around; the `for (float ...; v < hi; ++v)` iteration count; `1.0f / d` |
| `Colours` | the four-byte `Colour` and its packed 32-bit value; the channel blends |
| `Geometry` | vectors; the divide by w; the port matrix |
| `Fragments` | a pixel write (`Fragment`), the pixel sink `ShadePixel` (`Plot`), and a run of writes applied in order (`Paint`) |
| `Lines` | the DDA walk of `RasteriseLine`, as a function of its two port-mapped endpoints |
| `Triangles` | `ScreenAreaOfTri`, `CalculateBoxForTri` and the per-sample test, weights and shading of `RasteriseTri` |
| `Meshes` | `Mesh.h` and `Mesh.cpp`: the factories, and the mesh file with its loader |
| `Pipeline` | what each mesh driver draws: the vertex transform, the grouping of vertices into primitives, and the dispatch on the tag |
| `Raster` | the class `SoftwareRasteriser`, with its buffers as arrays and its methods as imperative code with loops |

Every drawing method is proved against a specification. The current buffer
afterwards equals the old buffer with a particular sequence of writes painted
in order. That sequence is a pure function of the inputs, e.g.
`LineFragments(SetupLine(...))` or `TriangleFragments(...)`.

Lemmas then prove what those sequences satisfy:

- a line writes no pixel twice;
- a line's minor coordinate stays within half a pixel of the ideal line through its start pixel;
- every triangle write lands on screen;
- clockwise and thin triangles draw nothing;
- inside a triangle the weights are its barycentric coordinates;
- for a triangle wholly in front of or wholly behind the eye, the perspective-correct texture coordinate stays within the span of the vertices' coordinates;
- a closed outline joins every vertex to both neighbours.

Loading a mesh file and writing it back are proved to be inverses.

Numbers are modelled as follows:

- A `float` is a `real`; IEEE rounding is not reproduced.
- A `(int)` or `(uint)` cast of a non-negative float truncates; a negative one truncates toward zero.
- `unsigned int` subtraction wraps modulo 2^32.
- Buffer cells are `uint32`, depth cells `uint16`, colour channels `byte`.

## Model

| member | source | states |
|---|---|---|
| Common.Trunc | SoftwareRasteriser/SoftwareRasteriser.cpp:247-248 | `(int)r` truncates toward zero: for r ≥ 0 it is the largest integer not above r; for r < 0 the smallest integer not below r |
| Common.UintSub | SoftwareRasteriser/SoftwareRasteriser.cpp:57 | `unsigned int` subtraction: a − b when b ≤ a, otherwise a − b + 2^32, always below 2^32 |
| Common.Steps | SoftwareRasteriser/SoftwareRasteriser.cpp:356-357 | the float loops `for (v = lo; v < hi; ++v)` run their body at least once exactly when lo < hi |
| Common.StepsDecrease | SoftwareRasteriser/SoftwareRasteriser.cpp:356-357 | each `++v` leaves exactly one iteration fewer, so the float loops terminate |
| Common.RecipIsQuotient | SoftwareRasteriser/SoftwareRasteriser.cpp:351 | multiplying by the reciprocal `1.0f / d`, taken once, is dividing by d, for every d ≠ 0 |
| Common.Quot | SoftwareRasteriser/SoftwareRasteriser.cpp:383-384 | the float division `p / d`: for every d ≠ 0 the quotient times d is p |
| Common.RatioAtMostOne | SoftwareRasteriser/SoftwareRasteriser.cpp:260-272 | the slope, the minor delta over the major one, is at most 1 in magnitude |
| Colours.Pack | SoftwareRasteriser/SoftwareRasteriser.cpp:107 | in the packed 32-bit value red is the low byte, then green, then blue, and alpha the high byte |
| Colours.Unpack | SoftwareRasteriser/SoftwareRasteriser.cpp:107 | reading a packed value back takes red, green, blue and alpha from its four bytes, lowest first |
| Colours.UnpackPack | SoftwareRasteriser/SoftwareRasteriser.cpp:107 | unpacking a packed colour gives the colour back |
| Colours.PackUnpack | SoftwareRasteriser/SoftwareRasteriser.cpp:107 | packing an unpacked cell gives the cell back: the union view is a bijection |
| Colours.ClearValueIsOpaqueBlack | SoftwareRasteriser/SoftwareRasteriser.cpp:102 | the clear value 0xFF000000 is opaque black, and opaque black packs to it |
| Colours.ToByte | SoftwareRasteriser/SoftwareRasteriser.cpp:288 | a blended channel value in [0, 256) is stored as its integer part |
| Colours.BlendChannelBetween | SoftwareRasteriser/SoftwareRasteriser.cpp:288 | for t in [0, 1], `y*t + x*(1 − t)` lies between x and y and within a byte, so no clamp applies |
| Colours.StoredChannelBetween | SoftwareRasteriser/SoftwareRasteriser.cpp:288 | the stored channel of a convex blend lies between the endpoint channels |
| Colours.Lerp | SoftwareRasteriser/SoftwareRasteriser.cpp:288 | the colour a fraction t of the way from colA to colB, `colB*t + colA*(1.0f - t)` stored channel by channel; Blend2Between, Blend2Endpoint and Lines.LineColourBetween state its properties |
| Colours.Blend2Between | SoftwareRasteriser/SoftwareRasteriser.cpp:288 | every channel of `colB*t + colA*(1 − t)` with t in [0, 1] lies between colA's and colB's channel |
| Colours.Blend2Endpoint | SoftwareRasteriser/SoftwareRasteriser.cpp:288 | at t = 0 the blend is colA itself |
| Colours.Blend3 | SoftwareRasteriser/SoftwareRasteriser.cpp:390-392 | `colA*alpha + colB*beta + colC*gamma` stored channel by channel; Blend3Between and Triangles.InsideColourBetween state its properties |
| Colours.Blend3Between | SoftwareRasteriser/SoftwareRasteriser.cpp:390-392 | with non-negative weights summing to 1, every stored channel lies between the least and the greatest of the three colours' channels |
| Geometry.DivideByW | SoftwareRasteriser/SoftwareRasteriser.cpp:145 | SelfDivisionByW leaves w = 1 |
| Geometry.DivideByWUndone | SoftwareRasteriser/SoftwareRasteriser.cpp:145 | the divided x, y, z scaled back by w are the original ones: the same homogeneous point |
| Geometry.DivVec3KeepsSign | SoftwareRasteriser/SoftwareRasteriser.cpp:208-218 | dividing `(u, v, 1)` by a positive w keeps every component's sign, so the prepared 1/w is positive |
| Geometry.DivVec3Sign | SoftwareRasteriser/SoftwareRasteriser.cpp:208-218 | dividing `(u, v, 1)` by w gives a third component with the sign of w, positive in front of the eye and negative behind it |
| Geometry.PortMap.Apply | SoftwareRasteriser/SoftwareRasteriser.cpp:59 | `Translation(half) * Scale(half)` leaves w unchanged |
| Geometry.HalfExtent | SoftwareRasteriser/SoftwareRasteriser.cpp:57 | `(n - 1) * 0.5f` is (n − 1)/2 for n ≥ 1; for n = 0 the unsigned subtraction wraps to (2^32 − 1)/2 |
| Geometry.PortFor | SoftwareRasteriser/SoftwareRasteriser.cpp:55-59 | the port matrix for a w-by-h screen: half extents (w − 1)/2 and (h − 1)/2 with the unsigned wrap, and depth scale (2^16 − 1)/2; PortCorners, PortKeepsNdcOnScreen and Triangles.PortScalesArea state what it does |
| Geometry.PortCorners | SoftwareRasteriser/SoftwareRasteriser.cpp:55-59 | the port matrix maps NDC corner (−1, −1, −1) to pixel (0, 0), depth 0, and corner (1, 1, 1) to (w − 1, h − 1), depth 65535 |
| Geometry.PortKeepsNdcOnScreen | SoftwareRasteriser/SoftwareRasteriser.cpp:57-59 | an NDC coordinate in [−1, 1] maps into [0, n − 1] |
| Geometry.PortKeepsPointOnScreen | SoftwareRasteriser/SoftwareRasteriser.cpp:147-148 | a point of the NDC square with w = 1 truncates to a pixel of the w-by-h screen |
| Fragments.Plot | SoftwareRasteriser/SoftwareRasteriser.cpp:290 | the pixel sink: an on-screen write sets cell y·w + x to the packed colour and changes no other cell; an off-screen write changes nothing |
| Fragments.CellInBuffer | SoftwareRasteriser/SoftwareRasteriser.cpp:107 | the row-major index y·w + x of an on-screen pixel lies inside the w·h buffer |
| Fragments.Paint | SoftwareRasteriser/SoftwareRasteriser.cpp:285-290 | the buffer after ShadePixel has been called on each write in turn, the same length as before; PaintAppend, PaintLeavesOtherCells and PaintLastWriteWins state what it leaves in each cell |
| Fragments.PaintAppend | SoftwareRasteriser/SoftwareRasteriser.cpp:155-166 | drawing one run of writes and then another is drawing their concatenation |
| Fragments.PaintLeavesOtherCells | SoftwareRasteriser/SoftwareRasteriser.cpp:290 | a cell no on-screen write addresses keeps its old value |
| Fragments.PaintLastWriteWins | SoftwareRasteriser/SoftwareRasteriser.cpp:290 | a cell ends up with the colour of the last on-screen write addressed to it |
| Lines.StepSign | SoftwareRasteriser/SoftwareRasteriser.cpp:244-245 | the step direction is ±1, and −1 exactly when the delta is negative |
| Lines.SetupLine | SoftwareRasteriser/SoftwareRasteriser.cpp:240-283 | y is the scan axis exactly when \|dy\| > \|dx\|; the range is the truncated major delta; the scan and target steps are the signs of the major and minor deltas; the absolute slope is in [0, 1]; the walk starts at the truncated first endpoint |
| Lines.Step | SoftwareRasteriser/SoftwareRasteriser.cpp:292-298 | an iteration moves the scan coordinate by exactly its step and the target coordinate by 0 or its step |
| Lines.StateAt | SoftwareRasteriser/SoftwareRasteriser.cpp:247-298 | the loop's (x, y, error) at the start of iteration k: the truncated first endpoint with error 0, then k applications of the loop body; its properties are ScanAdvances, ErrorBounded and WalkStaysNearIdeal |
| Lines.LineColourAt | SoftwareRasteriser/SoftwareRasteriser.cpp:283-288 | the colour of write k, `colB * t + colA * (1 - t)` with `t = k * reciprocalRange`; LineColourIsInterpolated shows t = k / range and LineColourBetween bounds every channel |
| Lines.LineFragments | SoftwareRasteriser/SoftwareRasteriser.cpp:285-299 | the walk issues exactly `range` writes |
| Lines.ScanAdvances | SoftwareRasteriser/SoftwareRasteriser.cpp:298 | after k iterations the scan coordinate has moved by k times its step |
| Lines.ErrorBounded | SoftwareRasteriser/SoftwareRasteriser.cpp:280-297 | with a slope of at most 1 the error accumulator stays in (−1/2, 1/2] |
| Lines.IdealMovesIsLinear | SoftwareRasteriser/SoftwareRasteriser.cpp:292 | adding the slope k times accumulates k·\|slope\| |
| Lines.TargetMovesTrackSlope | SoftwareRasteriser/SoftwareRasteriser.cpp:292-297 | the target steps taken equal the ideal distance k·\|slope\| minus the current error |
| Lines.WalkStaysNearIdeal | SoftwareRasteriser/SoftwareRasteriser.cpp:285-299 | after k iterations the minor axis has moved k·\|slope\| from the start pixel, to within one half (Bresenham's accuracy); this measures from the truncated start, not from the segment between the endpoints |
| Lines.StaysNearIdealLine | SoftwareRasteriser/SoftwareRasteriser.cpp:235-300 | the same half-pixel accuracy, measured from the start pixel, for the walk of every pair of endpoints |
| Lines.WalkMoves | SoftwareRasteriser/SoftwareRasteriser.cpp:292-298 | along any line, each iteration moves the scan coordinate by ±1 and the target coordinate by 0 or its step |
| Lines.NoPixelTwice | SoftwareRasteriser/SoftwareRasteriser.cpp:285-299 | no two writes of one line address the same pixel |
| Lines.LineStartsAtFirstEndpoint | SoftwareRasteriser/SoftwareRasteriser.cpp:247-290 | a nonempty line's first write is at the truncated first endpoint, in colour colA |
| Lines.LineColourIsInterpolated | SoftwareRasteriser/SoftwareRasteriser.cpp:283-288 | write k blends the endpoint colours at t = k / range, which lies in [0, 1) |
| Lines.LineColourByReciprocal | SoftwareRasteriser/SoftwareRasteriser.cpp:283-288 | the colour computed with `reciprocalRange` taken before the loop is the colour of write k |
| Lines.LineColourBetween | SoftwareRasteriser/SoftwareRasteriser.cpp:287-288 | every channel of every write lies between the endpoint colours' channels |
| Lines.CoincidentEndpointsDrawNothing | SoftwareRasteriser/SoftwareRasteriser.cpp:257-285 | a line whose endpoints coincide writes nothing, although `1.0f / range` divides by zero |
| Lines.LineCountSymmetric | SoftwareRasteriser/SoftwareRasteriser.cpp:260-272 | a line drawn in either direction writes the same number of pixels |
| Lines.HorizontalLineExample | SoftwareRasteriser/SoftwareRasteriser.cpp:235-300 | the line from (0, 0) to (4, 0) writes exactly (0, 0), (1, 0), (2, 0), (3, 0), in the endpoint colours blended at t = 0, 1/4, 1/2 and 3/4 |
| Triangles.ScreenAreaOfTri | SoftwareRasteriser/SoftwareRasteriser.cpp:330-337 | half the shoelace sum of the three vertices: the signed area, positive for counter-clockwise vertices in screen coordinates; AreaWinding, AreaSplitsAtPoint and PortScalesArea state its properties |
| Triangles.AreaWinding | SoftwareRasteriser/SoftwareRasteriser.cpp:330-337 | swapping two vertices negates the signed area; rotating them keeps it |
| Triangles.AreaSplitsAtPoint | SoftwareRasteriser/SoftwareRasteriser.cpp:361-365 | the signed sub-areas a point forms with the three edges add up to the whole area |
| Triangles.PortScalesArea | SoftwareRasteriser/SoftwareRasteriser.cpp:344-350 | the port map multiplies every area by hx·hy and so keeps the winding |
| Triangles.CalculateBoxForTri | SoftwareRasteriser/SoftwareRasteriser.cpp:302-328 | a coordinate is in the box iff it is in the triangle's extent and in [0, width] (resp. [0, height]); the box lies within the screen |
| Triangles.SubArea0 | SoftwareRasteriser/SoftwareRasteriser.cpp:361 | `abs(ScreenAreaOfTri(v0, p, v1))`; AreaSplitsAtPoint, ContainmentTest and InsideSubAreas state its properties |
| Triangles.SubArea1 | SoftwareRasteriser/SoftwareRasteriser.cpp:362 | `abs(ScreenAreaOfTri(v1, p, v2))`; AreaSplitsAtPoint, ContainmentTest and InsideSubAreas state its properties |
| Triangles.SubArea2 | SoftwareRasteriser/SoftwareRasteriser.cpp:363 | `abs(ScreenAreaOfTri(v2, p, v0))`; AreaSplitsAtPoint, ContainmentTest and InsideSubAreas state its properties |
| Triangles.TriSum | SoftwareRasteriser/SoftwareRasteriser.cpp:365 | the sum of the three absolute sub-areas; ContainmentTest shows it is at least the area, and equal to it exactly for an inside sample |
| Triangles.Accepted | SoftwareRasteriser/SoftwareRasteriser.cpp:361-374 | the containment test: a sample passes when its three absolute sub-areas add up to at most the area plus 0.9 and to at least 1; AcceptedNeedsArea, ContainmentTest and InsideSampleAccepted state what it decides |
| Triangles.AcceptedNeedsArea | SoftwareRasteriser/SoftwareRasteriser.cpp:367-374 | the two rejections let a sample through only if the triangle's area is at least 0.1 |
| Triangles.Weights | SoftwareRasteriser/SoftwareRasteriser.cpp:376-378 | (alpha, beta, gamma): the sub-areas opposite v0, v1 and v2 times the reciprocal of the area; WeightsOfAcceptedSample and InsideWeightsAreBarycentric state what they are |
| Triangles.NormaliseIsQuotient | SoftwareRasteriser/SoftwareRasteriser.cpp:376-378 | for a nonzero area, each sub-area times `areaRecip` is the sub-area divided by the area |
| Triangles.WeightsByReciprocal | SoftwareRasteriser/SoftwareRasteriser.cpp:351-378 | alpha, beta, gamma computed with `areaRecip` are the model's weights, alpha from the sub-area opposite v0 |
| Triangles.WeightsAreQuotients | SoftwareRasteriser/SoftwareRasteriser.cpp:367-378 | at an accepted sample the area is positive and each weight is its sub-area divided by the area |
| Triangles.WeightsOfAcceptedSample | SoftwareRasteriser/SoftwareRasteriser.cpp:365-378 | the weights of an accepted sample are non-negative and add up to triSum/triArea, between 1/triArea and 1 + 0.9/triArea |
| Triangles.BlendTex | SoftwareRasteriser/SoftwareRasteriser.cpp:381 | `texA*alpha + texB*beta + texC*gamma`, component by component; BlendTexInHull, BlendedInverseWNonzero and PerspectiveDivideAtVertex state its properties |
| Triangles.PerspectiveTexCoord | SoftwareRasteriser/SoftwareRasteriser.cpp:381-384 | at an accepted sample of a triangle whose three 1/w share a sign, the sampled coordinate keeps a nonzero 1/w of that sign |
| Triangles.PerspectiveDivide | SoftwareRasteriser/SoftwareRasteriser.cpp:383-384 | 1/w itself is kept; when it is nonzero the divided u and v times it are the blended u/w and v/w |
| Triangles.BlendedInverseWNonzero | SoftwareRasteriser/SoftwareRasteriser.cpp:380-384 | at an accepted sample of a triangle whose three 1/w share a sign the blended 1/w is nonzero and has that sign, so the divide never divides by zero |
| Triangles.NegativeCombination | SoftwareRasteriser/SoftwareRasteriser.cpp:381 | blending three negative 1/w with non-negative weights, not all zero, gives a negative 1/w |
| Triangles.ShadeColour | SoftwareRasteriser/SoftwareRasteriser.cpp:380-395 | the colour of an accepted sample: the texture's nearest sample at PerspectiveTexCoord when a texture is bound, otherwise the vertex colours blended with alpha, beta, gamma |
| Triangles.InsideColourBetween | SoftwareRasteriser/SoftwareRasteriser.cpp:389-394 | inside an untextured triangle every channel of a sample's colour lies between the least and the greatest of the vertex colours' channels |
| Triangles.PixelFragments | SoftwareRasteriser/SoftwareRasteriser.cpp:358-395 | a sample issues at most one write, and exactly one iff it passes both rejection tests |
| Triangles.RowFragments | SoftwareRasteriser/SoftwareRasteriser.cpp:357-396 | the writes of the inner loop from sample x to the end of the row, in order, one PixelFragments per sample; RowStep and RowOnScreen state its properties |
| Triangles.RowsFragments | SoftwareRasteriser/SoftwareRasteriser.cpp:356-398 | the writes of the outer loop from row y to the bottom of the box, row after row; RowsStep and RowsOnScreen state its properties |
| Triangles.TriangleFragments | SoftwareRasteriser/SoftwareRasteriser.cpp:339-400 | all writes of RasteriseTri: the rows of the clamped bounding box, top to bottom; TriangleFragmentsOnScreen and ThinTriangleDrawsNothing state its properties |
| Triangles.RowStep | SoftwareRasteriser/SoftwareRasteriser.cpp:357 | one inner-loop iteration: the sample at x, then the rest of the row from x + 1, is the row from x |
| Triangles.RowsStep | SoftwareRasteriser/SoftwareRasteriser.cpp:356 | one outer-loop iteration: row y, then the rows from y + 1, is the rows from y |
| Triangles.RowOnScreen | SoftwareRasteriser/SoftwareRasteriser.cpp:357-395 | every write of a row inside the clamped box is on screen |
| Triangles.RowsOnScreen | SoftwareRasteriser/SoftwareRasteriser.cpp:356-398 | every write of the rows of the clamped box is on screen |
| Triangles.TriangleFragmentsOnScreen | SoftwareRasteriser/SoftwareRasteriser.cpp:348-398 | every pixel RasteriseTri writes is in [0, w) × [0, h): the clamped box alone keeps it on screen |
| Triangles.ThinRowEmpty | SoftwareRasteriser/SoftwareRasteriser.cpp:357-374 | a row of a triangle with area below 0.1 writes nothing |
| Triangles.ThinRowsEmpty | SoftwareRasteriser/SoftwareRasteriser.cpp:356-374 | no row of a triangle with area below 0.1 writes anything |
| Triangles.ThinTriangleDrawsNothing | SoftwareRasteriser/SoftwareRasteriser.cpp:339-374 | a triangle whose signed area is below 0.1 writes no pixel; this covers every zero-area and every clockwise triangle |
| Triangles.ReversedWindingDrawsNothing | SoftwareRasteriser/SoftwareRasteriser.cpp:330-374 | back-face culling: swapping the first two vertices of a counter-clockwise triangle makes it draw nothing |
| Triangles.ContainmentTest | SoftwareRasteriser/SoftwareRasteriser.cpp:361-374 | for a counter-clockwise triangle the absolute sub-areas add up to at least the area, and to exactly the area iff the sample is inside |
| Triangles.InsideSampleAccepted | SoftwareRasteriser/SoftwareRasteriser.cpp:367-374 | every sample inside a triangle of area at least 1 passes both tests |
| Triangles.OutsideBeyondToleranceRejected | SoftwareRasteriser/SoftwareRasteriser.cpp:367-370 | a sample whose sub-areas exceed the area by more than 0.9 is rejected and writes nothing |
| Triangles.InsideSubAreas | SoftwareRasteriser/SoftwareRasteriser.cpp:361-363 | inside the triangle the absolute sub-areas are the signed ones: `abs` changes nothing |
| Triangles.InsideSubAreasRecombine | SoftwareRasteriser/SoftwareRasteriser.cpp:361-378 | inside the triangle the sub-areas weighting the vertices give the area times the sample position |
| Triangles.InsideWeightsAreBarycentric | SoftwareRasteriser/SoftwareRasteriser.cpp:376-378 | for an accepted inside sample (alpha, beta, gamma) add up to 1 and recombine the vertices into the sample point |
| Triangles.InsideWeightsSumToOne | SoftwareRasteriser/SoftwareRasteriser.cpp:376-378 | for an accepted inside sample alpha + beta + gamma = 1 |
| Triangles.InsideWeightsRecombineX | SoftwareRasteriser/SoftwareRasteriser.cpp:376-378 | for an accepted inside sample alpha·v0.x + beta·v1.x + gamma·v2.x is the sample's x |
| Triangles.InsideWeightsRecombineY | SoftwareRasteriser/SoftwareRasteriser.cpp:376-378 | for an accepted inside sample alpha·v0.y + beta·v1.y + gamma·v2.y is the sample's y |
| Triangles.Barycentric | SoftwareRasteriser/SoftwareRasteriser.cpp:361-378 | the signed sub-areas opposite each vertex recombine the vertices into area × point |
| Triangles.PerspectiveDivideInHull | SoftwareRasteriser/SoftwareRasteriser.cpp:381-384 | blending (u/w, 1/w) with non-negative weights and dividing gives a u between the smallest and largest vertex u, whether the three 1/w are all positive or all negative |
| Triangles.PerspectiveDivideAtVertex | SoftwareRasteriser/SoftwareRasteriser.cpp:381-384 | with all weight on one vertex the divide gives back that vertex's own (u, v) |
| Triangles.BlendTexInHull | SoftwareRasteriser/SoftwareRasteriser.cpp:381-384 | with three 1/w of one sign, both divided coordinates lie within the span of the vertices' own (u, v) |
| Triangles.TexturedSampleInHull | SoftwareRasteriser/SoftwareRasteriser.cpp:376-386 | the coordinate sampled for an accepted pixel of a triangle wholly in front of or wholly behind the eye lies within the span of the vertices' texture coordinates |
| Pipeline.Clip | SoftwareRasteriser/SoftwareRasteriser.cpp:141-144 | vertex i in clip space: the model matrix applied, then the view-projection, as `mvp * vertices[i]`; InverseWSign and TriangleOnOneSide use the sign of its w |
| Pipeline.Ndc | SoftwareRasteriser/SoftwareRasteriser.cpp:145 | vertex i after SelfDivisionByW of its clip-space position; Geometry.DivideByW and DivideByWUndone state what the division does |
| Pipeline.PointFragment | SoftwareRasteriser/SoftwareRasteriser.cpp:144-148 | the write for vertex i: white, at the truncated x and y of the vertex transformed, divided by w and port-mapped |
| Pipeline.PointsFragments | SoftwareRasteriser/SoftwareRasteriser.cpp:143-149 | the writes of the first k iterations of RasterisePointsMesh: PointFragment of vertices 0 to k − 1, in order |
| Pipeline.PointsOnePerVertex | SoftwareRasteriser/SoftwareRasteriser.cpp:140-150 | a points mesh issues exactly one white write per vertex, in vertex order |
| Pipeline.EdgeFragments | SoftwareRasteriser/SoftwareRasteriser.cpp:156-165 | the writes of `RasteriseLine(v0, v1, c0, c1)` for the two vertices of an edge, transformed, divided and port-mapped, in their own colours |
| Pipeline.EdgesFragments | SoftwareRasteriser/SoftwareRasteriser.cpp:152-197 | the writes of a sequence of edges drawn one after the other; LinePairsStep, ChainStep and EdgesFragmentsCount state its properties |
| Pipeline.LinePairs | SoftwareRasteriser/SoftwareRasteriser.cpp:155-160 | a lines mesh of n vertices is drawn as the n/2 pairs (2k, 2k + 1), all within the mesh |
| Pipeline.Chain | SoftwareRasteriser/SoftwareRasteriser.cpp:172-178 | the line-loop loop draws (j, j + 1) in iteration j |
| Pipeline.LineLoopEdges | SoftwareRasteriser/SoftwareRasteriser.cpp:172-190 | a line loop of n ≥ 1 vertices draws n lines: (k, k + 1) for k < n − 1, then the closing line (0, n − 1) |
| Pipeline.LoopIsClosed | SoftwareRasteriser/SoftwareRasteriser.cpp:169-197 | every vertex of a loop is joined, in one direction or the other, to its successor around the loop |
| Pipeline.AllPairsDrawn | SoftwareRasteriser/SoftwareRasteriser.cpp:155 | after n/2 iterations every pair has been drawn |
| Pipeline.LinePairsStep | SoftwareRasteriser/SoftwareRasteriser.cpp:155-166 | iteration k of RasteriseLinesMesh adds exactly the writes of line (2k, 2k + 1) |
| Pipeline.LinePairsSnoc | SoftwareRasteriser/SoftwareRasteriser.cpp:155-165 | the first k + 1 pairs draw the first k, then line (2k, 2k + 1), whose vertices exist |
| Pipeline.ChainStep | SoftwareRasteriser/SoftwareRasteriser.cpp:172-185 | iteration i of RasteriseLineLoops adds exactly the writes of line (i, i + 1) |
| Pipeline.LoopClosingStep | SoftwareRasteriser/SoftwareRasteriser.cpp:186-196 | the loop's writes are the chain's, then the closing line's |
| Pipeline.EdgesFragmentsCount | SoftwareRasteriser/SoftwareRasteriser.cpp:152-197 | a line mesh makes as many writes as its lines' ranges add up to |
| Pipeline.TrianglesReady | SoftwareRasteriser/SoftwareRasteriser.cpp:200-218 | what RasteriseTriMesh reads: whole triangles and a texture coordinate for every vertex, on top of w ≠ 0 for the divide |
| Pipeline.TriangleAt | SoftwareRasteriser/SoftwareRasteriser.cpp:203-228 | the arguments of RasteriseTri for triangle k: vertices 3k, 3k + 1, 3k + 2 transformed, divided and port-mapped, their colours, their `(u, v, 1) / w` and the bound texture |
| Pipeline.TriangleOnOneSide | SoftwareRasteriser/SoftwareRasteriser.cpp:203-228 | a triangle whose three clip-space w share a sign reaches RasteriseTri with three 1/w of that sign |
| Pipeline.TriangleAtUnfold | SoftwareRasteriser/SoftwareRasteriser.cpp:203-228 | triangle k is vertices 3k, 3k + 1, 3k + 2, port-mapped, with their colours and their coordinates divided by w |
| Pipeline.TexOf | SoftwareRasteriser/SoftwareRasteriser.cpp:208-218 | vertex i's `Vector3(u, v, 1.0f) / w` with the clip-space w; InverseWSign and TriangleAtUnfold state its properties |
| Pipeline.InverseWSign | SoftwareRasteriser/SoftwareRasteriser.cpp:208-218 | each prepared 1/w is positive exactly when the vertex's clip-space w is, and negative exactly when w is |
| Pipeline.TrianglesFragments | SoftwareRasteriser/SoftwareRasteriser.cpp:200-230 | the writes of the first k iterations of RasteriseTriMesh: TriangleFragments of triangles 0 to k − 1, in order |
| Pipeline.TrianglesStep | SoftwareRasteriser/SoftwareRasteriser.cpp:203-229 | iteration k of RasteriseTriMesh adds exactly the writes of triangle k |
| Pipeline.AppendTriangleOnScreen | SoftwareRasteriser/SoftwareRasteriser.cpp:223-228 | drawing one more triangle keeps every write so far on screen |
| Pipeline.TrianglesOnScreen | SoftwareRasteriser/SoftwareRasteriser.cpp:200-230 | however the mesh is placed, every write of a triangle mesh is on screen |
| Pipeline.ThinTrianglesDrawNothing | SoftwareRasteriser/SoftwareRasteriser.cpp:200-230 | a mesh whose triangles are all clockwise or thinner than 0.1 on screen draws nothing |
| Pipeline.Drawable | SoftwareRasteriser/SoftwareRasteriser.cpp:118-136 | what the driver DrawObject picks reads: an even count for lines, whole triangles with texture coordinates for triangles, at least one vertex for line loops |
| Pipeline.ObjectFragments | SoftwareRasteriser/SoftwareRasteriser.cpp:118-136 | the writes of DrawObject: those of the driver for the mesh's primitive tag |
| Pipeline.DemoTriangleFacesFront | SoftwareRasteriser/Mesh.cpp:48-51 | drawn untransformed, the demo triangle has area 1/2 in NDC and a positive area on every screen of at least 2 × 2 pixels |
| Pipeline.StarLandsOnScreen | SoftwareRasteriser/Mesh.cpp:75-79 | a placed star drawn untransformed lands on a pixel of the screen |
| Raster.SoftwareRasteriser.GetCurrentBuffer | SoftwareRasteriser/SoftwareRasteriser.cpp:95-97 | the buffer drawn into is buffer 0 exactly when the index is 0, and it has one cell per pixel |
| Raster.SoftwareRasteriser.OtherBuffer | SoftwareRasteriser/SoftwareRasteriser.cpp:113-116 | the buffer not drawn into is the other of the two and has one cell per pixel |
| Raster.SoftwareRasteriser.constructor | SoftwareRasteriser/SoftwareRasteriser.cpp:36-60 | fresh colour and depth buffers of width × height cells, buffer 0 current, no texture, and the port matrix of that size |
| Raster.SoftwareRasteriser.Resize | SoftwareRasteriser/SoftwareRasteriser.cpp:71-93 | fresh buffers of the new size and the port matrix for it; buffer index, texture, matrices and presented frames are kept |
| Raster.SoftwareRasteriser.ClearBuffers | SoftwareRasteriser/SoftwareRasteriser.cpp:99-111 | every cell of the current buffer becomes 0xFF000000 and every depth cell `~0` narrowed to 16 bits, 0xFFFF; the other buffer is unchanged |
| Raster.SoftwareRasteriser.SwapBuffers | SoftwareRasteriser/SoftwareRasteriser.cpp:113-116 | the current buffer's contents are presented, the other buffer becomes current, and nothing else changes |
| Raster.SoftwareRasteriser.ShadePixel | SoftwareRasteriser/SoftwareRasteriser.cpp:290 | the current buffer becomes `Plot` of the old one: the bounds-checked write |
| Raster.SoftwareRasteriser.RasteriseLine | SoftwareRasteriser/SoftwareRasteriser.cpp:235-300 | the current buffer becomes the old one with the line's writes painted in order |
| Raster.SoftwareRasteriser.Walk | SoftwareRasteriser/SoftwareRasteriser.cpp:285-299 | the loop paints exactly `LineFragments` of the set-up, in order |
| Raster.SoftwareRasteriser.RasteriseSample | SoftwareRasteriser/SoftwareRasteriser.cpp:358-395 | one inner-loop body paints the sample's write, if it is accepted |
| Raster.SoftwareRasteriser.RasteriseTri | SoftwareRasteriser/SoftwareRasteriser.cpp:339-400 | the current buffer becomes the old one with the triangle's writes painted in scan order |
| Raster.SoftwareRasteriser.RasteriseRows | SoftwareRasteriser/SoftwareRasteriser.cpp:356-398 | the outer loop paints the rows of the box top to bottom |
| Raster.SoftwareRasteriser.RasteriseRow | SoftwareRasteriser/SoftwareRasteriser.cpp:357-396 | the inner loop paints one row of the box left to right |
| Raster.SoftwareRasteriser.RasterisePointsMesh | SoftwareRasteriser/SoftwareRasteriser.cpp:140-150 | the current buffer becomes the old one with one white write per vertex painted in order |
| Raster.SoftwareRasteriser.DrawEdge | SoftwareRasteriser/SoftwareRasteriser.cpp:156-165 | one line-driver step paints the line between two transformed, divided vertices in their colours |
| Raster.SoftwareRasteriser.RasteriseLinesMesh | SoftwareRasteriser/SoftwareRasteriser.cpp:152-167 | the current buffer becomes the old one with lines (0, 1), (2, 3), ... painted in order |
| Raster.SoftwareRasteriser.RasteriseLineLoops | SoftwareRasteriser/SoftwareRasteriser.cpp:169-197 | the current buffer becomes the old one with the chain, then the closing line (0, n − 1), painted |
| Raster.SoftwareRasteriser.RasteriseTriMesh | SoftwareRasteriser/SoftwareRasteriser.cpp:200-230 | the current buffer becomes the old one with triangles (0, 1, 2), (3, 4, 5), ... painted in order |
| Raster.SoftwareRasteriser.DrawTriangle | SoftwareRasteriser/SoftwareRasteriser.cpp:204-228 | one triangle-driver step paints triangle k with its prepared texture coordinates |
| Raster.SoftwareRasteriser.DrawObject | SoftwareRasteriser/SoftwareRasteriser.cpp:118-136 | binds the object's texture, paints what the driver for its primitive tag paints, and changes nothing else |
| Raster.ClearRows | SoftwareRasteriser/SoftwareRasteriser.cpp:105-110 | the nested loops set every colour cell and every depth cell |
| Raster.ClearRow | SoftwareRasteriser/SoftwareRasteriser.cpp:106-109 | the inner loop sets the w cells of one row and leaves every other cell alone |
| Raster.Advance | SoftwareRasteriser/SoftwareRasteriser.cpp:292-298 | the end of a line iteration, with the `target`/`scan` pointers, is the model's Step |
| Raster.ShadeSample | SoftwareRasteriser/SoftwareRasteriser.cpp:358-395 | a sample passes iff it is Accepted, and its colour is then the texture's sample or the blended vertex colour |
| Raster.TransformTriangle | SoftwareRasteriser/SoftwareRasteriser.cpp:204-220 | the three vertices of triangle k in NDC and their coordinates `(u, v, 1) / w` |
| Meshes.Mesh.GetType | SoftwareRasteriser/Mesh.h:45 | returns the primitive tag |
| Meshes.Mesh.WellFormed | SoftwareRasteriser/Mesh.h:51-57 | every array present has exactly numVertices entries, and numVertices fits an `unsigned int` |
| Meshes.Point | SoftwareRasteriser/Mesh.cpp:26-27 | `Vector4(v.x, v.y, v.z, 1.0f)` keeps x, y, z and sets w = 1 |
| Meshes.NewMesh | SoftwareRasteriser/Mesh.cpp:3-11 | a new mesh is a well-formed points mesh with no vertices and no arrays |
| Meshes.GenerateLine | SoftwareRasteriser/Mesh.cpp:19-37 | a well-formed lines mesh of the two points, red then blue, untextured |
| Meshes.GenerateTriangle | SoftwareRasteriser/Mesh.cpp:40-65 | the well-formed demo triangle with its fixed vertices, red-yellow-red colours and texture coordinates |
| Meshes.RandUnit | SoftwareRasteriser/Mesh.cpp:76-78 | a draw in [0, RAND_MAX] is rescaled into [−1, 1], 0 to −1 and RAND_MAX to 1 |
| Meshes.GenerateStars | SoftwareRasteriser/Mesh.cpp:67-87 | a well-formed points mesh of 4000 vertices whose first 2000 are white stars in the NDC cube, from successive draws |
| Meshes.ShapeColoursAlternate | SoftwareRasteriser/Mesh.cpp:103-108 | the outline's six colours alternate between two different colours |
| Meshes.GenerateShapes | SoftwareRasteriser/Mesh.cpp:89-114 | a well-formed line-loop mesh of the six points in the alternating colours, untextured |
| Meshes.WellFormedFile | SoftwareRasteriser/Mesh.cpp:124-151 | a complete file: a whole vertex count below 2^32, whole flags, then 3 values per vertex and, when the colour flag is set, 4 byte-valued channels per vertex |
| Meshes.FileLength | SoftwareRasteriser/Mesh.cpp:126-151 | the loader consumes the header and at most the values the file has |
| Meshes.Parse | SoftwareRasteriser/Mesh.cpp:124-151 | a file's content has as many positions as its count says, and colours exactly when its colour flag is set |
| Meshes.Serialise | SoftwareRasteriser/Mesh.cpp:126-151 | a mesh file's content written in the loader's layout: count, texture flag, colour flag, the positions, then the colours; ParseSerialise and SerialiseParse show it inverts Parse |
| Meshes.ParseSerialise | SoftwareRasteriser/Mesh.cpp:126-151 | writing a mesh file's content out and loading it gives the same content, consuming the whole file |
| Meshes.SerialiseParse | SoftwareRasteriser/Mesh.cpp:126-151 | loading a file and writing the content out gives back exactly the values the loader consumed |
| Meshes.LoadMeshFile | SoftwareRasteriser/Mesh.cpp:116-154 | None exactly when opening fails; otherwise a well-formed triangles mesh with the file's count and positions, the file's colours when its colour flag is set, and a texture-coordinate array |
| Meshes.ReadPositions | SoftwareRasteriser/Mesh.cpp:138-143 | vertex j's x, y and z are file values 3 + 3j, 3 + 3j + 1, 3 + 3j + 2, and all of them are consumed |
| Meshes.ReadColours | SoftwareRasteriser/Mesh.cpp:144-151 | colour j's r, g, b, a are the four file values after the positions, and all of them are consumed |
| Meshes.ExtractChar | SoftwareRasteriser/Mesh.cpp:146-147 | `f >> c` into an `unsigned char`: the byte taken is the first non-blank one and the rest is shorter; None exactly when only blanks are left |
| Meshes.ReadColourAsWritten | SoftwareRasteriser/Mesh.cpp:146-147 | the four channel extractions of one colour as written, each taking one character; at least four bytes are consumed |
| Meshes.ColourLineMisread | SoftwareRasteriser/Mesh.cpp:146-147 | the colour line "255 0 0 255" read as written gives the channels '2', '5', '5', '0' (50, 53, 53, 48), not red, and leaves " 0 255" unread |

## Left out

- The source's headers are not part of this model: SoftwareRasteriser.h, Window, Colour.h, Texture.h, Matrix4, the Vector classes and RenderObject.h.
- The pixel sink `ShadePixel` is defined in SoftwareRasteriser.h. It is modelled as a bounds check against the screen followed by a write at index y·w + x.
- Colour layout: packing assumes the usual little-endian union, red in the lowest byte and alpha in the highest.
- Colour arithmetic: the channel blends are exact, then clamped to 0..255 and truncated once per channel on store.
- Texture: `NearestTextSample` is an arbitrary function of the coordinate.
- Matrices: each is modelled as the map it applies to a homogeneous vertex. `viewProjMatrix * modelMatrix` is applied as the model matrix first, then the view-projection, since matrix products are associative.
- The view-projection matrix is Matrix4's default, taken to be the identity. SetProjectionMatrix and SetViewMatrix live in the header and are left out.
- Floating point: IEEE rounding, infinities and NaN are not modelled. `float` is `real`, and `abs` on a float is the real absolute value.
- `1.0f / 0` is modelled as 0. This covers `1.0f / range` for a line of range 0 and `1.0f / triArea` for a zero-area triangle; in both cases no use of the value is reached.
- Triangles.PerspectiveDivide: where the blended 1/w is 0, the source divides by zero and hands infinities or NaN to `NearestTextSample`; the model divides to 0 there (Common.Quot). That needs 1/w of both signs among the vertices; for vertices all in front of or all behind the eye, BlendedInverseWNonzero proves it cannot happen.
- The slope of a line with coincident endpoints is 0/0 in the source and 0 in the model. Its loop runs zero times either way.
- The (uint) casts of negative screen coordinates (lines 148, 394) are modelled as truncation toward zero. A wrapped value would fail the pixel sink's bounds check just as a negative one does, so the written pixels are the same. Line 394 only sees x, y ≥ 0.
- The product width × height is not wrapped modulo 2^32 when the buffers are allocated. A screen that large is out of scope.
- rand() and RAND_MAX are parameters of GenerateStars: the sequence of draws and its maximum.
- File I/O: LoadMeshFile receives the open result and the values its stream extractions yield. A missing or unreadable file is the only error path modelled.
- Meshes.LoadMeshFile requires a complete, well-formed file. A truncated stream or a non-numeric token, which leave the source's variables unread, is not modelled.
- Meshes.LoadMeshFile reads each colour channel as a number, the reading under which a file's content loads back. The single-character reading the code has is modelled beside it (see Findings).
- Loaded vertices keep the w their allocation left (Vector4's default constructor is not part of this model). Cells a factory never assigns are left unconstrained: GenerateStars' vertices and colours 2000..3999, the loader's texture coordinates, and the loader's colours when the file's colour flag is 0. So for the GenerateStars mesh, which main.cpp draws, Pipeline.Drawable cannot be established: Renderable needs w ≠ 0 at every vertex, and slots 2000..3999 leave w unconstrained. Pipeline.StarLandsOnScreen covers the 2000 placed stars only.
- Preconditions from the source's undefined behaviour:
  - RasteriseLinesMesh requires an even vertex count, since an odd one reads past the arrays.
  - RasteriseLineLoops requires at least one vertex, since `numVertices - 1` wraps for an empty mesh.
  - RasteriseTriMesh requires a vertex count divisible by 3 and texture coordinates present.
  - Every vertex needs w ≠ 0 in clip space.
- `USE_OS_BUFFERS`, `Window::Resize` and `PresentBuffer` are left out. Presenting appends the buffer's contents to a ghost history; resizing takes the new size as parameters.
- The destructors and the deletes of old buffers are left out. Dafny's memory is garbage collected.
- The colour buffers hold whatever Colour's default constructor sets (Colour.h is not part of this model), and the depth buffer (`new unsigned short[...]`) is uninitialised. The model leaves both unconstrained.
- The depth buffer is only cleared: no rasteriser reads or writes it, so the model does neither.
- `main.cpp` and RasteriseLine's unused `texA`/`texB` parameters are left out. `friend` and `protected` access are not modelled.
- Named helpers have no counterpart of their own in the source:
  - Walk, Advance, RasteriseRow, RasteriseRows, RasteriseSample and ShadeSample are the loops and loop bodies of RasteriseLine and RasteriseTri.
  - DrawEdge, DrawTriangle and TransformTriangle are the loop bodies of the mesh drivers.
  - ClearRows and ClearRow are the loops of ClearBuffers.
  - ReadPositions and ReadColours are the loops of LoadMeshFile.
- Geometry.PortMap.Apply: its contract states only that w is kept. The map itself is fixed by its definition and characterised by PortCorners, PortKeepsNdcOnScreen and PortScalesArea.

## Findings

| source | as written | input that shows it | evidently intended | confidence | as-written member | corrected member |
|---|---|---|---|---|---|---|
| SoftwareRasteriser/Mesh.cpp:146-147 | `f >> m->colours[i].r` (and g, b, a) extracts into an `unsigned char` channel, which reads one non-blank character | a colour line "255 0 0 255" reads as channels 50, 53, 53, 48 and leaves " 0 255" for the next colour (ColourLineMisread) | each channel read as a decimal number 0..255, so that a written mesh loads back (ParseSerialise) | medium: the channel type is declared in Colour.h, which is not part of this model; not executed | Meshes.ReadColourAsWritten | Meshes.ReadColours |

## Code notes

- RasteriseLineLoops draws its closing edge from vertex 0 to vertex n − 1 (SoftwareRasteriser.cpp:186-196), not from the last vertex back to the first. LoopIsClosed shows every vertex still meets its successor.
- The port matrix is built from `(screenWidth - 1) * 0.5f` in `unsigned int` arithmetic. A width of 0 wraps, which HalfExtent states.
- The untextured colour is blended in screen space, without the 1/w correction the texture path applies. The model keeps this asymmetry.
