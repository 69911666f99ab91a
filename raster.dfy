/** The rasteriser object (SoftwareRasteriser.cpp): two colour buffers drawn
    into and presented alternately, a depth buffer, the port matrix of the
    current screen size and the drawing methods. Every drawing method is
    specified by the fragment sequence its pure counterpart produces: the
    current buffer afterwards is the old one with those fragments painted in
    order. */
module Raster {
  import opened Common
  import opened Colours
  import opened Geometry
  import opened Textures
  import opened Fragments
  import opened Lines
  import opened Triangles
  import opened Meshes
  import opened Pipeline

  class SoftwareRasteriser {
    var screenWidth: nat
    var screenHeight: nat
    /** `buffers[0]` and `buffers[1]`, each a row-major screen of packed colours. */
    var buffer0: array<Pixel>
    var buffer1: array<Pixel>
    var depthBuffer: array<uint16>
    /** The index of the buffer being drawn into. */
    var currentDrawBuffer: nat
    var portMatrix: PortMap
    var viewProjMatrix: Transform
    var currentTexture: Option<Texture>
    /** The contents of every buffer handed to PresentBuffer, oldest first. */
    ghost var presented: seq<seq<Pixel>>

    /** Two distinct colour buffers and a depth buffer, each one cell per
        pixel; a buffer index of 0 or 1; and the port matrix of the current
        screen size. */
    ghost predicate Valid()
      reads this
    {
      screenWidth < UINT32_LIMIT && screenHeight < UINT32_LIMIT
      && buffer0 != buffer1
      && buffer0.Length == screenWidth * screenHeight
      && buffer1.Length == screenWidth * screenHeight
      && depthBuffer.Length == screenWidth * screenHeight
      && currentDrawBuffer < 2
      && portMatrix == PortFor(screenWidth, screenHeight)
    }

    /** `buffers[currentDrawBuffer]`. */
    function GetCurrentBuffer(): (b: array<Pixel>)
      reads this
      requires Valid()
      ensures b == buffer0 || b == buffer1
      ensures b == buffer0 <==> currentDrawBuffer == 0
      ensures b.Length == screenWidth * screenHeight
    {
      if currentDrawBuffer == 0 then buffer0 else buffer1
    }

    /** The buffer not being drawn into. */
    function OtherBuffer(): (b: array<Pixel>)
      reads this
      requires Valid()
      ensures (b == buffer0 || b == buffer1) && b != GetCurrentBuffer()
      ensures b.Length == screenWidth * screenHeight
    {
      if currentDrawBuffer == 0 then buffer1 else buffer0
    }

    /** A rasteriser for a width-by-height window: fresh buffers (their
        contents are whatever the allocation left), buffer 0 current, no
        texture, and the port matrix of that size. The view-projection matrix
        is Matrix4's default value, taken to be the identity. */
    constructor(width: nat, height: nat)
      requires width < UINT32_LIMIT && height < UINT32_LIMIT
      ensures Valid()
      ensures screenWidth == width && screenHeight == height
      ensures fresh(buffer0) && fresh(buffer1) && fresh(depthBuffer)
      ensures currentDrawBuffer == 0 && currentTexture.None?
      ensures viewProjMatrix == Identity && presented == []
    {
      screenWidth := width;
      screenHeight := height;
      currentTexture := None;
      currentDrawBuffer := 0;
      buffer0 := new Pixel[width * height];
      buffer1 := new Pixel[width * height];
      depthBuffer := new uint16[width * height];
      var zScale := DepthHalfRange;
      var halfScreen := Vec3(HalfExtent(width), HalfExtent(height), zScale);
      portMatrix := PortMap(halfScreen);
      viewProjMatrix := Identity;
      presented := [];
    }

    /** The window has been resized to newWidth by newHeight: fresh buffers
        of the new size and the port matrix for it; the buffer index, the
        texture and the matrices are kept. */
    method Resize(newWidth: nat, newHeight: nat)
      requires Valid()
      requires newWidth < UINT32_LIMIT && newHeight < UINT32_LIMIT
      modifies this
      ensures Valid()
      ensures screenWidth == newWidth && screenHeight == newHeight
      ensures fresh(buffer0) && fresh(buffer1) && fresh(depthBuffer)
      ensures currentDrawBuffer == old(currentDrawBuffer) && currentTexture == old(currentTexture)
      ensures viewProjMatrix == old(viewProjMatrix) && presented == old(presented)
    {
      screenWidth := newWidth;
      screenHeight := newHeight;
      buffer0 := new Pixel[screenWidth * screenHeight];
      buffer1 := new Pixel[screenWidth * screenHeight];
      depthBuffer := new uint16[screenWidth * screenHeight];
      var zScale := DepthHalfRange;
      var halfScreen := Vec3(HalfExtent(screenWidth), HalfExtent(screenHeight), zScale);
      portMatrix := PortMap(halfScreen);
    }

    /** Every cell of the current buffer becomes the packed clear value
        (opaque black, lemma ClearValueIsOpaqueBlack) and every depth cell
        becomes `~0` narrowed to an `unsigned short`, which is 0xFFFF, the
        farthest depth. The other colour buffer is left alone. */
    method ClearBuffers()
      requires Valid()
      modifies GetCurrentBuffer(), depthBuffer
      ensures forall k :: 0 <= k < GetCurrentBuffer().Length ==> GetCurrentBuffer()[k] == ClearValue
      ensures forall k :: 0 <= k < depthBuffer.Length ==> depthBuffer[k] as int == 0xFFFF
      ensures OtherBuffer()[..] == old(OtherBuffer()[..])
    {
      var buffer := GetCurrentBuffer();
      var clearVal: uint32 := 0xFF00_0000;
      var depthVal: uint32 := (UINT32_LIMIT - 1) as uint32;
      // Stored into an `unsigned short`: only the low 16 bits are kept.
      var depthCell := (depthVal as int % UINT16_LIMIT) as uint16;
      assert depthCell as int == 0xFFFF;
      ClearRows(buffer, depthBuffer, screenWidth, screenHeight, clearVal, depthCell);
    }

    /** The current buffer is presented and the other one becomes current.
        No buffer's contents change, so two swaps in a row bring the original
        buffer back. */
    method SwapBuffers()
      requires Valid()
      modifies this
      ensures Valid()
      ensures presented == old(presented) + [old(GetCurrentBuffer()[..])]
      ensures currentDrawBuffer == 1 - old(currentDrawBuffer)
      ensures GetCurrentBuffer() == old(OtherBuffer()) && OtherBuffer() == old(GetCurrentBuffer())
      ensures buffer0 == old(buffer0) && buffer1 == old(buffer1) && depthBuffer == old(depthBuffer)
      ensures screenWidth == old(screenWidth) && screenHeight == old(screenHeight)
      ensures portMatrix == old(portMatrix) && viewProjMatrix == old(viewProjMatrix)
      ensures currentTexture == old(currentTexture)
    {
      presented := presented + [GetCurrentBuffer()[..]];
      currentDrawBuffer := if currentDrawBuffer == 0 then 1 else 0;
    }

    /** Write colour c at (x, y) of the current buffer when (x, y) is on the
        screen; do nothing otherwise. */
    method ShadePixel(x: int, y: int, c: Colour)
      requires Valid()
      modifies GetCurrentBuffer()
      ensures GetCurrentBuffer()[..] == Plot(old(GetCurrentBuffer()[..]), screenWidth, screenHeight, Fragment(x, y, c))
    {
      var buffer := GetCurrentBuffer();
      if 0 <= x < screenWidth && 0 <= y < screenHeight {
        CellInBuffer(x, y, screenWidth, screenHeight);
        buffer[y * screenWidth + x] := Pack(c);
      }
    }

    /** The DDA walk from vertA to vertB (both in normalised device
        coordinates), blending from colA to colB. */
    method RasteriseLine(vertA: Vec4, vertB: Vec4, colA: Colour, colB: Colour)
      requires Valid()
      modifies GetCurrentBuffer()
      ensures GetCurrentBuffer()[..]
              == Paint(old(GetCurrentBuffer()[..]), screenWidth, screenHeight,
                       LineFragments(SetupLine(portMatrix.Apply(vertA), portMatrix.Apply(vertB), colA, colB)))
    {
      var v0 := portMatrix.Apply(vertA);
      var v1 := portMatrix.Apply(vertB);
      var dx, dy := v1.x - v0.x, v1.y - v0.y;
      var xDir := if dx < 0.0 then -1 else 1;
      var yDir := if dy < 0.0 then -1 else 1;
      var x := Trunc(v0.x);
      var y := Trunc(v0.y);
      var scanAxis: Axis;
      var scanVal, targetVal: int;
      var slope: real;
      var range: nat;
      if Abs(dy) > Abs(dx) {
        slope := dx / dy;
        range := Trunc(Abs(dy));
        scanAxis, scanVal, targetVal := AxisY, yDir, xDir;
      } else {
        // dx == 0 forces dy == 0 here: the C++ slope is 0/0 but the loop
        // below runs zero times, so the model takes 0.
        slope := if dx == 0.0 then 0.0 else dy / dx;
        range := Trunc(Abs(dx));
        scanAxis, scanVal, targetVal := AxisX, xDir, yDir;
      }
      var absSlope := Abs(slope);
      assert SetupLine(v0, v1, colA, colB) == LineSetup(scanAxis, scanVal, targetVal, absSlope, range, x, y, colA, colB);
      Walk(LineSetup(scanAxis, scanVal, targetVal, absSlope, range, x, y, colA, colB));
    }

    /** The loop of RasteriseLine, which uses only what the set-up computed:
        `range` iterations, each writing the blended colour at (x, y), adding
        the slope to the error and stepping the axes. */
    method Walk(s: LineSetup)
      requires Valid()
      modifies GetCurrentBuffer()
      ensures GetCurrentBuffer()[..] == Paint(old(GetCurrentBuffer()[..]), screenWidth, screenHeight, LineFragments(s))
    {
      var x, y := s.startX, s.startY;
      var error := 0.0;
      var reciprocalRange := Recip(s.range as real);
      ghost var buf0 := GetCurrentBuffer()[..];
      ghost var frags := LineFragments(s);
      var buffer := GetCurrentBuffer();
      for i := 0 to s.range
        invariant WalkState(x, y, error) == StateAt(s, i)
        invariant buffer[..] == Paint(buf0, screenWidth, screenHeight, frags[..i])
      {
        var currentCol := Lerp(s.colA, s.colB, i as real * reciprocalRange);
        LineColourByReciprocal(s, i, reciprocalRange);
        assert frags[i] == Fragment(x, y, currentCol);
        ShadePixel(x, y, currentCol);
        PaintPrefixStep(buf0, screenWidth, screenHeight, frags, i);
        x, y, error := Advance(s, x, y, error);
      }
      assert frags[..s.range] == frags;
    }

    /** The body of RasteriseTri's inner loop for the sample at (x, y): the
        containment test and, for an accepted sample, its write. */
    method RasteriseSample(t: TriangleInput, areaRecip: real, x: real, y: real)
      requires Valid() && t.texture == currentTexture
      requires areaRecip == Recip(TriArea(t))
      modifies GetCurrentBuffer()
      ensures GetCurrentBuffer()[..]
              == Paint(old(GetCurrentBuffer()[..]), screenWidth, screenHeight, PixelFragments(t, x, y))
    {
      var accepted, colour := ShadeSample(t, areaRecip, x, y);
      if accepted {
        ShadePixel(Trunc(x), Trunc(y), colour);
        assert PixelFragments(t, x, y) == [] + [Fragment(Trunc(x), Trunc(y), colour)];
        PaintSnoc(old(GetCurrentBuffer()[..]), screenWidth, screenHeight, [], Fragment(Trunc(x), Trunc(y), colour));
      }
    }

    /** The triangle (triA, triB, triC), in normalised device coordinates,
        scanned over its bounding box row by row with the current texture if
        there is one; texA..texC are the prepared (u/w, v/w, 1/w). */
    method RasteriseTri(triA: Vec4, triB: Vec4, triC: Vec4, colA: Colour, colB: Colour, colC: Colour,
                        texA: Vec3, texB: Vec3, texC: Vec3)
      requires Valid()
      modifies GetCurrentBuffer()
      ensures GetCurrentBuffer()[..]
              == Paint(old(GetCurrentBuffer()[..]), screenWidth, screenHeight,
                       TriangleFragments(TriangleInput(portMatrix.Apply(triA), portMatrix.Apply(triB),
                                                       portMatrix.Apply(triC), colA, colB, colC,
                                                       texA, texB, texC, currentTexture),
                                         screenWidth, screenHeight))
    {
      var v0 := portMatrix.Apply(triA);
      var v1 := portMatrix.Apply(triB);
      var v2 := portMatrix.Apply(triC);
      var t := TriangleInput(v0, v1, v2, colA, colB, colC, texA, texB, texC, currentTexture);
      var b := CalculateBoxForTri(v0, v1, v2, screenWidth, screenHeight);
      var triArea := ScreenAreaOfTri(v0, v1, v2);
      var areaRecip := Recip(triArea);
      RasteriseRows(t, areaRecip, b);
    }

    /** The outer loop of RasteriseTri: the rows of the box, top to bottom. */
    method RasteriseRows(t: TriangleInput, areaRecip: real, b: BoundingBox)
      requires Valid() && t.texture == currentTexture
      requires areaRecip == Recip(TriArea(t))
      modifies GetCurrentBuffer()
      ensures GetCurrentBuffer()[..]
              == Paint(old(GetCurrentBuffer()[..]), screenWidth, screenHeight, RowsFragments(t, b, b.topLeft.y))
    {
      ghost var buf0 := GetCurrentBuffer()[..];
      var buffer := GetCurrentBuffer();
      var y := b.topLeft.y;
      while y < b.bottomRight.y
        invariant Paint(buffer[..], screenWidth, screenHeight, RowsFragments(t, b, y))
                  == Paint(buf0, screenWidth, screenHeight, RowsFragments(t, b, b.topLeft.y))
        decreases Steps(y, b.bottomRight.y)
      {
        StepsDecrease(y, b.bottomRight.y);
        ghost var before := buffer[..];
        RasteriseRow(t, areaRecip, b, y);
        RowsStep(t, b, y, screenWidth, screenHeight, before, buffer[..]);
        y := y + 1.0;
      }
      assert RowsFragments(t, b, y) == [];
    }

    /** The inner loop of RasteriseTri: the samples of row y of the box, left
        to right. */
    method RasteriseRow(t: TriangleInput, areaRecip: real, b: BoundingBox, y: real)
      requires Valid() && t.texture == currentTexture
      requires areaRecip == Recip(TriArea(t))
      modifies GetCurrentBuffer()
      ensures GetCurrentBuffer()[..]
              == Paint(old(GetCurrentBuffer()[..]), screenWidth, screenHeight, RowFragments(t, b, b.topLeft.x, y))
    {
      ghost var buf0 := GetCurrentBuffer()[..];
      var buffer := GetCurrentBuffer();
      var x := b.topLeft.x;
      while x < b.bottomRight.x
        invariant Paint(buffer[..], screenWidth, screenHeight, RowFragments(t, b, x, y))
                  == Paint(buf0, screenWidth, screenHeight, RowFragments(t, b, b.topLeft.x, y))
        decreases Steps(x, b.bottomRight.x)
      {
        StepsDecrease(x, b.bottomRight.x);
        ghost var before := buffer[..];
        RasteriseSample(t, areaRecip, x, y);
        RowStep(t, b, x, y, screenWidth, screenHeight, before, buffer[..]);
        x := x + 1.0;
      }
    }

    /** One white write per vertex, at its truncated screen position. */
    method RasterisePointsMesh(o: RenderObject)
      requires Valid() && Renderable(o, viewProjMatrix)
      modifies GetCurrentBuffer()
      ensures GetCurrentBuffer()[..]
              == Paint(old(GetCurrentBuffer()[..]), screenWidth, screenHeight,
                       PointsFragments(o, viewProjMatrix, portMatrix, o.mesh.numVertices))
    {
      ghost var buf0 := GetCurrentBuffer()[..];
      var buffer := GetCurrentBuffer();
      for i := 0 to o.mesh.numVertices
        invariant buffer[..] == Paint(buf0, screenWidth, screenHeight, PointsFragments(o, viewProjMatrix, portMatrix, i))
      {
        var vertexPos := viewProjMatrix(o.modelMatrix(o.mesh.vertices[i]));
        assert vertexPos == Clip(o, viewProjMatrix, i);
        vertexPos := DivideByW(vertexPos);
        var screenPos := portMatrix.Apply(vertexPos);
        ShadePixel(Trunc(screenPos.x), Trunc(screenPos.y), White);
        PaintSnoc(buf0, screenWidth, screenHeight, PointsFragments(o, viewProjMatrix, portMatrix, i),
                  PointFragment(o, viewProjMatrix, portMatrix, i));
      }
    }

    /** `RasteriseLine` for vertices i and i + 1, after the model-view-
        projection and the divide by w: one step of the line drivers. */
    method DrawEdge(o: RenderObject, i: nat, j: nat)
      requires Valid() && Renderable(o, viewProjMatrix) && i < o.mesh.numVertices && j < o.mesh.numVertices
      modifies GetCurrentBuffer()
      ensures GetCurrentBuffer()[..]
              == Paint(old(GetCurrentBuffer()[..]), screenWidth, screenHeight,
                       EdgeFragments(o, viewProjMatrix, portMatrix, (i, j)))
    {
      var v0 := viewProjMatrix(o.modelMatrix(o.mesh.vertices[i]));
      var v1 := viewProjMatrix(o.modelMatrix(o.mesh.vertices[j]));
      assert v0 == Clip(o, viewProjMatrix, i) && v1 == Clip(o, viewProjMatrix, j);
      var c0 := o.mesh.colours[i];
      var c1 := o.mesh.colours[j];
      v0 := DivideByW(v0);
      v1 := DivideByW(v1);
      RasteriseLine(v0, v1, c0, c1);
    }

    /** Lines through vertices (0, 1), (2, 3), ... in order. */
    method RasteriseLinesMesh(o: RenderObject)
      requires Valid() && Renderable(o, viewProjMatrix) && o.mesh.numVertices % 2 == 0
      modifies GetCurrentBuffer()
      ensures GetCurrentBuffer()[..]
              == Paint(old(GetCurrentBuffer()[..]), screenWidth, screenHeight,
                       EdgesFragments(o, viewProjMatrix, portMatrix, LinePairs(o.mesh.numVertices)))
    {
      var n := o.mesh.numVertices;
      ghost var buf0 := GetCurrentBuffer()[..];
      var buffer := GetCurrentBuffer();
      var lines := n / 2;
      assert n == 2 * lines;
      for k := 0 to lines
        invariant buffer[..] == Paint(buf0, screenWidth, screenHeight, PairsDrawn(o, viewProjMatrix, portMatrix, k))
      {
        var i := 2 * k;
        DrawEdge(o, i, i + 1);
        LinePairsStep(o, viewProjMatrix, portMatrix, screenWidth, screenHeight, k, i, buf0, buffer[..]);
      }
      AllPairsDrawn(o, viewProjMatrix, portMatrix);
    }

    /** The chain (0, 1), (1, 2), ..., (n - 2, n - 1), then the closing line
        from vertex 0 to vertex n - 1. */
    method RasteriseLineLoops(o: RenderObject)
      requires Valid() && Renderable(o, viewProjMatrix) && o.mesh.numVertices >= 1
      modifies GetCurrentBuffer()
      ensures GetCurrentBuffer()[..]
              == Paint(old(GetCurrentBuffer()[..]), screenWidth, screenHeight,
                       EdgesFragments(o, viewProjMatrix, portMatrix, LineLoopEdges(o.mesh.numVertices)))
    {
      var n := o.mesh.numVertices;
      ghost var buf0 := GetCurrentBuffer()[..];
      var buffer := GetCurrentBuffer();
      for i := 0 to n - 1
        invariant EdgesWithin(Chain(i), n)
        invariant buffer[..] == Paint(buf0, screenWidth, screenHeight, EdgesFragments(o, viewProjMatrix, portMatrix, Chain(i)))
      {
        DrawEdge(o, i, i + 1);
        ChainStep(o, viewProjMatrix, portMatrix, i);
        PaintAppend(buf0, screenWidth, screenHeight, EdgesFragments(o, viewProjMatrix, portMatrix, Chain(i)),
                    EdgeFragments(o, viewProjMatrix, portMatrix, (i, i + 1)));
      }
      DrawEdge(o, 0, n - 1);
      LoopClosingStep(o, viewProjMatrix, portMatrix);
      PaintAppend(buf0, screenWidth, screenHeight, EdgesFragments(o, viewProjMatrix, portMatrix, Chain(n - 1)),
                  EdgeFragments(o, viewProjMatrix, portMatrix, (0, n - 1)));
    }

    /** Triangles from vertices (0, 1, 2), (3, 4, 5), ... in order, each with
        its texture coordinates divided by its clip-space w. */
    method RasteriseTriMesh(o: RenderObject)
      requires Valid() && TrianglesReady(o, viewProjMatrix)
      modifies GetCurrentBuffer()
      ensures GetCurrentBuffer()[..]
              == Paint(old(GetCurrentBuffer()[..]), screenWidth, screenHeight,
                       TrianglesFragments(o, viewProjMatrix, portMatrix, currentTexture,
                                          screenWidth, screenHeight, o.mesh.numVertices / 3))
    {
      var n := o.mesh.numVertices;
      ghost var buf0 := GetCurrentBuffer()[..];
      var buffer := GetCurrentBuffer();
      var triangles := n / 3;
      assert n == 3 * triangles;
      for k := 0 to triangles
        invariant buffer[..] == Paint(buf0, screenWidth, screenHeight,
                                      TrianglesFragments(o, viewProjMatrix, portMatrix, currentTexture,
                                                         screenWidth, screenHeight, k))
      {
        DrawTriangle(o, k);
        TrianglesStep(o, viewProjMatrix, portMatrix, currentTexture, screenWidth, screenHeight, k, buf0, buffer[..]);
      }
    }

    /** One iteration of RasteriseTriMesh: triangle k (vertices i = 3k, i + 1,
        i + 2) transformed, its texture coordinates prepared, rasterised. */
    method DrawTriangle(o: RenderObject, k: nat)
      requires Valid() && TrianglesReady(o, viewProjMatrix) && k < o.mesh.numVertices / 3
      modifies GetCurrentBuffer()
      ensures GetCurrentBuffer()[..]
              == Paint(old(GetCurrentBuffer()[..]), screenWidth, screenHeight,
                       TriangleFragments(TriangleAt(o, viewProjMatrix, portMatrix, currentTexture, k),
                                         screenWidth, screenHeight))
    {
      var i := 3 * k;
      var v0, v1, v2, t0, t1, t2 := TransformTriangle(o, viewProjMatrix, k);
      TriangleAtUnfold(o, viewProjMatrix, portMatrix, currentTexture, k);
      RasteriseTri(v0, v1, v2, o.mesh.colours[i], o.mesh.colours[i + 1], o.mesh.colours[i + 2], t0, t1, t2);
    }

    /** Bind the object's texture and draw its mesh with the driver its
        primitive tag selects. */
    method DrawObject(o: RenderObject)
      requires Valid() && Drawable(o, viewProjMatrix)
      modifies this, GetCurrentBuffer()
      ensures Valid() && currentTexture == o.texture
      ensures buffer0 == old(buffer0) && buffer1 == old(buffer1) && depthBuffer == old(depthBuffer)
      ensures currentDrawBuffer == old(currentDrawBuffer)
      ensures screenWidth == old(screenWidth) && screenHeight == old(screenHeight)
      ensures portMatrix == old(portMatrix) && viewProjMatrix == old(viewProjMatrix)
      ensures presented == old(presented)
      ensures GetCurrentBuffer()[..]
              == Paint(old(GetCurrentBuffer()[..]), screenWidth, screenHeight,
                       ObjectFragments(o, viewProjMatrix, portMatrix, screenWidth, screenHeight))
    {
      currentTexture := o.texture;
      match o.mesh.GetType()
      case Points => RasterisePointsMesh(o);
      case Lines => RasteriseLinesMesh(o);
      case Triangles => RasteriseTriMesh(o);
      case LineLoops => RasteriseLineLoops(o);
    }
  }

  /** The loops of ClearBuffers: row by row, every cell of a w-by-h colour
      buffer and depth buffer gets the clear colour and the clear depth. */
  method ClearRows(buffer: array<Pixel>, depthBuffer: array<uint16>, w: nat, h: nat,
                   clearVal: Pixel, depthCell: uint16)
    requires buffer.Length == w * h && depthBuffer.Length == w * h
    modifies buffer, depthBuffer
    ensures forall k :: 0 <= k < buffer.Length ==> buffer[k] == clearVal
    ensures forall k :: 0 <= k < depthBuffer.Length ==> depthBuffer[k] == depthCell
  {
    var y := 0;
    var row := 0;
    while y < h
      invariant 0 <= y <= h && row == w * y
      invariant forall k :: 0 <= k < row ==> buffer[k] == clearVal
      invariant forall k :: 0 <= k < row ==> depthBuffer[k] == depthCell
    {
      RowInBuffer(y, w, h);
      ClearRow(buffer, depthBuffer, row, w, clearVal, depthCell);
      MulSucc(w, y);
      y := y + 1;
      row := row + w;
    }
  }

  /** The inner loop of ClearBuffers: the w cells of one row, starting at
      index row, get the clear colour and the clear depth. */
  method ClearRow(buffer: array<Pixel>, depthBuffer: array<uint16>, row: nat, w: nat,
                  clearVal: Pixel, depthCell: uint16)
    requires row + w <= buffer.Length && row + w <= depthBuffer.Length
    modifies buffer, depthBuffer
    ensures forall k :: 0 <= k < buffer.Length ==> buffer[k] == if row <= k < row + w then clearVal else old(buffer[k])
    ensures forall k :: 0 <= k < depthBuffer.Length
              ==> depthBuffer[k] == if row <= k < row + w then depthCell else old(depthBuffer[k])
  {
    for x := 0 to w
      invariant forall k :: 0 <= k < buffer.Length ==> buffer[k] == if row <= k < row + x then clearVal else old(buffer[k])
      invariant forall k :: 0 <= k < depthBuffer.Length
                  ==> depthBuffer[k] == if row <= k < row + x then depthCell else old(depthBuffer[k])
    {
      buffer[row + x] := clearVal;
      depthBuffer[row + x] := depthCell;
    }
  }

  /** The end of one iteration of RasteriseLine's loop: add the slope to the
      error; past one half, take one off and step the target axis; always
      step the scan axis. */
  method Advance(s: LineSetup, x: int, y: int, error: real) returns (x': int, y': int, error': real)
    ensures WalkState(x', y', error') == Step(s, WalkState(x, y, error))
  {
    x', y', error' := x, y, error + s.absSlope;
    if error' > 0.5 {
      error' := error' - 1.0;
      if s.scanAxis == AxisY { x' := x' + s.targetStep; } else { y' := y' + s.targetStep; }
    }
    if s.scanAxis == AxisY { y' := y' + s.scanStep; } else { x' := x' + s.scanStep; }
  }

  /** The per-sample computation of RasteriseTri's inner loop: the three
      sub-triangle areas, the rejection test, the weights and then either the
      texture's sample at the perspective-correct coordinate or the blended
      vertex colour. The colour is meaningful only for an accepted sample. */
  method ShadeSample(t: TriangleInput, areaRecip: real, x: real, y: real) returns (accepted: bool, colour: Colour)
    requires areaRecip == Recip(TriArea(t))
    ensures accepted <==> Accepted(t, x, y)
    ensures accepted ==> colour == ShadeColour(t, x, y)
  {
    var screenPos := Vec4(x, y, 0.0, 1.0);
    var subTriArea0 := Abs(ScreenAreaOfTri(t.v0, screenPos, t.v1));
    var subTriArea1 := Abs(ScreenAreaOfTri(t.v1, screenPos, t.v2));
    var subTriArea2 := Abs(ScreenAreaOfTri(t.v2, screenPos, t.v0));
    var triSum := subTriArea0 + subTriArea1 + subTriArea2;
    var triArea := ScreenAreaOfTri(t.v0, t.v1, t.v2);
    if triSum > triArea + 0.9 || triSum < 1.0 {
      return false, Colour(0, 0, 0, 0);
    }
    // (alpha, beta, gamma)
    var weights := Vec3(subTriArea1 * areaRecip, subTriArea2 * areaRecip, subTriArea0 * areaRecip);
    WeightsByReciprocal(t, x, y, subTriArea0, subTriArea1, subTriArea2, areaRecip);
    if t.texture.Some? {
      var subTex := BlendTex(t.texA, t.texB, t.texC, weights);
      subTex := PerspectiveDivide(subTex);
      colour := t.texture.value.nearestSample(subTex);
    } else {
      colour := Blend3(t.colA, weights.x, t.colB, weights.y, t.colC, weights.z);
    }
    accepted := true;
  }

  /** The vertex work of one RasteriseTriMesh iteration for triangle k: the
      model-view-projection of vertices 3k, 3k + 1 and 3k + 2, their texture
      coordinates divided by the clip-space w, then the divide by w. */
  method TransformTriangle(o: RenderObject, viewProj: Transform, k: nat)
    returns (v0: Vec4, v1: Vec4, v2: Vec4, t0: Vec3, t1: Vec3, t2: Vec3)
    requires Renderable(o, viewProj) && o.mesh.textureCoords.Some? && 3 * k + 2 < o.mesh.numVertices
    ensures v0 == Ndc(o, viewProj, 3 * k) && v1 == Ndc(o, viewProj, 3 * k + 1) && v2 == Ndc(o, viewProj, 3 * k + 2)
    ensures t0 == TexOf(o, viewProj, 3 * k) && t1 == TexOf(o, viewProj, 3 * k + 1)
            && t2 == TexOf(o, viewProj, 3 * k + 2)
  {
    var i := 3 * k;
    v0 := viewProj(o.modelMatrix(o.mesh.vertices[i]));
    v1 := viewProj(o.modelMatrix(o.mesh.vertices[i + 1]));
    v2 := viewProj(o.modelMatrix(o.mesh.vertices[i + 2]));
    assert v0 == Clip(o, viewProj, i) && v1 == Clip(o, viewProj, i + 1) && v2 == Clip(o, viewProj, i + 2);
    var texCoords := o.mesh.textureCoords.value;
    t0 := DivVec3(Vec3(texCoords[i].x, texCoords[i].y, 1.0), v0.w);
    t1 := DivVec3(Vec3(texCoords[i + 1].x, texCoords[i + 1].y, 1.0), v1.w);
    t2 := DivVec3(Vec3(texCoords[i + 2].x, texCoords[i + 2].y, 1.0), v2.w);
    v0, v1, v2 := DivideByW(v0), DivideByW(v1), DivideByW(v2);
  }
}
