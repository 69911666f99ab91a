/** What each mesh driver of SoftwareRasteriser draws, as the sequence of
    pixel writes it issues: the vertex transform (model-view-projection, the
    divide by w, the port map), the order in which vertices are grouped into
    points, lines and triangles, and the dispatch on the primitive tag. */
module Pipeline {
  import opened Common
  import opened Colours
  import opened Geometry
  import opened Textures
  import opened Fragments
  import opened Lines
  import opened Triangles
  import opened Meshes

  /** A mesh placed in the world, optionally textured. RenderObject.h is not
      part of this model; only the three members the rasteriser reads are. */
  datatype RenderObject = RenderObject(mesh: Mesh, modelMatrix: Transform, texture: Option<Texture>)

  /** Vertex i in clip space: `(viewProjMatrix * o->GetModelMatrix()) * v`,
      the model matrix applied first. */
  function Clip(o: RenderObject, viewProj: Transform, i: nat): Vec4
    requires i < |o.mesh.vertices|
  {
    viewProj(o.modelMatrix(o.mesh.vertices[i]))
  }

  /** The mesh is well formed and no vertex lands on the plane w = 0, where the
      divide by w is undefined. */
  predicate Renderable(o: RenderObject, viewProj: Transform)
  {
    o.mesh.WellFormed()
    && forall i :: 0 <= i < o.mesh.numVertices ==> Clip(o, viewProj, i).w != 0.0
  }

  /** Vertex i in normalised device coordinates (after SelfDivisionByW). */
  function Ndc(o: RenderObject, viewProj: Transform, i: nat): Vec4
    requires Renderable(o, viewProj) && i < o.mesh.numVertices
  {
    DivideByW(Clip(o, viewProj, i))
  }

  // ---------------------------------------------------------------------------
  // Points.

  /** The write for vertex i: white at the truncated screen position. */
  function PointFragment(o: RenderObject, viewProj: Transform, port: PortMap, i: nat): Fragment
    requires Renderable(o, viewProj) && i < o.mesh.numVertices
  {
    var screenPos := port.Apply(Ndc(o, viewProj, i));
    Fragment(Trunc(screenPos.x), Trunc(screenPos.y), White)
  }

  /** The writes for the first k vertices. */
  function PointsFragments(o: RenderObject, viewProj: Transform, port: PortMap, k: nat): seq<Fragment>
    requires Renderable(o, viewProj) && k <= o.mesh.numVertices
  {
    if k == 0 then [] else PointsFragments(o, viewProj, port, k - 1) + [PointFragment(o, viewProj, port, k - 1)]
  }

  /** A points mesh issues exactly one white write per vertex, in vertex
      order. */
  lemma {:induction false} PointsOnePerVertex(o: RenderObject, viewProj: Transform, port: PortMap, k: nat)
    requires Renderable(o, viewProj) && k <= o.mesh.numVertices
    ensures var r := PointsFragments(o, viewProj, port, k);
            |r| == k
            && forall i :: 0 <= i < k ==> r[i] == PointFragment(o, viewProj, port, i) && r[i].colour == White
  {
    if k > 0 {
      PointsOnePerVertex(o, viewProj, port, k - 1);
    }
  }

  // ---------------------------------------------------------------------------
  // Lines and line loops: a list of vertex-index pairs, each drawn with
  // RasteriseLine.

  type Edge = (nat, nat)

  predicate EdgesWithin(edges: seq<Edge>, n: nat)
  {
    forall k :: 0 <= k < |edges| ==> edges[k].0 < n && edges[k].1 < n
  }

  /** The pairs RasteriseLinesMesh draws: (0, 1), (2, 3), ... */
  function LinePairs(n: nat): (edges: seq<Edge>)
    requires n % 2 == 0
    ensures |edges| == n / 2 && EdgesWithin(edges, n)
    ensures forall k :: 0 <= k < |edges| ==> edges[k] == (2 * k, 2 * k + 1)
  {
    seq(n / 2, k requires 0 <= k < n / 2 => (2 * k, 2 * k + 1))
  }

  /** The first k of the pairs (i, i + 1) for i < n - 1 that
      RasteriseLineLoops draws in its loop. */
  function Chain(k: nat): (edges: seq<Edge>)
    ensures |edges| == k
    ensures forall j :: 0 <= j < k ==> edges[j] == (j, j + 1)
  {
    seq(k, j requires 0 <= j < k => (j, j + 1))
  }

  /** All edges RasteriseLineLoops draws for n >= 1 vertices: the chain
      through consecutive vertices, then the closing edge. The closing edge
      runs from vertex 0 to vertex n - 1. */
  function LineLoopEdges(n: nat): (edges: seq<Edge>)
    requires n >= 1
    ensures |edges| == n && EdgesWithin(edges, n)
    ensures forall k :: 0 <= k < n - 1 ==> edges[k] == (k, k + 1)
    ensures edges[n - 1] == (0, n - 1)
  {
    Chain(n - 1) + [(0, n - 1)]
  }

  /** Every vertex of a loop is joined to both of its neighbours around the
      loop: the chain joins each vertex to the next, and the closing edge
      joins the last vertex back to the first. */
  lemma LoopIsClosed(n: nat, i: nat)
    requires n >= 2 && i < n
    ensures exists k :: 0 <= k < n && (LineLoopEdges(n)[k] == (i, (i + 1) % n)
                                       || LineLoopEdges(n)[k] == ((i + 1) % n, i))
  {
    var edges := LineLoopEdges(n);
    if i < n - 1 {
      assert (i + 1) % n == i + 1;
      assert edges[i] == (i, i + 1);
    } else {
      assert (i + 1) % n == 0 by {
        assert i + 1 == n;
      }
      assert edges[n - 1] == (0, i);
    }
  }

  /** `RasteriseLine(v0, v1, c0, c1)` for the two vertices of edge e. */
  function EdgeFragments(o: RenderObject, viewProj: Transform, port: PortMap, e: Edge): seq<Fragment>
    requires Renderable(o, viewProj) && e.0 < o.mesh.numVertices && e.1 < o.mesh.numVertices
  {
    LineFragments(SetupLine(port.Apply(Ndc(o, viewProj, e.0)), port.Apply(Ndc(o, viewProj, e.1)),
                            o.mesh.colours[e.0], o.mesh.colours[e.1]))
  }

  /** The writes for the edges in order. */
  function EdgesFragments(o: RenderObject, viewProj: Transform, port: PortMap, edges: seq<Edge>): seq<Fragment>
    requires Renderable(o, viewProj) && EdgesWithin(edges, o.mesh.numVertices)
    decreases |edges|
  {
    if |edges| == 0 then []
    else EdgesFragments(o, viewProj, port, edges[..|edges| - 1])
         + EdgeFragments(o, viewProj, port, edges[|edges| - 1])
  }

  lemma EdgesFragmentsSnoc(o: RenderObject, viewProj: Transform, port: PortMap, edges: seq<Edge>, e: Edge)
    requires Renderable(o, viewProj) && EdgesWithin(edges + [e], o.mesh.numVertices)
    ensures EdgesWithin(edges, o.mesh.numVertices)
    ensures e.0 < o.mesh.numVertices && e.1 < o.mesh.numVertices
    ensures EdgesFragments(o, viewProj, port, edges + [e])
            == EdgesFragments(o, viewProj, port, edges) + EdgeFragments(o, viewProj, port, e)
  {
    assert (edges + [e])[..|edges|] == edges;
    assert (edges + [e])[|edges|] == e;
    assert forall k :: 0 <= k < |edges| ==> edges[k] == (edges + [e])[k];
  }

  /** The writes of the first k pairs (0, 1), (2, 3), ... */
  function PairsDrawn(o: RenderObject, viewProj: Transform, port: PortMap, k: nat): seq<Fragment>
    requires Renderable(o, viewProj) && o.mesh.numVertices % 2 == 0 && k <= o.mesh.numVertices / 2
  {
    var pairs := LinePairs(o.mesh.numVertices);
    assert EdgesWithin(pairs[..k], o.mesh.numVertices) by {
      assert forall j :: 0 <= j < k ==> pairs[..k][j] == pairs[j];
    }
    EdgesFragments(o, viewProj, port, pairs[..k])
  }

  /** All the pairs draw the writes of the lines mesh. */
  lemma AllPairsDrawn(o: RenderObject, viewProj: Transform, port: PortMap)
    requires Renderable(o, viewProj) && o.mesh.numVertices % 2 == 0
    ensures PairsDrawn(o, viewProj, port, o.mesh.numVertices / 2)
            == EdgesFragments(o, viewProj, port, LinePairs(o.mesh.numVertices))
  {
    var pairs := LinePairs(o.mesh.numVertices);
    assert pairs[..o.mesh.numVertices / 2] == pairs;
  }

  /** One iteration of RasteriseLinesMesh's loop: painting line (2k, 2k + 1)
      over what the first k pairs painted gives what the first k + 1 paint. */
  lemma LinePairsStep(o: RenderObject, viewProj: Transform, port: PortMap, w: nat, h: nat,
                      k: nat, i: nat, buf0: seq<Pixel>, buf: seq<Pixel>)
    requires Renderable(o, viewProj) && o.mesh.numVertices % 2 == 0 && k < o.mesh.numVertices / 2
    requires i == 2 * k && i + 1 < o.mesh.numVertices && |buf0| == w * h
    requires buf == Paint(Paint(buf0, w, h, PairsDrawn(o, viewProj, port, k)),
                          w, h, EdgeFragments(o, viewProj, port, (i, i + 1)))
    ensures buf == Paint(buf0, w, h, PairsDrawn(o, viewProj, port, k + 1))
  {
    LinePairsSnoc(o, viewProj, port, k, i);
    PaintAppend(buf0, w, h, PairsDrawn(o, viewProj, port, k), EdgeFragments(o, viewProj, port, (i, i + 1)));
  }

  /** The first k + 1 pairs draw what the first k draw, then line
      (2k, 2k + 1). */
  lemma LinePairsSnoc(o: RenderObject, viewProj: Transform, port: PortMap, k: nat, i: nat)
    requires Renderable(o, viewProj) && o.mesh.numVertices % 2 == 0 && k < o.mesh.numVertices / 2
    requires i == 2 * k
    ensures i + 1 < o.mesh.numVertices
    ensures PairsDrawn(o, viewProj, port, k + 1)
            == PairsDrawn(o, viewProj, port, k) + EdgeFragments(o, viewProj, port, (i, i + 1))
  {
    var pairs := LinePairs(o.mesh.numVertices);
    assert pairs[..k + 1] == pairs[..k] + [(i, i + 1)];
    EdgesFragmentsSnoc(o, viewProj, port, pairs[..k], (i, i + 1));
  }

  /** One iteration of RasteriseLineLoops's loop: the chain grows by the line
      (i, i + 1). */
  lemma ChainStep(o: RenderObject, viewProj: Transform, port: PortMap, i: nat)
    requires Renderable(o, viewProj) && i + 1 < o.mesh.numVertices
    ensures EdgesWithin(Chain(i), o.mesh.numVertices) && EdgesWithin(Chain(i + 1), o.mesh.numVertices)
    ensures EdgesFragments(o, viewProj, port, Chain(i + 1))
            == EdgesFragments(o, viewProj, port, Chain(i)) + EdgeFragments(o, viewProj, port, (i, i + 1))
  {
    assert Chain(i + 1) == Chain(i) + [(i, i + 1)];
    EdgesFragmentsSnoc(o, viewProj, port, Chain(i), (i, i + 1));
  }

  /** The end of RasteriseLineLoops: the chain through all n vertices, then
      the closing line from vertex 0 to vertex n - 1. */
  lemma LoopClosingStep(o: RenderObject, viewProj: Transform, port: PortMap)
    requires Renderable(o, viewProj) && o.mesh.numVertices >= 1
    ensures EdgesWithin(Chain(o.mesh.numVertices - 1), o.mesh.numVertices)
    ensures EdgesFragments(o, viewProj, port, LineLoopEdges(o.mesh.numVertices))
            == EdgesFragments(o, viewProj, port, Chain(o.mesh.numVertices - 1))
               + EdgeFragments(o, viewProj, port, (0, o.mesh.numVertices - 1))
  {
    EdgesFragmentsSnoc(o, viewProj, port, Chain(o.mesh.numVertices - 1), (0, o.mesh.numVertices - 1));
  }

  /** A line mesh makes as many writes as its lines' ranges add up to. */
  function TotalRange(o: RenderObject, viewProj: Transform, port: PortMap, edges: seq<Edge>): nat
    requires Renderable(o, viewProj) && EdgesWithin(edges, o.mesh.numVertices)
    decreases |edges|
  {
    if |edges| == 0 then 0
    else
      var e := edges[|edges| - 1];
      TotalRange(o, viewProj, port, edges[..|edges| - 1])
      + SetupLine(port.Apply(Ndc(o, viewProj, e.0)), port.Apply(Ndc(o, viewProj, e.1)),
                  o.mesh.colours[e.0], o.mesh.colours[e.1]).range
  }

  lemma {:induction false} EdgesFragmentsCount(o: RenderObject, viewProj: Transform, port: PortMap, edges: seq<Edge>)
    requires Renderable(o, viewProj) && EdgesWithin(edges, o.mesh.numVertices)
    ensures |EdgesFragments(o, viewProj, port, edges)| == TotalRange(o, viewProj, port, edges)
    decreases |edges|
  {
    if |edges| > 0 {
      EdgesFragmentsCount(o, viewProj, port, edges[..|edges| - 1]);
    }
  }

  // ---------------------------------------------------------------------------
  // Triangles.

  /** `Vector3(u, v, 1.0f) / clip.w` for vertex i: the texture coordinate
      prepared for perspective-correct interpolation. */
  function TexOf(o: RenderObject, viewProj: Transform, i: nat): Vec3
    requires Renderable(o, viewProj) && o.mesh.textureCoords.Some? && i < o.mesh.numVertices
  {
    var uv := o.mesh.textureCoords.value[i];
    DivVec3(Vec3(uv.x, uv.y, 1.0), Clip(o, viewProj, i).w)
  }

  /** What RasteriseTriMesh reads: whole triangles and a texture coordinate
      for every vertex. */
  predicate TrianglesReady(o: RenderObject, viewProj: Transform)
  {
    Renderable(o, viewProj) && o.mesh.numVertices % 3 == 0 && o.mesh.textureCoords.Some?
  }

  /** The arguments of RasteriseTri for triangle k, port-mapped. */
  function TriangleAt(o: RenderObject, viewProj: Transform, port: PortMap, texture: Option<Texture>, k: nat): TriangleInput
    requires TrianglesReady(o, viewProj) && k < o.mesh.numVertices / 3
  {
    var i := 3 * k;
    TriangleInput(
      port.Apply(Ndc(o, viewProj, i)), port.Apply(Ndc(o, viewProj, i + 1)), port.Apply(Ndc(o, viewProj, i + 2)),
      o.mesh.colours[i], o.mesh.colours[i + 1], o.mesh.colours[i + 2],
      TexOf(o, viewProj, i), TexOf(o, viewProj, i + 1), TexOf(o, viewProj, i + 2),
      texture)
  }

  /** A triangle whose three vertices are all in front of the eye, or all
      behind it, reaches RasteriseTri with three 1/w of one sign. */
  lemma TriangleOnOneSide(o: RenderObject, viewProj: Transform, port: PortMap, texture: Option<Texture>, k: nat)
    requires TrianglesReady(o, viewProj) && k < o.mesh.numVertices / 3
    requires SameSign(Clip(o, viewProj, 3 * k).w, Clip(o, viewProj, 3 * k + 1).w, Clip(o, viewProj, 3 * k + 2).w)
    ensures OneSide(TriangleAt(o, viewProj, port, texture, k))
  {
    InverseWSign(o, viewProj, 3 * k);
    InverseWSign(o, viewProj, 3 * k + 1);
    InverseWSign(o, viewProj, 3 * k + 2);
  }

  /** Triangle k spelled out: vertices 3k, 3k + 1 and 3k + 2, port-mapped,
      with their colours and prepared texture coordinates. */
  lemma TriangleAtUnfold(o: RenderObject, viewProj: Transform, port: PortMap, texture: Option<Texture>, k: nat)
    requires TrianglesReady(o, viewProj) && k < o.mesh.numVertices / 3
    ensures 3 * k + 2 < o.mesh.numVertices
    ensures TriangleAt(o, viewProj, port, texture, k)
            == TriangleInput(port.Apply(Ndc(o, viewProj, 3 * k)), port.Apply(Ndc(o, viewProj, 3 * k + 1)),
                             port.Apply(Ndc(o, viewProj, 3 * k + 2)),
                             o.mesh.colours[3 * k], o.mesh.colours[3 * k + 1], o.mesh.colours[3 * k + 2],
                             TexOf(o, viewProj, 3 * k), TexOf(o, viewProj, 3 * k + 1), TexOf(o, viewProj, 3 * k + 2),
                             texture)
  {
  }

  /** The prepared 1/w of a vertex has the sign of its clip-space w. */
  lemma InverseWSign(o: RenderObject, viewProj: Transform, i: nat)
    requires TrianglesReady(o, viewProj) && i < o.mesh.numVertices
    ensures TexOf(o, viewProj, i).z > 0.0 <==> Clip(o, viewProj, i).w > 0.0
    ensures TexOf(o, viewProj, i).z < 0.0 <==> Clip(o, viewProj, i).w < 0.0
  {
    var w := Clip(o, viewProj, i).w;
    DivVec3Sign(Vec3(o.mesh.textureCoords.value[i].x, o.mesh.textureCoords.value[i].y, 1.0), w);
  }

  /** The writes for the first k triangles (vertices 0..3k-1). */
  function TrianglesFragments(o: RenderObject, viewProj: Transform, port: PortMap, texture: Option<Texture>,
                              w: nat, h: nat, k: nat): seq<Fragment>
    requires TrianglesReady(o, viewProj) && k <= o.mesh.numVertices / 3
  {
    if k == 0 then []
    else TrianglesFragments(o, viewProj, port, texture, w, h, k - 1)
         + TriangleFragments(TriangleAt(o, viewProj, port, texture, k - 1), w, h)
  }

  /** One iteration of RasteriseTriMesh's loop: painting triangle k over
      what the first k triangles painted gives what the first k + 1 paint. */
  lemma TrianglesStep(o: RenderObject, viewProj: Transform, port: PortMap, texture: Option<Texture>,
                      w: nat, h: nat, k: nat, buf0: seq<Pixel>, buf: seq<Pixel>)
    requires TrianglesReady(o, viewProj) && k < o.mesh.numVertices / 3 && |buf0| == w * h
    requires buf == Paint(Paint(buf0, w, h, TrianglesFragments(o, viewProj, port, texture, w, h, k)), w, h,
                          TriangleFragments(TriangleAt(o, viewProj, port, texture, k), w, h))
    ensures buf == Paint(buf0, w, h, TrianglesFragments(o, viewProj, port, texture, w, h, k + 1))
  {
    PaintAppend(buf0, w, h, TrianglesFragments(o, viewProj, port, texture, w, h, k),
                TriangleFragments(TriangleAt(o, viewProj, port, texture, k), w, h));
  }

  lemma AppendTriangleOnScreen(before: seq<Fragment>, t: TriangleInput, w: nat, h: nat)
    requires AllOnScreen(before, w, h)
    ensures AllOnScreen(before + TriangleFragments(t, w, h), w, h)
  {
    TriangleFragmentsOnScreen(t, w, h);
    AllOnScreenAppend(before, TriangleFragments(t, w, h), w, h);
  }

  /** However the mesh is placed, every write of a triangle mesh is on screen. */
  lemma {:induction false} TrianglesOnScreen(o: RenderObject, viewProj: Transform, port: PortMap,
                                             texture: Option<Texture>, w: nat, h: nat, k: nat)
    requires TrianglesReady(o, viewProj) && k <= o.mesh.numVertices / 3
    ensures AllOnScreen(TrianglesFragments(o, viewProj, port, texture, w, h, k), w, h)
  {
    if k > 0 {
      TrianglesOnScreen(o, viewProj, port, texture, w, h, k - 1);
      AppendTriangleOnScreen(TrianglesFragments(o, viewProj, port, texture, w, h, k - 1),
                             TriangleAt(o, viewProj, port, texture, k - 1), w, h);
    }
  }

  /** A mesh whose every triangle is clockwise or thinner than 0.1 on screen
      draws nothing. */
  lemma {:induction false} ThinTrianglesDrawNothing(o: RenderObject, viewProj: Transform, port: PortMap,
                                                    texture: Option<Texture>, w: nat, h: nat, k: nat)
    requires TrianglesReady(o, viewProj) && k <= o.mesh.numVertices / 3
    requires forall j :: 0 <= j < k ==> TriArea(TriangleAt(o, viewProj, port, texture, j)) < 0.1
    ensures TrianglesFragments(o, viewProj, port, texture, w, h, k) == []
  {
    if k > 0 {
      ThinTrianglesDrawNothing(o, viewProj, port, texture, w, h, k - 1);
      var t := TriangleAt(o, viewProj, port, texture, k - 1);
      ThinTriangleDrawsNothing(t, w, h);
    }
  }

  // ---------------------------------------------------------------------------
  // DrawObject.

  /** The precondition of the driver DrawObject picks. */
  predicate Drawable(o: RenderObject, viewProj: Transform)
  {
    Renderable(o, viewProj)
    && match o.mesh.GetType()
       case Points => true
       case Lines => o.mesh.numVertices % 2 == 0
       case Triangles => TrianglesReady(o, viewProj)
       case LineLoops => o.mesh.numVertices >= 1
  }

  /** Everything DrawObject writes, by primitive tag. */
  function ObjectFragments(o: RenderObject, viewProj: Transform, port: PortMap, w: nat, h: nat): seq<Fragment>
    requires Drawable(o, viewProj)
  {
    match o.mesh.GetType()
    case Points => PointsFragments(o, viewProj, port, o.mesh.numVertices)
    case Lines => EdgesFragments(o, viewProj, port, LinePairs(o.mesh.numVertices))
    case Triangles => TrianglesFragments(o, viewProj, port, o.texture, w, h, o.mesh.numVertices / 3)
    case LineLoops => EdgesFragments(o, viewProj, port, LineLoopEdges(o.mesh.numVertices))
  }

  // ---------------------------------------------------------------------------
  // The demo meshes on screen.

  const Identity: Transform := v => v

  /** The demo triangle, drawn untransformed on a screen of at least 2 by 2
      pixels, is counter-clockwise with a positive area, so the containment
      test can accept its pixels. */
  lemma DemoTriangleFacesFront(m: Mesh, w: nat, h: nat)
    requires 2 <= w < UINT32_LIMIT && 2 <= h < UINT32_LIMIT
    requires m.vertices == [Vec4(0.5, -0.5, 0.0, 1.0), Vec4(0.0, 0.5, 0.0, 1.0), Vec4(-0.5, -0.5, 0.0, 1.0)]
    ensures ScreenAreaOfTri(m.vertices[0], m.vertices[1], m.vertices[2]) == 0.5
    ensures var port := PortFor(w, h);
            ScreenAreaOfTri(port.Apply(m.vertices[0]), port.Apply(m.vertices[1]), port.Apply(m.vertices[2]))
            == port.half.x * port.half.y * 0.5 > 0.0
  {
    var port := PortFor(w, h);
    PortScalesArea(port, m.vertices[0], m.vertices[1], m.vertices[2]);
    MulPositive(port.half.x, port.half.y);
  }

  lemma MulPositive(a: real, b: real)
    requires a > 0.0 && b > 0.0
    ensures a * b > 0.0
  {
  }

  /** A star drawn untransformed lands on the screen. */
  lemma StarLandsOnScreen(o: RenderObject, i: nat, w: nat, h: nat)
    requires 1 <= w < UINT32_LIMIT && 1 <= h < UINT32_LIMIT
    requires Renderable(o, Identity) && i < o.mesh.numVertices
    requires var v := o.mesh.vertices[i];
             v.w == 1.0 && -1.0 <= v.x <= 1.0 && -1.0 <= v.y <= 1.0
    requires forall v :: o.modelMatrix(v) == v
    ensures OnScreen(PointFragment(o, Identity, PortFor(w, h), i), w, h)
  {
    var v := o.mesh.vertices[i];
    assert Clip(o, Identity, i) == v;
    assert Ndc(o, Identity, i) == v;
    PortKeepsPointOnScreen(w, h, v);
  }
}
