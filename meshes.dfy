/** Meshes (Mesh.h and Mesh.cpp): a primitive tag, an unsigned vertex count
    and per-vertex positions, colours and texture coordinates. A NULL array is
    the empty sequence (positions, colours) or None (texture coordinates). The
    factories allocate arrays and fill them index by index; a cell the source
    never assigns keeps whatever the allocation left there, which the model
    leaves unconstrained. */
module Meshes {
  import opened Common
  import opened Colours
  import opened Geometry

  datatype PrimitiveType = Points | Lines | Triangles | LineLoops

  datatype Mesh = Mesh(
    primitiveType: PrimitiveType,
    numVertices: nat,
    vertices: seq<Vec4>,
    colours: seq<Colour>,
    textureCoords: Option<seq<Vec2>>)
  {
    function GetType(): (t: PrimitiveType)
      ensures t == primitiveType
    {
      primitiveType
    }

    /** Every array present is indexed by vertex number: it has exactly
        numVertices entries, and numVertices fits an `unsigned int`. */
    predicate WellFormed()
    {
      numVertices < UINT32_LIMIT
      && |vertices| == numVertices && |colours| == numVertices
      && (textureCoords.Some? ==> |textureCoords.value| == numVertices)
    }
  }

  const Red: Colour := Colour(255, 0, 0, 255)
  const Blue: Colour := Colour(0, 0, 255, 255)
  const Yellow: Colour := Colour(255, 255, 0, 255)
  /** The two colours GenerateShapes alternates between. */
  const ShapeEven: Colour := Colour(139, 90, 0, 255)
  const ShapeOdd: Colour := Colour(139, 90, 255, 255)

  /** `Vector4(v.x, v.y, v.z, 1.0f)`. */
  function Point(v: Vec3): (p: Vec4)
    ensures p.w == 1.0 && p.x == v.x && p.y == v.y && p.z == v.z
  {
    Vec4(v.x, v.y, v.z, 1.0)
  }

  /** Mesh::Mesh(): a points mesh with no vertices and no arrays. */
  function NewMesh(): (m: Mesh)
    ensures m.WellFormed() && m.GetType() == Points && m.numVertices == 0
    ensures m.vertices == [] && m.colours == [] && m.textureCoords.None?
  {
    Mesh(Points, 0, [], [], None)
  }

  /** A line from `from` to `to`, red at the start and blue at the end. */
  method GenerateLine(from: Vec3, to: Vec3) returns (m: Mesh)
    ensures m.WellFormed() && m.GetType() == Lines && m.numVertices == 2
    ensures m.vertices == [Point(from), Point(to)]
    ensures m.colours == [Red, Blue] && m.textureCoords.None?
  {
    var vertices := new Vec4[2];
    var colours := new Colour[2];
    vertices[0] := Point(from);
    vertices[1] := Point(to);
    colours[0] := Red;
    colours[1] := Blue;
    m := Mesh(Lines, 2, vertices[..], colours[..], None);
  }

  /** The fixed demo triangle, counter-clockwise in normalised device
      coordinates, with texture coordinates spanning the unit square. */
  method GenerateTriangle() returns (m: Mesh)
    ensures m.WellFormed() && m.GetType() == Triangles && m.numVertices == 3
    ensures m.vertices == [Vec4(0.5, -0.5, 0.0, 1.0), Vec4(0.0, 0.5, 0.0, 1.0), Vec4(-0.5, -0.5, 0.0, 1.0)]
    ensures m.colours == [Red, Yellow, Red]
    ensures m.textureCoords == Some([Vec2(0.0, 0.0), Vec2(0.5, 1.0), Vec2(1.0, 0.0)])
  {
    var vertices := new Vec4[3];
    vertices[0] := Vec4(0.5, -0.5, 0.0, 1.0);
    vertices[1] := Vec4(0.0, 0.5, 0.0, 1.0);
    vertices[2] := Vec4(-0.5, -0.5, 0.0, 1.0);
    var colours := new Colour[3];
    colours[0] := Red;
    colours[1] := Yellow;
    colours[2] := Red;
    var textureCoords := new Vec2[3];
    textureCoords[0] := Vec2(0.0, 0.0);
    textureCoords[1] := Vec2(0.5, 1.0);
    textureCoords[2] := Vec2(1.0, 0.0);
    assert textureCoords[..] == [Vec2(0.0, 0.0), Vec2(0.5, 1.0), Vec2(1.0, 0.0)];
    m := Mesh(Triangles, 3, vertices[..], colours[..], Some(textureCoords[..]));
  }

  /** GenerateStars allocates room for 4000 stars but places only the first
      2000. */
  const StarSlots: nat := 4000
  const StarsPlaced: nat := 2000

  /** `rand() / (float)RAND_MAX * (1.0f - -1.0f) + -1.0f` for one draw `d`
      of rand(): the draw rescaled from [0, randMax] to [-1, 1]. */
  function RandUnit(d: nat, randMax: nat): (r: real)
    requires randMax > 0
    ensures d <= randMax ==> -1.0 <= r <= 1.0
    ensures d == 0 ==> r == -1.0
    ensures d == randMax ==> r == 1.0
  {
    d as real / randMax as real * (1.0 - -1.0) + -1.0
  }

  /** The position of star i, drawn from three consecutive calls to rand(). */
  function StarAt(draws: seq<nat>, randMax: nat, i: nat): Vec4
    requires randMax > 0 && 3 * i + 2 < |draws|
  {
    Vec4(RandUnit(draws[3 * i], randMax), RandUnit(draws[3 * i + 1], randMax),
         RandUnit(draws[3 * i + 2], randMax), 1.0)
  }

  /** A field of white stars. `draws` are the successive results of rand(),
      each between 0 and `randMax` (RAND_MAX). */
  method GenerateStars(draws: seq<nat>, randMax: nat) returns (m: Mesh)
    requires randMax > 0 && |draws| == 3 * StarsPlaced
    requires forall k :: 0 <= k < |draws| ==> draws[k] <= randMax
    ensures m.WellFormed() && m.GetType() == Points && m.numVertices == StarSlots
    ensures m.textureCoords.None?
    ensures forall i :: 0 <= i < StarsPlaced ==> m.vertices[i] == StarAt(draws, randMax, i)
    ensures forall i :: 0 <= i < StarsPlaced ==> m.colours[i] == White
    ensures forall i :: 0 <= i < StarsPlaced ==>
              -1.0 <= m.vertices[i].x <= 1.0 && -1.0 <= m.vertices[i].y <= 1.0
              && -1.0 <= m.vertices[i].z <= 1.0 && m.vertices[i].w == 1.0
  {
    var vertices := new Vec4[StarSlots];
    var colours := new Colour[StarSlots];
    for i := 0 to StarsPlaced
      invariant forall j :: 0 <= j < i ==> vertices[j] == StarAt(draws, randMax, j)
      invariant forall j :: 0 <= j < i ==> colours[j] == White
      invariant forall j :: 0 <= j < i ==>
                  -1.0 <= vertices[j].x <= 1.0 && -1.0 <= vertices[j].y <= 1.0
                  && -1.0 <= vertices[j].z <= 1.0 && vertices[j].w == 1.0
    {
      var x := RandUnit(draws[3 * i], randMax);
      var y := RandUnit(draws[3 * i + 1], randMax);
      var z := RandUnit(draws[3 * i + 2], randMax);
      vertices[i] := Vec4(x, y, z, 1.0);
      colours[i] := White;
    }
    m := Mesh(Points, StarSlots, vertices[..], colours[..], None);
  }

  /** The colours of GenerateShapes, vertex by vertex. */
  const ShapeColours: seq<Colour> := [ShapeEven, ShapeOdd, ShapeEven, ShapeOdd, ShapeEven, ShapeOdd]

  /** The outline's colours alternate between two different colours,
      starting from ShapeEven; six being even, the closing edge from vertex
      5 back to vertex 0 joins different colours too. */
  lemma ShapeColoursAlternate()
    ensures |ShapeColours| == 6 && ShapeEven != ShapeOdd
    ensures forall i :: 0 <= i < 6 ==> ShapeColours[i] == (if i % 2 == 0 then ShapeEven else ShapeOdd)
  {
    forall i | 0 <= i < 6
      ensures ShapeColours[i] == (if i % 2 == 0 then ShapeEven else ShapeOdd)
    {
      if i == 0 { } else if i == 1 { } else if i == 2 { } else if i == 3 { } else if i == 4 { } else { }
    }
  }

  /** A closed outline through six given points, coloured by ShapeColours. */
  method GenerateShapes(a: Vec3, b: Vec3, c: Vec3, d: Vec3, e: Vec3, g: Vec3) returns (m: Mesh)
    ensures m.WellFormed() && m.GetType() == LineLoops && m.numVertices == 6
    ensures m.vertices == [Point(a), Point(b), Point(c), Point(d), Point(e), Point(g)]
    ensures m.colours == ShapeColours && m.textureCoords.None?
  {
    var vertices := new Vec4[6];
    var colours := new Colour[6];
    vertices[0] := Point(a);
    vertices[1] := Point(b);
    vertices[2] := Point(c);
    vertices[3] := Point(d);
    vertices[4] := Point(e);
    vertices[5] := Point(g);
    colours[0] := ShapeEven;
    colours[1] := ShapeOdd;
    colours[2] := ShapeEven;
    colours[3] := ShapeOdd;
    colours[4] := ShapeEven;
    colours[5] := ShapeOdd;
    assert vertices[..] == [vertices[0], vertices[1], vertices[2], vertices[3], vertices[4], vertices[5]];
    assert colours[..] == ShapeColours;
    m := Mesh(LineLoops, 6, vertices[..], colours[..], None);
  }

  // ---------------------------------------------------------------------------
  // Mesh files. The file is modelled by the values its stream extractions
  // yield, in order: the vertex count, the texture flag, the colour flag,
  // x y z for every vertex and, when the colour flag is non-zero, r g b a for
  // every vertex.

  predicate IsWhole(v: real)
  {
    v == v.Floor as real
  }

  predicate IsChannel(v: real)
  {
    IsWhole(v) && 0.0 <= v < 256.0
  }

  const HeaderLength: nat := 3

  /** A complete file: a whole count that fits an `unsigned int`, whole
      flags, and enough values after them, the colour values being bytes. */
  predicate WellFormedFile(tokens: seq<real>)
  {
    |tokens| >= HeaderLength && IsWhole(tokens[0]) && IsWhole(tokens[1]) && IsWhole(tokens[2])
    && 0 <= tokens[0].Floor < UINT32_LIMIT
    && var n := tokens[0].Floor;
       var colourStart := HeaderLength + 3 * n;
       |tokens| >= colourStart + (if tokens[2] != 0.0 then 4 * n else 0)
       && (tokens[2] != 0.0 ==>
             forall k :: colourStart <= k < colourStart + 4 * n ==> IsChannel(tokens[k]))
  }

  /** What a mesh file says. */
  datatype MeshFile = MeshFile(hasTex: int, hasColour: int, positions: seq<Vec3>, colours: seq<Colour>)

  /** A file's colours are present exactly when its colour flag is set, one
      per position. */
  predicate ValidMeshFile(f: MeshFile)
  {
    |f.positions| < UINT32_LIMIT
    && |f.colours| == (if f.hasColour != 0 then |f.positions| else 0)
  }

  function ChannelOf(v: real): byte
    requires IsChannel(v)
  {
    v.Floor as byte
  }

  function ChannelAt(tokens: seq<real>, k: nat): byte
    requires k < |tokens| && IsChannel(tokens[k])
  {
    ChannelOf(tokens[k])
  }

  function PositionAt(tokens: seq<real>, i: nat): Vec3
    requires HeaderLength + 3 * i + 2 < |tokens|
  {
    Vec3(tokens[HeaderLength + 3 * i], tokens[HeaderLength + 3 * i + 1], tokens[HeaderLength + 3 * i + 2])
  }

  function ColourAt(tokens: seq<real>, start: nat, i: nat): Colour
    requires start + 4 * i + 3 < |tokens|
    requires forall k :: start + 4 * i <= k < start + 4 * i + 4 ==> IsChannel(tokens[k])
  {
    Colour(ChannelAt(tokens, start + 4 * i), ChannelAt(tokens, start + 4 * i + 1),
           ChannelAt(tokens, start + 4 * i + 2), ChannelAt(tokens, start + 4 * i + 3))
  }

  /** The number of values the loader consumes. */
  function FileLength(tokens: seq<real>): (len: nat)
    requires WellFormedFile(tokens)
    ensures HeaderLength <= len <= |tokens|
  {
    var n := tokens[0].Floor;
    HeaderLength + 3 * n + (if tokens[2] != 0.0 then 4 * n else 0)
  }

  /** The content of a well-formed file. */
  function Parse(tokens: seq<real>): (f: MeshFile)
    requires WellFormedFile(tokens)
    ensures ValidMeshFile(f) && |f.positions| == tokens[0].Floor
  {
    var n := tokens[0].Floor;
    var colourStart := HeaderLength + 3 * n;
    MeshFile(tokens[1].Floor, tokens[2].Floor,
             seq(n, i requires 0 <= i < n => PositionAt(tokens, i)),
             if tokens[2] != 0.0 then seq(n, i requires 0 <= i < n => ColourAt(tokens, colourStart, i)) else [])
  }

  function FlattenPositions(ps: seq<Vec3>): (r: seq<real>)
    ensures |r| == 3 * |ps|
  {
    if ps == [] then [] else [ps[0].x, ps[0].y, ps[0].z] + FlattenPositions(ps[1..])
  }

  function FlattenColours(cs: seq<Colour>): (r: seq<real>)
    ensures |r| == 4 * |cs|
  {
    if cs == [] then []
    else [cs[0].r as real, cs[0].g as real, cs[0].b as real, cs[0].a as real] + FlattenColours(cs[1..])
  }

  /** The file a mesh file's content is written as. */
  function Serialise(f: MeshFile): seq<real>
  {
    [|f.positions| as real, f.hasTex as real, f.hasColour as real]
    + FlattenPositions(f.positions) + FlattenColours(f.colours)
  }

  lemma {:induction false} FlattenPositionsAt(ps: seq<Vec3>, i: nat)
    requires i < |ps|
    ensures FlattenPositions(ps)[3 * i] == ps[i].x
    ensures FlattenPositions(ps)[3 * i + 1] == ps[i].y
    ensures FlattenPositions(ps)[3 * i + 2] == ps[i].z
  {
    if i > 0 {
      FlattenPositionsAt(ps[1..], i - 1);
    }
  }

  lemma {:induction false} FlattenColoursAt(cs: seq<Colour>, i: nat)
    requires i < |cs|
    ensures FlattenColours(cs)[4 * i] == cs[i].r as real
    ensures FlattenColours(cs)[4 * i + 1] == cs[i].g as real
    ensures FlattenColours(cs)[4 * i + 2] == cs[i].b as real
    ensures FlattenColours(cs)[4 * i + 3] == cs[i].a as real
  {
    if i > 0 {
      FlattenColoursAt(cs[1..], i - 1);
    }
  }

  lemma ByteIsChannel(b: byte)
    ensures IsChannel(b as real) && ChannelOf(b as real) == b
  {
  }

  /** The header of a serialised file reads back as the counts it was
      written from. */
  lemma SerialisedHeader(f: MeshFile)
    ensures var t := Serialise(f);
            |t| == HeaderLength + 3 * |f.positions| + 4 * |f.colours|
            && t[0].Floor == |f.positions| && t[1].Floor == f.hasTex && t[2].Floor == f.hasColour
            && IsWhole(t[0]) && IsWhole(t[1]) && IsWhole(t[2]) && (t[2] != 0.0 <==> f.hasColour != 0)
  {
    var t := Serialise(f);
    assert t[0] == |f.positions| as real && t[1] == f.hasTex as real && t[2] == f.hasColour as real;
    assert (|f.positions| as real).Floor == |f.positions|;
    assert (f.hasTex as real).Floor == f.hasTex;
    assert (f.hasColour as real).Floor == f.hasColour;
  }

  /** Vertex i of a serialised file reads back as position i. */
  lemma SerialisedPosition(f: MeshFile, i: nat)
    requires i < |f.positions|
    ensures HeaderLength + 3 * i + 2 < |Serialise(f)| && PositionAt(Serialise(f), i) == f.positions[i]
  {
    var t := Serialise(f);
    var ps := FlattenPositions(f.positions);
    FlattenPositionsAt(f.positions, i);
    assert t[HeaderLength + 3 * i] == ps[3 * i];
    assert t[HeaderLength + 3 * i + 1] == ps[3 * i + 1];
    assert t[HeaderLength + 3 * i + 2] == ps[3 * i + 2];
  }

  /** The channel values of a serialised file are bytes, and colour i reads
      back as colour i. */
  lemma SerialisedColour(f: MeshFile, i: nat)
    requires i < |f.colours|
    ensures var t, start := Serialise(f), HeaderLength + 3 * |f.positions|;
            start + 4 * i + 3 < |t|
            && (forall k :: start + 4 * i <= k < start + 4 * i + 4 ==> IsChannel(t[k]))
            && ColourAt(t, start, i) == f.colours[i]
  {
    var t, start := Serialise(f), HeaderLength + 3 * |f.positions|;
    var cs := FlattenColours(f.colours);
    var c := f.colours[i];
    FlattenColoursAt(f.colours, i);
    assert t[start + 4 * i] == cs[4 * i] == c.r as real;
    assert t[start + 4 * i + 1] == cs[4 * i + 1] == c.g as real;
    assert t[start + 4 * i + 2] == cs[4 * i + 2] == c.b as real;
    assert t[start + 4 * i + 3] == cs[4 * i + 3] == c.a as real;
    ByteIsChannel(c.r);
    ByteIsChannel(c.g);
    ByteIsChannel(c.b);
    ByteIsChannel(c.a);
  }

  /** Every colour value of a serialised file is a byte. */
  lemma SerialisedChannels(f: MeshFile)
    ensures var t, start := Serialise(f), HeaderLength + 3 * |f.positions|;
            start + 4 * |f.colours| <= |t|
            && forall k :: start <= k < start + 4 * |f.colours| ==> IsChannel(t[k])
  {
    var t, start := Serialise(f), HeaderLength + 3 * |f.positions|;
    SerialisedHeader(f);
    forall k | start <= k < start + 4 * |f.colours|
      ensures IsChannel(t[k])
    {
      var i := (k - start) / 4;
      SerialisedColour(f, i);
    }
  }

  /** Writing a file's content out and loading it gives the same content. */
  lemma ParseSerialise(f: MeshFile)
    requires ValidMeshFile(f)
    ensures WellFormedFile(Serialise(f)) && Parse(Serialise(f)) == f
    ensures FileLength(Serialise(f)) == |Serialise(f)|
  {
    var t := Serialise(f);
    var n := |f.positions|;
    var colourStart := HeaderLength + 3 * n;
    SerialisedHeader(f);
    SerialisedChannels(f);
    assert WellFormedFile(t);
    var g := Parse(t);
    forall i | 0 <= i < n
      ensures g.positions[i] == f.positions[i]
    {
      SerialisedPosition(f, i);
    }
    forall i | 0 <= i < |f.colours|
      ensures g.colours[i] == f.colours[i]
    {
      SerialisedColour(f, i);
    }
    assert g.positions == f.positions;
    assert g.colours == f.colours;
  }

  lemma {:induction false} FlattenPositionsOfParse(tokens: seq<real>, i: nat, j: nat)
    requires WellFormedFile(tokens) && i < tokens[0].Floor && j < 3
    ensures FlattenPositions(Parse(tokens).positions)[3 * i + j] == tokens[HeaderLength + 3 * i + j]
  {
    FlattenPositionsAt(Parse(tokens).positions, i);
  }

  lemma {:induction false} FlattenColoursOfParse(tokens: seq<real>, i: nat, j: nat)
    requires WellFormedFile(tokens) && tokens[2] != 0.0 && i < tokens[0].Floor && j < 4
    ensures FlattenColours(Parse(tokens).colours)[4 * i + j]
            == tokens[HeaderLength + 3 * tokens[0].Floor + 4 * i + j]
  {
    var n := tokens[0].Floor;
    var start := HeaderLength + 3 * n;
    var c := Parse(tokens).colours[i];
    assert c == ColourAt(tokens, start, i);
    FlattenColoursAt(Parse(tokens).colours, i);
    var k := start + 4 * i + j;
    assert IsChannel(tokens[k]);
    assert (tokens[k].Floor as byte) as real == tokens[k];
  }

  /** The positions a file's content is written as are the file's position
      values. */
  lemma FlattenedParsePositions(tokens: seq<real>)
    requires WellFormedFile(tokens)
    ensures FlattenPositions(Parse(tokens).positions)
            == tokens[HeaderLength..HeaderLength + 3 * tokens[0].Floor]
  {
    var ps := FlattenPositions(Parse(tokens).positions);
    forall k | 0 <= k < |ps| ensures ps[k] == tokens[HeaderLength + k] {
      FlattenPositionsOfParse(tokens, k / 3, k % 3);
    }
  }

  /** The colours a file's content is written as are the file's colour
      values, or nothing when the colour flag is clear. */
  lemma FlattenedParseColours(tokens: seq<real>)
    requires WellFormedFile(tokens)
    ensures FlattenColours(Parse(tokens).colours)
            == tokens[HeaderLength + 3 * tokens[0].Floor..FileLength(tokens)]
  {
    var cs := FlattenColours(Parse(tokens).colours);
    var colourStart := HeaderLength + 3 * tokens[0].Floor;
    if tokens[2] != 0.0 {
      forall k | 0 <= k < |cs| ensures cs[k] == tokens[colourStart + k] {
        FlattenColoursOfParse(tokens, k / 4, k % 4);
      }
    }
  }

  /** Loading a well-formed file and writing its content out gives back the
      values the loader consumed. */
  lemma SerialiseParse(tokens: seq<real>)
    requires WellFormedFile(tokens)
    ensures Serialise(Parse(tokens)) == tokens[..FileLength(tokens)]
  {
    var f := Parse(tokens);
    var n := tokens[0].Floor;
    var colourStart := HeaderLength + 3 * n;
    var len := FileLength(tokens);
    assert [|f.positions| as real, f.hasTex as real, f.hasColour as real] == tokens[..HeaderLength];
    FlattenedParsePositions(tokens);
    FlattenedParseColours(tokens);
    assert tokens[..len] == tokens[..HeaderLength] + tokens[HeaderLength..colourStart] + tokens[colourStart..len];
  }

  /** Mesh::LoadMeshFile. `openFailed` says that opening the file failed;
      otherwise `tokens` are the values the stream extractions yield. The
      loaded mesh holds the file's positions (their w is left as the
      allocation left it) and, when the colour flag is set, its colours; a
      texture-coordinate array is allocated but never read into. */
  method LoadMeshFile(openFailed: bool, tokens: seq<real>) returns (r: Option<Mesh>)
    requires !openFailed ==> WellFormedFile(tokens)
    ensures r.None? <==> openFailed
    ensures r.Some? ==>
              var m, file := r.value, Parse(tokens);
              m.WellFormed() && m.GetType() == Triangles && m.numVertices == |file.positions|
              && m.textureCoords.Some?
              && (forall i :: 0 <= i < m.numVertices ==>
                    m.vertices[i].x == file.positions[i].x && m.vertices[i].y == file.positions[i].y
                    && m.vertices[i].z == file.positions[i].z)
              && (file.hasColour != 0 ==> m.colours == file.colours)
  {
    if openFailed {
      return None;
    }
    ghost var file := Parse(tokens);
    var pos := 0;
    var n := tokens[pos].Floor;
    pos := pos + 1;
    var hasTex := tokens[pos].Floor;
    pos := pos + 1;
    var hasColour := tokens[pos].Floor;
    pos := pos + 1;
    var vertices := new Vec4[n];
    var textureCoords := new Vec2[n];
    var colours := new Colour[n];
    pos := ReadPositions(tokens, vertices, pos);
    if hasColour != 0 {
      pos := ReadColours(tokens, colours, pos);
      assert colours[..] == file.colours;
    }
    r := Some(Mesh(Triangles, n, vertices[..], colours[..], Some(textureCoords[..])));
  }

  /** The vertex loop of Mesh::LoadMeshFile: x, y and z of every vertex in
      turn, each vertex's w left as it was. */
  method ReadPositions(tokens: seq<real>, vertices: array<Vec4>, start: nat) returns (pos: nat)
    requires start == HeaderLength && HeaderLength + 3 * vertices.Length <= |tokens|
    modifies vertices
    ensures pos == HeaderLength + 3 * vertices.Length
    ensures forall j :: 0 <= j < vertices.Length ==>
              var p := PositionAt(tokens, j);
              vertices[j].x == p.x && vertices[j].y == p.y && vertices[j].z == p.z
  {
    pos := start;
    for i := 0 to vertices.Length
      invariant pos == HeaderLength + 3 * i
      invariant forall j :: 0 <= j < i ==>
                  var p := PositionAt(tokens, j);
                  vertices[j].x == p.x && vertices[j].y == p.y && vertices[j].z == p.z
    {
      vertices[i] := vertices[i].(x := tokens[pos]);
      pos := pos + 1;
      vertices[i] := vertices[i].(y := tokens[pos]);
      pos := pos + 1;
      vertices[i] := vertices[i].(z := tokens[pos]);
      pos := pos + 1;
    }
  }

  /** The colour loop of Mesh::LoadMeshFile: r, g, b and a of every vertex in
      turn. */
  method ReadColours(tokens: seq<real>, colours: array<Colour>, start: nat) returns (pos: nat)
    requires start + 4 * colours.Length <= |tokens|
    requires forall k :: start <= k < start + 4 * colours.Length ==> IsChannel(tokens[k])
    modifies colours
    ensures pos == start + 4 * colours.Length
    ensures forall j :: 0 <= j < colours.Length ==> colours[j] == ColourAt(tokens, start, j)
  {
    pos := start;
    for i := 0 to colours.Length
      invariant pos == start + 4 * i
      invariant forall j :: 0 <= j < i ==> colours[j] == ColourAt(tokens, start, j)
    {
      colours[i] := colours[i].(r := ChannelAt(tokens, pos));
      pos := pos + 1;
      colours[i] := colours[i].(g := ChannelAt(tokens, pos));
      pos := pos + 1;
      colours[i] := colours[i].(b := ChannelAt(tokens, pos));
      pos := pos + 1;
      colours[i] := colours[i].(a := ChannelAt(tokens, pos));
      pos := pos + 1;
    }
  }

  // ---------------------------------------------------------------------------
  // The colour channels as Mesh.cpp:146-147 reads them. Each channel is an
  // `unsigned char`, and `f >> c` into an `unsigned char` reads one character,
  // not a number. The loader above reads each channel as a number instead, the
  // reading under which a file's content loads back (ParseSerialise).

  /** The characters `operator>>` skips first: space, and tab through
      carriage return. */
  predicate IsBlank(c: byte)
  {
    c == 32 || 9 <= c <= 13
  }

  /** `f >> c` for an `unsigned char` c, on the bytes the stream has left:
      skip the blanks, then take the next byte itself. None when only blanks
      are left, so the extraction fails. */
  function ExtractChar(text: seq<byte>): (r: Option<(byte, seq<byte>)>)
    ensures r.Some? ==> !IsBlank(r.value.0) && |r.value.1| < |text|
    ensures r.None? <==> forall k :: 0 <= k < |text| ==> IsBlank(text[k])
  {
    if |text| == 0 then None
    else if IsBlank(text[0]) then
      assert forall k :: 1 <= k < |text| ==> text[k] == text[1..][k - 1];
      ExtractChar(text[1..])
    else Some((text[0], text[1..]))
  }

  /** `f >> r; f >> g; f >> b; f >> a` for one colour, as written. */
  function ReadColourAsWritten(text: seq<byte>): (r: Option<(Colour, seq<byte>)>)
    ensures r.Some? ==> |r.value.1| + 4 <= |text|
  {
    match ExtractChar(text)
    case None => None
    case Some((red, t1)) =>
      match ExtractChar(t1)
      case None => None
      case Some((green, t2)) =>
        match ExtractChar(t2)
        case None => None
        case Some((blue, t3)) =>
          match ExtractChar(t3)
          case None => None
          case Some((alpha, t4)) => Some((Colour(red, green, blue, alpha), t4))
  }

  /** The colour line "255 0 0 255", opaque red, read as written: the channels
      get the codes of '2', '5', '5' and '0', and " 0 255" is left for the
      next vertex. */
  lemma ColourLineMisread()
    ensures ReadColourAsWritten([50, 53, 53, 32, 48, 32, 48, 32, 50, 53, 53])
            == Some((Colour(50, 53, 53, 48), [32, 48, 32, 50, 53, 53]))
    ensures Colour(50, 53, 53, 48) != Red
  {
    var text: seq<byte> := [50, 53, 53, 32, 48, 32, 48, 32, 50, 53, 53];
    assert ExtractChar(text) == Some((50 as byte, text[1..]));
    assert ExtractChar(text[1..]) == Some((53 as byte, text[2..]));
    assert ExtractChar(text[2..]) == Some((53 as byte, text[3..]));
    assert ExtractChar(text[4..]) == Some((48 as byte, text[5..]));
    assert ExtractChar(text[3..]) == ExtractChar(text[3..][1..]);
    assert text[3..][1..] == text[4..];
    assert text[5..] == [32, 48, 32, 50, 53, 53];
  }
}
