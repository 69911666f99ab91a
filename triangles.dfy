/** The triangle rasteriser (SoftwareRasteriser::RasteriseTri and its
    helpers ScreenAreaOfTri and CalculateBoxForTri), as functions of the three
    port-mapped vertices. The pixel loop visits the sample points
    (minX + i, minY + j) of the clamped bounding box row by row, tests each
    against the three sub-triangle areas and writes the accepted ones. */
module Triangles {
  import opened Common
  import opened Colours
  import opened Geometry
  import opened Textures
  import opened Fragments

  /** Half the shoelace sum: positive for counter-clockwise (a, b, c). */
  function ScreenAreaOfTri(a: Vec4, b: Vec4, c: Vec4): real
  {
    0.5 * ((a.x * b.y + b.x * c.y + c.x * a.y) - (b.x * a.y + c.x * b.y + a.x * c.y))
  }

  /** Swapping two vertices flips the winding and negates the area; rotating
      them keeps it. */
  lemma AreaWinding(a: Vec4, b: Vec4, c: Vec4)
    ensures ScreenAreaOfTri(b, a, c) == -ScreenAreaOfTri(a, b, c)
    ensures ScreenAreaOfTri(a, c, b) == -ScreenAreaOfTri(a, b, c)
    ensures ScreenAreaOfTri(b, c, a) == ScreenAreaOfTri(a, b, c)
  {
  }

  /** Any point splits the triangle into three triangles whose signed areas
      add up to the whole. */
  lemma AreaSplitsAtPoint(a: Vec4, b: Vec4, c: Vec4, p: Vec4)
    ensures ScreenAreaOfTri(a, b, p) + ScreenAreaOfTri(b, c, p) + ScreenAreaOfTri(c, a, p)
            == ScreenAreaOfTri(a, b, c)
  {
  }

  /** The port map scales every area by hx * hy and keeps the winding. */
  lemma PortScalesArea(port: PortMap, a: Vec4, b: Vec4, c: Vec4)
    requires a.w == 1.0 && b.w == 1.0 && c.w == 1.0
    ensures ScreenAreaOfTri(port.Apply(a), port.Apply(b), port.Apply(c))
            == port.half.x * port.half.y * ScreenAreaOfTri(a, b, c)
  {
  }

  datatype BoundingBox = BoundingBox(topLeft: Vec2, bottomRight: Vec2)

  predicate Within(lo: real, v: real, hi: real)
  {
    lo <= v <= hi
  }

  function Min3(a: real, b: real, c: real): real { Min(Min(a, b), c) }
  function Max3(a: real, b: real, c: real): real { Max(Max(a, b), c) }

  /** The triangle's bounding box clamped to the screen: a coordinate is in
      the box exactly when it is in the triangle's extent and on screen
      (from 0 up to and including the width or height). */
  function CalculateBoxForTri(a: Vec4, b: Vec4, c: Vec4, w: nat, h: nat): (box: BoundingBox)
    ensures box.topLeft.x >= 0.0 && box.topLeft.y >= 0.0
    ensures box.bottomRight.x <= w as real && box.bottomRight.y <= h as real
    ensures forall x :: Within(box.topLeft.x, x, box.bottomRight.x)
              <==> Within(0.0, x, w as real) && Within(Min3(a.x, b.x, c.x), x, Max3(a.x, b.x, c.x))
    ensures forall y :: Within(box.topLeft.y, y, box.bottomRight.y)
              <==> Within(0.0, y, h as real) && Within(Min3(a.y, b.y, c.y), y, Max3(a.y, b.y, c.y))
  {
    BoundingBox(
      Vec2(Max(Min(Min(a.x, b.x), c.x), 0.0), Max(Min(Min(a.y, b.y), c.y), 0.0)),
      Vec2(Min(Max(Max(a.x, b.x), c.x), w as real), Min(Max(Max(a.y, b.y), c.y), h as real)))
  }

  /** What RasteriseTri is given, with the vertices already port-mapped:
      colours, the perspective-divided texture coordinates (u/w, v/w, 1/w)
      and the texture in use, if any. */
  datatype TriangleInput = TriangleInput(
    v0: Vec4, v1: Vec4, v2: Vec4,
    colA: Colour, colB: Colour, colC: Colour,
    texA: Vec3, texB: Vec3, texC: Vec3,
    texture: Option<Texture>)

  /** The three prepared 1/w share one sign: the triangle lies wholly in
      front of the eye or wholly behind it. Then the interpolated 1/w cannot
      vanish (BlendedInverseWNonzero). */
  predicate OneSide(t: TriangleInput)
  {
    SameSign(t.texA.z, t.texB.z, t.texC.z)
  }

  function TriArea(t: TriangleInput): real
  {
    ScreenAreaOfTri(t.v0, t.v1, t.v2)
  }

  function SamplePoint(x: real, y: real): Vec4
  {
    Vec4(x, y, 0.0, 1.0)
  }

  /** `subTriArea[0..2]`: the areas of the three triangles the sample point
      forms with the edges (v0, v1), (v1, v2) and (v2, v0). */
  function SubArea0(t: TriangleInput, x: real, y: real): real
  {
    Abs(ScreenAreaOfTri(t.v0, SamplePoint(x, y), t.v1))
  }

  function SubArea1(t: TriangleInput, x: real, y: real): real
  {
    Abs(ScreenAreaOfTri(t.v1, SamplePoint(x, y), t.v2))
  }

  function SubArea2(t: TriangleInput, x: real, y: real): real
  {
    Abs(ScreenAreaOfTri(t.v2, SamplePoint(x, y), t.v0))
  }

  function TriSum(t: TriangleInput, x: real, y: real): real
  {
    SubArea0(t, x, y) + SubArea1(t, x, y) + SubArea2(t, x, y)
  }

  /** The containment test with its fixed tolerances: a sample is rejected
      when the sub-areas add up to more than the area plus 0.9, or to less
      than 1. */
  predicate Accepted(t: TriangleInput, x: real, y: real)
  {
    !(TriSum(t, x, y) > TriArea(t) + 0.9) && !(TriSum(t, x, y) < 1.0)
  }

  /** Only a triangle of area at least 0.1 can accept a sample. */
  lemma AcceptedNeedsArea(t: TriangleInput, x: real, y: real)
    requires Accepted(t, x, y)
    ensures TriArea(t) >= 0.1
  {
  }

  /** (alpha, beta, gamma): each sub-area divided by the triangle's area,
      alpha belonging to v0 (the sub-triangle opposite it), beta to v1 and
      gamma to v2. */
  function Weights(t: TriangleInput, x: real, y: real): Vec3
  {
    Normalise(SubArea1(t, x, y), SubArea2(t, x, y), SubArea0(t, x, y), TriArea(t))
  }

  /** `e * areaRecip` for each of three values, with `areaRecip = 1.0f / a`. */
  function Normalise(e0: real, e1: real, e2: real, a: real): Vec3
  {
    var areaRecip := Recip(a);
    Vec3(e0 * areaRecip, e1 * areaRecip, e2 * areaRecip)
  }

  lemma NormaliseIsQuotient(e0: real, e1: real, e2: real, a: real)
    requires a != 0.0
    ensures Normalise(e0, e1, e2, a) == Vec3(e0 / a, e1 / a, e2 / a)
  {
    RecipIsQuotient(e0, a);
    RecipIsQuotient(e1, a);
    RecipIsQuotient(e2, a);
  }

  /** One component of `(texA * alpha) + (texB * beta) + (texC * gamma)`. */
  function Combine(pa: real, pb: real, pc: real, wa: real, wb: real, wc: real): real
  {
    pa * wa + pb * wb + pc * wc
  }

  /** `(texA * alpha) + (texB * beta) + (texC * gamma)`. */
  function BlendTex(texA: Vec3, texB: Vec3, texC: Vec3, wt: Vec3): Vec3
  {
    Vec3(Combine(texA.x, texB.x, texC.x, wt.x, wt.y, wt.z),
         Combine(texA.y, texB.y, texC.y, wt.x, wt.y, wt.z),
         Combine(texA.z, texB.z, texC.z, wt.x, wt.y, wt.z))
  }

  lemma PositiveCombination(a: real, b: real, c: real, za: real, zb: real, zc: real)
    requires a >= 0.0 && b >= 0.0 && c >= 0.0 && a + b + c > 0.0
    requires za > 0.0 && zb > 0.0 && zc > 0.0
    ensures Combine(za, zb, zc, a, b, c) > 0.0
  {
    MulNonneg(za, a);
    MulNonneg(zb, b);
    MulNonneg(zc, c);
    if a > 0.0 { assert za * a > 0.0; }
    else if b > 0.0 { assert zb * b > 0.0; }
    else { assert zc * c > 0.0; }
  }

  /** The mirror image: a non-negative, nonzero blend of negative values is
      negative. */
  lemma NegativeCombination(a: real, b: real, c: real, za: real, zb: real, zc: real)
    requires a >= 0.0 && b >= 0.0 && c >= 0.0 && a + b + c > 0.0
    requires za < 0.0 && zb < 0.0 && zc < 0.0
    ensures Combine(za, zb, zc, a, b, c) < 0.0
  {
    PositiveCombination(a, b, c, -za, -zb, -zc);
    assert Combine(-za, -zb, -zc, a, b, c) == -Combine(za, zb, zc, a, b, c);
  }

  /** The weights as RasteriseTri computes them: each sub-area times the
      reciprocal of the area, taken once per triangle. */
  lemma WeightsByReciprocal(t: TriangleInput, x: real, y: real, s0: real, s1: real, s2: real, areaRecip: real)
    requires s0 == SubArea0(t, x, y) && s1 == SubArea1(t, x, y) && s2 == SubArea2(t, x, y)
    requires areaRecip == Recip(TriArea(t))
    ensures Vec3(s1 * areaRecip, s2 * areaRecip, s0 * areaRecip) == Weights(t, x, y)
  {
  }

  /** Multiplying by the reciprocal of the area is dividing by the area. */
  lemma WeightsAreQuotients(t: TriangleInput, x: real, y: real)
    requires Accepted(t, x, y)
    ensures TriArea(t) > 0.0
    ensures Weights(t, x, y)
            == Vec3(SubArea1(t, x, y) / TriArea(t), SubArea2(t, x, y) / TriArea(t), SubArea0(t, x, y) / TriArea(t))
  {
    AcceptedNeedsArea(t, x, y);
    NormaliseIsQuotient(SubArea1(t, x, y), SubArea2(t, x, y), SubArea0(t, x, y), TriArea(t));
  }

  /** The weights of an accepted sample are non-negative and add up to
      triSum / triArea, which lies between 1 / triArea and 1 + 0.9 / triArea. */
  lemma WeightsOfAcceptedSample(t: TriangleInput, x: real, y: real)
    requires Accepted(t, x, y)
    ensures var wt := Weights(t, x, y);
            wt.x >= 0.0 && wt.y >= 0.0 && wt.z >= 0.0
            && wt.x + wt.y + wt.z == TriSum(t, x, y) / TriArea(t)
            && 1.0 / TriArea(t) <= wt.x + wt.y + wt.z <= 1.0 + 0.9 / TriArea(t)
  {
    WeightsAreQuotients(t, x, y);
    QuotientsOfBoundedSum(SubArea0(t, x, y), SubArea1(t, x, y), SubArea2(t, x, y), TriArea(t));
  }

  /** Three non-negative parts whose sum s lies in [1, a + 0.9], each divided
      by a: the quotients are non-negative and add up to s / a, which lies in
      [1 / a, 1 + 0.9 / a]. */
  lemma QuotientsOfBoundedSum(s0: real, s1: real, s2: real, a: real)
    requires a > 0.0 && s0 >= 0.0 && s1 >= 0.0 && s2 >= 0.0
    requires 1.0 <= s0 + s1 + s2 <= a + 0.9
    ensures s1 / a >= 0.0 && s2 / a >= 0.0 && s0 / a >= 0.0
    ensures s1 / a + s2 / a + s0 / a == (s0 + s1 + s2) / a
    ensures 1.0 / a <= s1 / a + s2 / a + s0 / a <= 1.0 + 0.9 / a
  {
    assert s1 / a + s2 / a + s0 / a == (s0 + s1 + s2) / a;
    DivideBounds(s0 + s1 + s2, a);
  }

  lemma DivideBounds(s: real, a: real)
    requires a > 0.0 && 1.0 <= s <= a + 0.9
    ensures 1.0 / a <= s / a <= 1.0 + 0.9 / a
  {
    DivideMonotone(1.0, s, a);
    DivideMonotone(s, a + 0.9, a);
    assert (a + 0.9) / a == 1.0 + 0.9 / a;
  }

  lemma DivideMonotone(p: real, q: real, a: real)
    requires a > 0.0 && p <= q
    ensures p / a <= q / a
  {
    assert q / a - p / a == (q - p) / a;
  }

  /** The perspective-correct texture coordinate of a textured sample: blend
      (u/w, v/w, 1/w), then divide u and v by the blended 1/w. At an accepted
      sample of a triangle on one side of the eye that 1/w is nonzero and has
      the vertices' sign. */
  function PerspectiveTexCoord(t: TriangleInput, x: real, y: real): (r: Vec3)
    ensures Accepted(t, x, y) && OneSide(t) ==> r.z != 0.0 && (t.texA.z > 0.0 <==> r.z > 0.0)
  {
    var sub := BlendTex(t.texA, t.texB, t.texC, Weights(t, x, y));
    assert Accepted(t, x, y) && OneSide(t) ==> sub.z != 0.0 && (t.texA.z > 0.0 <==> sub.z > 0.0) by {
      if Accepted(t, x, y) && OneSide(t) {
        BlendedInverseWNonzero(t, x, y);
      }
    }
    PerspectiveDivide(sub)
  }

  /** `subTex.x /= subTex.z; subTex.y /= subTex.z`: divide the blended u/w and
      v/w by the blended 1/w, which is kept. */
  function PerspectiveDivide(sub: Vec3): (r: Vec3)
    ensures r.z == sub.z
    ensures sub.z != 0.0 ==> r.x * sub.z == sub.x && r.y * sub.z == sub.y
  {
    Vec3(Quot(sub.x, sub.z), Quot(sub.y, sub.z), sub.z)
  }

  /** At an accepted sample of a triangle whose three 1/w share a sign the
      blended 1/w has that sign too, so the perspective divide never divides
      by zero. */
  lemma BlendedInverseWNonzero(t: TriangleInput, x: real, y: real)
    requires Accepted(t, x, y) && OneSide(t)
    ensures var z := BlendTex(t.texA, t.texB, t.texC, Weights(t, x, y)).z;
            z != 0.0 && (t.texA.z > 0.0 <==> z > 0.0)
  {
    var wt := Weights(t, x, y);
    WeightsOfAcceptedSample(t, x, y);
    AcceptedNeedsArea(t, x, y);
    assert 1.0 / TriArea(t) > 0.0;
    if t.texA.z > 0.0 {
      PositiveCombination(wt.x, wt.y, wt.z, t.texA.z, t.texB.z, t.texC.z);
    } else {
      NegativeCombination(wt.x, wt.y, wt.z, t.texA.z, t.texB.z, t.texC.z);
    }
  }

  /** The colour written for an accepted sample: the texture's nearest sample
      at the perspective-correct coordinate, or else the vertex colours blended
      with the same weights (in screen space, without the 1/w correction). */
  function ShadeColour(t: TriangleInput, x: real, y: real): Colour
  {
    if t.texture.Some? then
      t.texture.value.nearestSample(PerspectiveTexCoord(t, x, y))
    else
      var wt := Weights(t, x, y);
      Blend3(t.colA, wt.x, t.colB, wt.y, t.colC, wt.z)
  }

  /** The write for the sample at (x, y), if it is accepted: at the truncated
      sample position. */
  function PixelFragments(t: TriangleInput, x: real, y: real): (r: seq<Fragment>)
    ensures |r| <= 1
    ensures |r| == 1 <==> Accepted(t, x, y)
  {
    if Accepted(t, x, y) then [Fragment(Trunc(x), Trunc(y), ShadeColour(t, x, y))] else []
  }

  /** The writes of the inner loop, from the sample at x to the end of the row. */
  function RowFragments(t: TriangleInput, box: BoundingBox, x: real, y: real): seq<Fragment>
    decreases Steps(x, box.bottomRight.x)
  {
    if x < box.bottomRight.x then
      StepsDecrease(x, box.bottomRight.x);
      PixelFragments(t, x, y) + RowFragments(t, box, x + 1.0, y)
    else []
  }

  /** The writes of the outer loop, from row y to the bottom of the box. */
  function RowsFragments(t: TriangleInput, box: BoundingBox, y: real): seq<Fragment>
    decreases Steps(y, box.bottomRight.y)
  {
    if y < box.bottomRight.y then
      StepsDecrease(y, box.bottomRight.y);
      RowFragments(t, box, box.topLeft.x, y) + RowsFragments(t, box, y + 1.0)
    else []
  }

  function BoxOf(t: TriangleInput, w: nat, h: nat): BoundingBox
  {
    CalculateBoxForTri(t.v0, t.v1, t.v2, w, h)
  }

  /** All writes of RasteriseTri for a w-by-h screen, in the loop's order. */
  function TriangleFragments(t: TriangleInput, w: nat, h: nat): seq<Fragment>
  {
    RowsFragments(t, BoxOf(t, w, h), BoxOf(t, w, h).topLeft.y)
  }

  /** One iteration of the inner loop: painting the sample at x, then the
      rest of the row from x + 1, paints the row from x. */
  lemma RowStep(t: TriangleInput, box: BoundingBox, x: real, y: real, w: nat, h: nat,
                before: seq<Pixel>, after: seq<Pixel>)
    requires x < box.bottomRight.x && |before| == w * h
    requires after == Paint(before, w, h, PixelFragments(t, x, y))
    ensures Paint(after, w, h, RowFragments(t, box, x + 1.0, y)) == Paint(before, w, h, RowFragments(t, box, x, y))
  {
    PaintAppend(before, w, h, PixelFragments(t, x, y), RowFragments(t, box, x + 1.0, y));
  }

  /** One iteration of the outer loop: painting row y, then the rows from
      y + 1, paints the rows from y. */
  lemma RowsStep(t: TriangleInput, box: BoundingBox, y: real, w: nat, h: nat,
                 before: seq<Pixel>, after: seq<Pixel>)
    requires y < box.bottomRight.y && |before| == w * h
    requires after == Paint(before, w, h, RowFragments(t, box, box.topLeft.x, y))
    ensures Paint(after, w, h, RowsFragments(t, box, y + 1.0)) == Paint(before, w, h, RowsFragments(t, box, y))
  {
    PaintAppend(before, w, h, RowFragments(t, box, box.topLeft.x, y), RowsFragments(t, box, y + 1.0));
  }

  // ---------------------------------------------------------------------------
  // Every write is on screen.

  lemma {:induction false} RowOnScreen(t: TriangleInput, box: BoundingBox, x: real, y: real, w: nat, h: nat)
    requires 0.0 <= x && box.bottomRight.x <= w as real && 0.0 <= y < h as real
    ensures forall i :: 0 <= i < |RowFragments(t, box, x, y)| ==> OnScreen(RowFragments(t, box, x, y)[i], w, h)
    decreases Steps(x, box.bottomRight.x)
  {
    if x < box.bottomRight.x {
      StepsDecrease(x, box.bottomRight.x);
      RowOnScreen(t, box, x + 1.0, y, w, h);
      var p := PixelFragments(t, x, y);
      var rest := RowFragments(t, box, x + 1.0, y);
      assert RowFragments(t, box, x, y) == p + rest;
      forall i | 0 <= i < |p + rest| ensures OnScreen((p + rest)[i], w, h) {
        if i >= |p| { assert (p + rest)[i] == rest[i - |p|]; }
      }
    }
  }

  lemma {:induction false} RowsOnScreen(t: TriangleInput, box: BoundingBox, y: real, w: nat, h: nat)
    requires 0.0 <= box.topLeft.x && box.bottomRight.x <= w as real
    requires 0.0 <= y && box.bottomRight.y <= h as real
    ensures forall i :: 0 <= i < |RowsFragments(t, box, y)| ==> OnScreen(RowsFragments(t, box, y)[i], w, h)
    decreases Steps(y, box.bottomRight.y)
  {
    if y < box.bottomRight.y {
      StepsDecrease(y, box.bottomRight.y);
      RowOnScreen(t, box, box.topLeft.x, y, w, h);
      RowsOnScreen(t, box, y + 1.0, w, h);
      var p := RowFragments(t, box, box.topLeft.x, y);
      var rest := RowsFragments(t, box, y + 1.0);
      assert RowsFragments(t, box, y) == p + rest;
      forall i | 0 <= i < |p + rest| ensures OnScreen((p + rest)[i], w, h) {
        if i >= |p| { assert (p + rest)[i] == rest[i - |p|]; }
      }
    }
  }

  /** Every pixel RasteriseTri writes lies in [0, w) x [0, h): the clamped
      box, not the pixel sink's check, keeps the triangle on screen. */
  lemma TriangleFragmentsOnScreen(t: TriangleInput, w: nat, h: nat)
    ensures AllOnScreen(TriangleFragments(t, w, h), w, h)
  {
    var box := BoxOf(t, w, h);
    RowsOnScreen(t, box, box.topLeft.y, w, h);
  }

  // ---------------------------------------------------------------------------
  // Thin and clockwise triangles draw nothing.

  lemma {:induction false} ThinRowEmpty(t: TriangleInput, box: BoundingBox, x: real, y: real)
    requires TriArea(t) < 0.1
    ensures RowFragments(t, box, x, y) == []
    decreases Steps(x, box.bottomRight.x)
  {
    if x < box.bottomRight.x {
      StepsDecrease(x, box.bottomRight.x);
      ThinRowEmpty(t, box, x + 1.0, y);
      if Accepted(t, x, y) {
        AcceptedNeedsArea(t, x, y);
      }
    }
  }

  lemma {:induction false} ThinRowsEmpty(t: TriangleInput, box: BoundingBox, y: real)
    requires TriArea(t) < 0.1
    ensures RowsFragments(t, box, y) == []
    decreases Steps(y, box.bottomRight.y)
  {
    if y < box.bottomRight.y {
      StepsDecrease(y, box.bottomRight.y);
      ThinRowEmpty(t, box, box.topLeft.x, y);
      ThinRowsEmpty(t, box, y + 1.0);
    }
  }

  /** A triangle whose signed area is below 0.1, which takes in every
      clockwise and every degenerate triangle, writes no pixel. */
  lemma ThinTriangleDrawsNothing(t: TriangleInput, w: nat, h: nat)
    requires TriArea(t) < 0.1
    ensures TriangleFragments(t, w, h) == []
  {
    ThinRowsEmpty(t, BoxOf(t, w, h), BoxOf(t, w, h).topLeft.y);
  }

  /** Back-face culling: listing a counter-clockwise triangle's first two
      vertices the other way round makes it draw nothing. */
  lemma ReversedWindingDrawsNothing(t: TriangleInput, w: nat, h: nat)
    requires TriArea(t) >= 0.0
    ensures TriangleFragments(t.(v0 := t.v1, v1 := t.v0), w, h) == []
  {
    AreaWinding(t.v0, t.v1, t.v2);
    ThinTriangleDrawsNothing(t.(v0 := t.v1, v1 := t.v0), w, h);
  }

  // ---------------------------------------------------------------------------
  // What the containment test decides.

  /** The sample lies in the closed counter-clockwise triangle: on the inner
      side of all three edges. */
  predicate Inside(t: TriangleInput, x: real, y: real)
  {
    var p := SamplePoint(x, y);
    ScreenAreaOfTri(t.v0, t.v1, p) >= 0.0 && ScreenAreaOfTri(t.v1, t.v2, p) >= 0.0
    && ScreenAreaOfTri(t.v2, t.v0, p) >= 0.0
  }

  /** For a counter-clockwise triangle the sub-areas never add up to less
      than the area, and they add up to exactly the area if and only if the
      sample is inside. */
  lemma ContainmentTest(t: TriangleInput, x: real, y: real)
    requires TriArea(t) > 0.0
    ensures TriSum(t, x, y) >= TriArea(t)
    ensures TriSum(t, x, y) == TriArea(t) <==> Inside(t, x, y)
  {
    var p := SamplePoint(x, y);
    AreaSplitsAtPoint(t.v0, t.v1, t.v2, p);
    AreaWinding(t.v0, t.v1, p);
    AreaWinding(t.v1, t.v2, p);
    AreaWinding(t.v2, t.v0, p);
  }

  /** A sample inside a triangle of area at least 1 is always written. */
  lemma InsideSampleAccepted(t: TriangleInput, x: real, y: real)
    requires TriArea(t) >= 1.0 && Inside(t, x, y)
    ensures Accepted(t, x, y)
  {
    ContainmentTest(t, x, y);
  }

  /** A sample outside a counter-clockwise triangle is rejected once its
      sub-areas exceed the area by more than the 0.9 tolerance. */
  lemma OutsideBeyondToleranceRejected(t: TriangleInput, x: real, y: real)
    requires TriSum(t, x, y) > TriArea(t) + 0.9
    ensures !Accepted(t, x, y) && PixelFragments(t.(texture := None), x, y) == []
  {
  }

  /** Inside the triangle each sub-area is the signed area of the triangle the
      sample forms with the opposite edge. */
  lemma InsideSubAreas(t: TriangleInput, x: real, y: real)
    requires Inside(t, x, y)
    ensures SubArea0(t, x, y) == ScreenAreaOfTri(t.v0, t.v1, SamplePoint(x, y))
    ensures SubArea1(t, x, y) == ScreenAreaOfTri(t.v1, t.v2, SamplePoint(x, y))
    ensures SubArea2(t, x, y) == ScreenAreaOfTri(t.v2, t.v0, SamplePoint(x, y))
  {
    var p := SamplePoint(x, y);
    AreaWinding(t.v0, t.v1, p);
    AreaWinding(t.v1, t.v2, p);
    AreaWinding(t.v2, t.v0, p);
  }

  /** Inside the triangle the sub-areas, weighted by the vertices, recombine
      into the whole area times the sample point. */
  lemma InsideSubAreasRecombine(t: TriangleInput, x: real, y: real)
    requires Inside(t, x, y)
    ensures SubArea1(t, x, y) * t.v0.x + SubArea2(t, x, y) * t.v1.x + SubArea0(t, x, y) * t.v2.x
            == TriArea(t) * x
    ensures SubArea1(t, x, y) * t.v0.y + SubArea2(t, x, y) * t.v1.y + SubArea0(t, x, y) * t.v2.y
            == TriArea(t) * y
  {
    InsideSubAreas(t, x, y);
    Barycentric(t.v0, t.v1, t.v2, SamplePoint(x, y));
  }

  /** Inside the triangle the weights are its barycentric coordinates: they
      add up to 1 and recombine the vertices into the sample point. */
  lemma InsideWeightsAreBarycentric(t: TriangleInput, x: real, y: real)
    requires Accepted(t, x, y) && Inside(t, x, y)
    ensures var wt := Weights(t, x, y);
            wt.x + wt.y + wt.z == 1.0
            && wt.x * t.v0.x + wt.y * t.v1.x + wt.z * t.v2.x == x
            && wt.x * t.v0.y + wt.y * t.v1.y + wt.z * t.v2.y == y
  {
    InsideWeightsSumToOne(t, x, y);
    InsideWeightsRecombineX(t, x, y);
    InsideWeightsRecombineY(t, x, y);
  }

  lemma InsideWeightsSumToOne(t: TriangleInput, x: real, y: real)
    requires Accepted(t, x, y) && Inside(t, x, y)
    ensures var wt := Weights(t, x, y); wt.x + wt.y + wt.z == 1.0
  {
    var a, e0, e1, e2 := TriArea(t), SubArea1(t, x, y), SubArea2(t, x, y), SubArea0(t, x, y);
    assert a != 0.0 && e0 + e1 + e2 == a by {
      ContainmentTest(t, x, y);
    }
    NormaliseSumsToOne(e0, e1, e2, a);
  }

  lemma InsideWeightsRecombineX(t: TriangleInput, x: real, y: real)
    requires Accepted(t, x, y) && Inside(t, x, y)
    ensures var wt := Weights(t, x, y); wt.x * t.v0.x + wt.y * t.v1.x + wt.z * t.v2.x == x
  {
    var a, e0, e1, e2 := TriArea(t), SubArea1(t, x, y), SubArea2(t, x, y), SubArea0(t, x, y);
    assert a != 0.0 && e0 + e1 + e2 == a && e0 * t.v0.x + e1 * t.v1.x + e2 * t.v2.x == a * x by {
      ContainmentTest(t, x, y);
      InsideSubAreasRecombine(t, x, y);
    }
    NormaliseRecombines(e0, e1, e2, a, t.v0.x, t.v1.x, t.v2.x, x);
  }

  lemma InsideWeightsRecombineY(t: TriangleInput, x: real, y: real)
    requires Accepted(t, x, y) && Inside(t, x, y)
    ensures var wt := Weights(t, x, y); wt.x * t.v0.y + wt.y * t.v1.y + wt.z * t.v2.y == y
  {
    var a, e0, e1, e2 := TriArea(t), SubArea1(t, x, y), SubArea2(t, x, y), SubArea0(t, x, y);
    assert a != 0.0 && e0 + e1 + e2 == a && e0 * t.v0.y + e1 * t.v1.y + e2 * t.v2.y == a * y by {
      ContainmentTest(t, x, y);
      InsideSubAreasRecombine(t, x, y);
    }
    NormaliseRecombines(e0, e1, e2, a, t.v0.y, t.v1.y, t.v2.y, y);
  }

  /** Normalising e0, e1, e2, which add up to a, by a gives weights that add
      up to 1. */
  lemma NormaliseSumsToOne(e0: real, e1: real, e2: real, a: real)
    requires a != 0.0 && e0 + e1 + e2 == a
    ensures var wt := Normalise(e0, e1, e2, a); wt.x + wt.y + wt.z == 1.0
  {
    NormaliseIsQuotient(e0, e1, e2, a);
    assert e0 / a + e1 / a + e2 / a == (e0 + e1 + e2) / a;
  }

  /** Normalising e0, e1, e2, which add up to a and recombine p0, p1, p2
      into a * s, by a gives weights that recombine them into s. */
  lemma NormaliseRecombines(e0: real, e1: real, e2: real, a: real, p0: real, p1: real, p2: real, s: real)
    requires a != 0.0 && e0 + e1 + e2 == a && e0 * p0 + e1 * p1 + e2 * p2 == a * s
    ensures var wt := Normalise(e0, e1, e2, a); wt.x * p0 + wt.y * p1 + wt.z * p2 == s
  {
    NormaliseIsQuotient(e0, e1, e2, a);
    NormalisedCombination(e0, e1, e2, a, p0, p1, p2, s);
  }

  /** Dividing weights that add up to a and recombine p, q, r into a * s by
      a gives weights that add up to 1 and recombine them into s. */
  lemma NormalisedCombination(e0: real, e1: real, e2: real, a: real, p: real, q: real, r: real, s: real)
    requires a != 0.0 && e0 + e1 + e2 == a && e0 * p + e1 * q + e2 * r == a * s
    ensures e0 / a + e1 / a + e2 / a == 1.0
    ensures (e0 / a) * p + (e1 / a) * q + (e2 / a) * r == s
  {
    assert e0 / a + e1 / a + e2 / a == (e0 + e1 + e2) / a;
    assert (e0 / a) * p + (e1 / a) * q + (e2 / a) * r == (e0 * p + e1 * q + e2 * r) / a;
  }

  lemma Barycentric(a: Vec4, b: Vec4, c: Vec4, p: Vec4)
    ensures ScreenAreaOfTri(b, c, p) * a.x + ScreenAreaOfTri(c, a, p) * b.x + ScreenAreaOfTri(a, b, p) * c.x
            == ScreenAreaOfTri(a, b, c) * p.x
    ensures ScreenAreaOfTri(b, c, p) * a.y + ScreenAreaOfTri(c, a, p) * b.y + ScreenAreaOfTri(a, b, p) * c.y
            == ScreenAreaOfTri(a, b, c) * p.y
  {
  }

  // ---------------------------------------------------------------------------
  // Perspective-correct texture coordinates.

  lemma ScaleLe(c: real, p: real, q: real)
    requires c >= 0.0 && p <= q
    ensures c * p <= c * q
  {
    MulNonneg(c, q - p);
  }

  /** Blending (u/w, v/w, 1/w) with non-negative weights and dividing by the
      blended 1/w gives a u between the smallest and the largest vertex u,
      whether the three 1/w are all positive or all negative; the blended 1/w
      has their sign. Here pa, pb, pc are the vertices' u/w (or v/w) and
      za, zb, zc their 1/w. */
  lemma PerspectiveDivideInHull(pa: real, pb: real, pc: real, za: real, zb: real, zc: real,
                                wa: real, wb: real, wc: real)
    requires wa >= 0.0 && wb >= 0.0 && wc >= 0.0 && wa + wb + wc > 0.0
    requires SameSign(za, zb, zc)
    ensures var num := Combine(pa, pb, pc, wa, wb, wc);
            var den := Combine(za, zb, zc, wa, wb, wc);
            den != 0.0 && (za > 0.0 <==> den > 0.0)
            && Min3(pa / za, pb / zb, pc / zc) <= num / den <= Max3(pa / za, pb / zb, pc / zc)
  {
    if za > 0.0 {
      PerspectiveDivideInFront(pa, pb, pc, za, zb, zc, wa, wb, wc);
    } else {
      PerspectiveDivideBehind(pa, pb, pc, za, zb, zc, wa, wb, wc);
    }
  }

  lemma PerspectiveDivideInFront(pa: real, pb: real, pc: real, za: real, zb: real, zc: real,
                                 wa: real, wb: real, wc: real)
    requires wa >= 0.0 && wb >= 0.0 && wc >= 0.0 && wa + wb + wc > 0.0
    requires za > 0.0 && zb > 0.0 && zc > 0.0
    ensures var num := Combine(pa, pb, pc, wa, wb, wc);
            var den := Combine(za, zb, zc, wa, wb, wc);
            den > 0.0
            && Min3(pa / za, pb / zb, pc / zc) <= num / den <= Max3(pa / za, pb / zb, pc / zc)
  {
    var ka, kb, kc := za * wa, zb * wb, zc * wc;
    assert ka >= 0.0 && kb >= 0.0 && kc >= 0.0 && ka + kb + kc > 0.0 by {
      MulNonneg(za, wa);
      MulNonneg(zb, wb);
      MulNonneg(zc, wc);
      PositiveCombination(wa, wb, wc, za, zb, zc);
    }
    var ua, ub, uc := pa / za, pb / zb, pc / zc;
    RescaledSum(pa, pb, pc, za, zb, zc, wa, wb, wc);
    assert Combine(pa, pb, pc, wa, wb, wc) == ka * ua + kb * ub + kc * uc;
    assert Combine(za, zb, zc, wa, wb, wc) == ka + kb + kc;
    WeightedMeanInHull(ka, kb, kc, ua, ub, uc);
  }

  lemma PerspectiveDivideBehind(pa: real, pb: real, pc: real, za: real, zb: real, zc: real,
                                wa: real, wb: real, wc: real)
    requires wa >= 0.0 && wb >= 0.0 && wc >= 0.0 && wa + wb + wc > 0.0
    requires za < 0.0 && zb < 0.0 && zc < 0.0
    ensures var num := Combine(pa, pb, pc, wa, wb, wc);
            var den := Combine(za, zb, zc, wa, wb, wc);
            den < 0.0
            && Min3(pa / za, pb / zb, pc / zc) <= num / den <= Max3(pa / za, pb / zb, pc / zc)
  {
    var ka, kb, kc := za * wa, zb * wb, zc * wc;
    assert ka <= 0.0 && kb <= 0.0 && kc <= 0.0 && ka + kb + kc < 0.0 by {
      MulNonneg(-za, wa);
      MulNonneg(-zb, wb);
      MulNonneg(-zc, wc);
      NegativeCombination(wa, wb, wc, za, zb, zc);
    }
    var ua, ub, uc := pa / za, pb / zb, pc / zc;
    RescaledSum(pa, pb, pc, za, zb, zc, wa, wb, wc);
    assert Combine(pa, pb, pc, wa, wb, wc) == ka * ua + kb * ub + kc * uc;
    assert Combine(za, zb, zc, wa, wb, wc) == ka + kb + kc;
    NonPositiveMeanInHull(ka, kb, kc, ua, ub, uc, Combine(pa, pb, pc, wa, wb, wc), Combine(za, zb, zc, wa, wb, wc));
  }

  /** A weighted mean with non-positive weights, not all zero, is the mean with
      the weights negated, so it too lies between the smallest and the largest
      of the values. */
  lemma NonPositiveMeanInHull(ka: real, kb: real, kc: real, ua: real, ub: real, uc: real, num: real, den: real)
    requires ka <= 0.0 && kb <= 0.0 && kc <= 0.0 && ka + kb + kc < 0.0
    requires num == ka * ua + kb * ub + kc * uc && den == ka + kb + kc
    ensures den < 0.0 && Min3(ua, ub, uc) <= num / den <= Max3(ua, ub, uc)
  {
    var na, nb, nc := -ka, -kb, -kc;
    WeightedMeanInHull(na, nb, nc, ua, ub, uc);
    assert na * ua + nb * ub + nc * uc == -num;
    assert na + nb + nc == -den;
    NegatedQuotient(num, den);
  }

  lemma NegatedQuotient(p: real, d: real)
    requires d != 0.0
    ensures (-p) / (-d) == p / d
  {
  }

  /** A weighted mean with non-negative weights lies between the smallest and
      the largest of the values. */
  lemma WeightedMeanInHull(ka: real, kb: real, kc: real, ua: real, ub: real, uc: real)
    requires ka >= 0.0 && kb >= 0.0 && kc >= 0.0 && ka + kb + kc > 0.0
    ensures Min3(ua, ub, uc) <= (ka * ua + kb * ub + kc * uc) / (ka + kb + kc) <= Max3(ua, ub, uc)
  {
    HullBound(ka, kb, kc, ua, ub, uc);
    QuotientBounds(ka * ua + kb * ub + kc * uc, ka + kb + kc, Min3(ua, ub, uc), Max3(ua, ub, uc));
  }

  /** Each u/w times its weight, rewritten as u times the weight scaled by 1/w. */
  lemma RescaledSum(pa: real, pb: real, pc: real, za: real, zb: real, zc: real, wa: real, wb: real, wc: real)
    requires za != 0.0 && zb != 0.0 && zc != 0.0
    ensures pa * wa + pb * wb + pc * wc == (za * wa) * (pa / za) + (zb * wb) * (pb / zb) + (zc * wc) * (pc / zc)
  {
    Rescale(pa, za, wa);
    Rescale(pb, zb, wb);
    Rescale(pc, zc, wc);
  }

  lemma Rescale(p: real, z: real, w: real)
    requires z != 0.0
    ensures p * w == (z * w) * (p / z)
  {
  }

  /** A non-negative combination of three values lies between the smallest
      and the largest of them, scaled by the total weight. */
  lemma HullBound(ka: real, kb: real, kc: real, ua: real, ub: real, uc: real)
    requires ka >= 0.0 && kb >= 0.0 && kc >= 0.0
    ensures var s := ka * ua + kb * ub + kc * uc;
            Min3(ua, ub, uc) * (ka + kb + kc) <= s <= Max3(ua, ub, uc) * (ka + kb + kc)
  {
    var lo, hi := Min3(ua, ub, uc), Max3(ua, ub, uc);
    ScaleLe(ka, ua, hi); ScaleLe(kb, ub, hi); ScaleLe(kc, uc, hi);
    ScaleLe(ka, lo, ua); ScaleLe(kb, lo, ub); ScaleLe(kc, lo, uc);
  }

  lemma QuotientBounds(n: real, d: real, lo: real, hi: real)
    requires d > 0.0 && lo * d <= n <= hi * d
    ensures lo <= n / d <= hi
  {
    DivideMonotone(lo * d, n, d);
    DivideMonotone(n, hi * d, d);
  }

  /** At a vertex (all weight on it) the perspective divide gives back that
      vertex's own coordinate. */
  lemma PerspectiveDivideAtVertex(texA: Vec3, texB: Vec3, texC: Vec3)
    requires texA.z != 0.0
    ensures var sub := BlendTex(texA, texB, texC, Vec3(1.0, 0.0, 0.0));
            sub.x / sub.z == texA.x / texA.z && sub.y / sub.z == texA.y / texA.z
  {
  }

  /** Both blended coordinates, after the divide, lie within the span of the
      vertices' own coordinates. */
  lemma BlendTexInHull(texA: Vec3, texB: Vec3, texC: Vec3, wt: Vec3)
    requires wt.x >= 0.0 && wt.y >= 0.0 && wt.z >= 0.0 && wt.x + wt.y + wt.z > 0.0
    requires SameSign(texA.z, texB.z, texC.z)
    ensures var sub := BlendTex(texA, texB, texC, wt);
            sub.z != 0.0
            && Min3(texA.x / texA.z, texB.x / texB.z, texC.x / texC.z) <= sub.x / sub.z
            && sub.x / sub.z <= Max3(texA.x / texA.z, texB.x / texB.z, texC.x / texC.z)
            && Min3(texA.y / texA.z, texB.y / texB.z, texC.y / texC.z) <= sub.y / sub.z
            && sub.y / sub.z <= Max3(texA.y / texA.z, texB.y / texB.z, texC.y / texC.z)
  {
    PerspectiveDivideInHull(texA.x, texB.x, texC.x, texA.z, texB.z, texC.z, wt.x, wt.y, wt.z);
    PerspectiveDivideInHull(texA.y, texB.y, texC.y, texA.z, texB.z, texC.z, wt.x, wt.y, wt.z);
  }

  /** The texture coordinate sampled for an accepted pixel of a triangle on
      one side of the eye lies within the span of the three vertices' texture
      coordinates. */
  lemma TexturedSampleInHull(t: TriangleInput, x: real, y: real)
    requires Accepted(t, x, y) && OneSide(t)
    ensures var uv := PerspectiveTexCoord(t, x, y);
            Min3(t.texA.x / t.texA.z, t.texB.x / t.texB.z, t.texC.x / t.texC.z) <= uv.x
            && uv.x <= Max3(t.texA.x / t.texA.z, t.texB.x / t.texB.z, t.texC.x / t.texC.z)
            && Min3(t.texA.y / t.texA.z, t.texB.y / t.texB.z, t.texC.y / t.texC.z) <= uv.y
            && uv.y <= Max3(t.texA.y / t.texA.z, t.texB.y / t.texB.z, t.texC.y / t.texC.z)
  {
    var wt := Weights(t, x, y);
    WeightsOfAcceptedSample(t, x, y);
    AcceptedNeedsArea(t, x, y);
    assert 1.0 / TriArea(t) > 0.0;
    BlendTexInHull(t.texA, t.texB, t.texC, wt);
  }

  /** Inside an untextured triangle, every channel of a sample's colour lies
      between the vertex colours' channels: the weights are convex there. */
  lemma InsideColourBetween(t: TriangleInput, x: real, y: real)
    requires Accepted(t, x, y) && Inside(t, x, y) && t.texture.None?
    ensures var c := ShadeColour(t, x, y);
            Least(t.colA.r, t.colB.r, t.colC.r) <= c.r <= Greatest(t.colA.r, t.colB.r, t.colC.r)
            && Least(t.colA.g, t.colB.g, t.colC.g) <= c.g <= Greatest(t.colA.g, t.colB.g, t.colC.g)
            && Least(t.colA.b, t.colB.b, t.colC.b) <= c.b <= Greatest(t.colA.b, t.colB.b, t.colC.b)
            && Least(t.colA.a, t.colB.a, t.colC.a) <= c.a <= Greatest(t.colA.a, t.colB.a, t.colC.a)
  {
    var wt := Weights(t, x, y);
    WeightsOfAcceptedSample(t, x, y);
    InsideWeightsSumToOne(t, x, y);
    Blend3Between(t.colA, wt.x, t.colB, wt.y, t.colC, wt.z);
  }
}
