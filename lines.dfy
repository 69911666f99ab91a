/** The line rasteriser's walk (SoftwareRasteriser::RasteriseLine), as a
    function of the two screen-space endpoints. The walk picks a "scan" axis,
    stepped on every iteration, and a "target" axis, stepped when the error
    accumulator passes one half. The pointer aliasing `target`/`scan` of the
    source becomes an explicit Axis tag. */
module Lines {
  import opened Common
  import opened Colours
  import opened Geometry
  import opened Fragments

  datatype Axis = AxisX | AxisY

  /** Everything RasteriseLine has computed when its loop starts. */
  datatype LineSetup = LineSetup(
    scanAxis: Axis, scanStep: int, targetStep: int, absSlope: real, range: nat,
    startX: int, startY: int, colA: Colour, colB: Colour)

  /** The DDA walk's variables: the pixel (x, y) and the error accumulator. */
  datatype WalkState = WalkState(x: int, y: int, error: real)

  /** `(d < 0.0f) ? -1 : 1`. */
  function StepSign(d: real): (s: int)
    ensures s == -1 || s == 1
    ensures s == -1 <==> d < 0.0
  {
    if d < 0.0 then -1 else 1
  }

  /** The set-up part of RasteriseLine for port-mapped endpoints v0 and v1:
      y is the scan axis exactly when |dy| > |dx|; the step along an axis is
      -1 only for a negative delta; the iteration count is the truncated
      length along the scan axis; and the absolute slope is at most 1. */
  function SetupLine(v0: Vec4, v1: Vec4, colA: Colour, colB: Colour): (s: LineSetup)
    ensures s.scanAxis == AxisY <==> Abs(v1.y - v0.y) > Abs(v1.x - v0.x)
    ensures s.scanAxis == AxisY ==>
              (s.range == Trunc(Abs(v1.y - v0.y))
               && s.scanStep == StepSign(v1.y - v0.y) && s.targetStep == StepSign(v1.x - v0.x))
    ensures s.scanAxis == AxisX ==>
              (s.range == Trunc(Abs(v1.x - v0.x))
               && s.scanStep == StepSign(v1.x - v0.x) && s.targetStep == StepSign(v1.y - v0.y))
    ensures 0.0 <= s.absSlope <= 1.0
    ensures s.startX == Trunc(v0.x) && s.startY == Trunc(v0.y)
    ensures s.colA == colA && s.colB == colB
  {
    var dx := v1.x - v0.x;
    var dy := v1.y - v0.y;
    if Abs(dy) > Abs(dx) then
      RatioAtMostOne(dx, dy);
      LineSetup(AxisY, StepSign(dy), StepSign(dx), Abs(dx / dy), Trunc(Abs(dy)),
                Trunc(v0.x), Trunc(v0.y), colA, colB)
    else if dx == 0.0 then
      // Then dy == 0 too: the C++ slope is 0/0, but the loop runs zero times;
      // the model takes slope 0.
      LineSetup(AxisX, StepSign(dx), StepSign(dy), 0.0, Trunc(Abs(dx)),
                Trunc(v0.x), Trunc(v0.y), colA, colB)
    else
      RatioAtMostOne(dy, dx);
      LineSetup(AxisX, StepSign(dx), StepSign(dy), Abs(dy / dx), Trunc(Abs(dx)),
                Trunc(v0.x), Trunc(v0.y), colA, colB)
  }

  function Scan(s: LineSetup, st: WalkState): int
  {
    if s.scanAxis == AxisY then st.y else st.x
  }

  function Target(s: LineSetup, st: WalkState): int
  {
    if s.scanAxis == AxisY then st.x else st.y
  }

  function Start(s: LineSetup): WalkState
  {
    WalkState(s.startX, s.startY, 0.0)
  }

  /** One iteration after the pixel write: add the slope to the error; past
      one half, take one off and step the target axis; always step the scan
      axis. */
  function Step(s: LineSetup, st: WalkState): (r: WalkState)
    ensures Scan(s, r) == Scan(s, st) + s.scanStep
    ensures Target(s, r) == Target(s, st) || Target(s, r) == Target(s, st) + s.targetStep
  {
    var e := st.error + s.absSlope;
    var stepTarget := e > 0.5;
    var e' := if stepTarget then e - 1.0 else e;
    var dt := if stepTarget then s.targetStep else 0;
    if s.scanAxis == AxisY then WalkState(st.x + dt, st.y + s.scanStep, e')
    else WalkState(st.x + s.scanStep, st.y + dt, e')
  }

  /** The walk's state at the start of iteration k. */
  function StateAt(s: LineSetup, k: nat): WalkState
    decreases k
  {
    if k == 0 then Start(s) else Step(s, StateAt(s, k - 1))
  }

  /** `t = k * reciprocalRange` with `reciprocalRange = 1.0f / range`: how far
      along the line write k is, which is k / range in exact arithmetic
      (lemma LineColourIsInterpolated). */
  function LineFraction(s: LineSetup, k: nat): real
  {
    k as real * Recip(s.range as real)
  }

  /** `colB * t + colA * (1 - t)` at write k. */
  function LineColourAt(s: LineSetup, k: nat): Colour
    requires k < s.range
  {
    Lerp(s.colA, s.colB, LineFraction(s, k))
  }

  /** The pixel writes of RasteriseLine, in order: one per iteration. */
  function LineFragments(s: LineSetup): (r: seq<Fragment>)
    ensures |r| == s.range
  {
    seq(s.range, k requires 0 <= k < s.range =>
      Fragment(StateAt(s, k).x, StateAt(s, k).y, LineColourAt(s, k)))
  }

  /** After k iterations the scan coordinate has moved exactly k steps. */
  lemma {:induction false} ScanAdvances(s: LineSetup, k: nat)
    ensures Scan(s, StateAt(s, k)) == Scan(s, Start(s)) + k * s.scanStep
  {
    if k > 0 {
      ScanAdvances(s, k - 1);
      MulPred(k, s.scanStep);
    }
  }

  /** With a slope of at most 1 the error accumulator stays in (-1/2, 1/2]. */
  lemma {:induction false} ErrorBounded(s: LineSetup, k: nat)
    requires 0.0 <= s.absSlope <= 1.0
    ensures -0.5 < StateAt(s, k).error <= 0.5
  {
    if k > 0 {
      ErrorBounded(s, k - 1);
    }
  }

  /** The number of target steps taken so far, counted in the step's
      direction. */
  function TargetMoves(s: LineSetup, k: nat): int
  {
    var d := Target(s, StateAt(s, k)) - Target(s, Start(s));
    if s.targetStep < 0 then -d else d
  }

  /** The distance the minor axis ideally covers in k iterations. */
  function IdealMoves(s: LineSetup, k: nat): real
  {
    if k == 0 then 0.0 else IdealMoves(s, k - 1) + s.absSlope
  }

  lemma {:induction false} IdealMovesIsLinear(s: LineSetup, k: nat)
    ensures IdealMoves(s, k) == k as real * s.absSlope
  {
    if k > 0 {
      IdealMovesIsLinear(s, k - 1);
      Distribute(k, s.absSlope);
    }
  }

  /** The target steps taken equal the ideal distance minus the error. */
  lemma {:induction false} TargetMovesTrackSlope(s: LineSetup, k: nat)
    requires s.targetStep == 1 || s.targetStep == -1
    ensures TargetMoves(s, k) as real == IdealMoves(s, k) - StateAt(s, k).error
  {
    if k > 0 {
      TargetMovesTrackSlope(s, k - 1);
      var prev := StateAt(s, k - 1);
      var cur := StateAt(s, k);
      var e := prev.error + s.absSlope;
      assert cur == Step(s, prev);
      if e > 0.5 {
        assert Target(s, cur) == Target(s, prev) + s.targetStep;
        assert TargetMoves(s, k) == TargetMoves(s, k - 1) + 1;
      } else {
        assert Target(s, cur) == Target(s, prev);
      }
    }
  }

  /** Bresenham's accuracy guarantee: after k iterations the minor axis has
      moved the ideal distance k * |slope|, rounded to within one half. */
  lemma WalkStaysNearIdeal(s: LineSetup, k: nat)
    requires 0.0 <= s.absSlope <= 1.0 && (s.targetStep == 1 || s.targetStep == -1)
    ensures k as real * s.absSlope - 0.5 <= TargetMoves(s, k) as real < k as real * s.absSlope + 0.5
  {
    TargetMovesTrackSlope(s, k);
    IdealMovesIsLinear(s, k);
    ErrorBounded(s, k);
  }

  /** The same guarantee for the walk of any pair of endpoints. */
  lemma StaysNearIdealLine(v0: Vec4, v1: Vec4, colA: Colour, colB: Colour, k: nat)
    ensures var s := SetupLine(v0, v1, colA, colB);
            k as real * s.absSlope - 0.5 <= TargetMoves(s, k) as real < k as real * s.absSlope + 0.5
  {
    WalkStaysNearIdeal(SetupLine(v0, v1, colA, colB), k);
  }

  /** Along the walk, the scan coordinate moves by exactly its step and the
      target coordinate by 0 or its step. */
  lemma WalkMoves(v0: Vec4, v1: Vec4, colA: Colour, colB: Colour, k: nat)
    ensures var s := SetupLine(v0, v1, colA, colB);
            var d := Target(s, StateAt(s, k + 1)) - Target(s, StateAt(s, k));
            Scan(s, StateAt(s, k + 1)) - Scan(s, StateAt(s, k)) == s.scanStep
            && (d == 0 || d == s.targetStep) && (s.scanStep == 1 || s.scanStep == -1)
  {
  }

  /** No pixel is written twice by one line. */
  lemma NoPixelTwice(v0: Vec4, v1: Vec4, colA: Colour, colB: Colour, i: nat, j: nat)
    requires var s := SetupLine(v0, v1, colA, colB); i < j < s.range
    ensures var r := LineFragments(SetupLine(v0, v1, colA, colB));
            (r[i].x, r[i].y) != (r[j].x, r[j].y)
  {
    var s := SetupLine(v0, v1, colA, colB);
    ScanAdvances(s, i);
    ScanAdvances(s, j);
    assert s.scanStep == 1 || s.scanStep == -1;
    if s.scanStep == 1 {
      assert Scan(s, StateAt(s, j)) - Scan(s, StateAt(s, i)) == j - i;
    } else {
      assert Scan(s, StateAt(s, j)) - Scan(s, StateAt(s, i)) == i - j;
    }
  }

  /** The first write is at the truncated first endpoint, in colour colA. */
  lemma LineStartsAtFirstEndpoint(v0: Vec4, v1: Vec4, colA: Colour, colB: Colour)
    requires SetupLine(v0, v1, colA, colB).range >= 1
    ensures LineFragments(SetupLine(v0, v1, colA, colB))[0] == Fragment(Trunc(v0.x), Trunc(v0.y), colA)
  {
    Blend2Endpoint(colA, colB);
  }

  /** Write k blends the endpoint colours at t = k / range, which lies in
      [0, 1). */
  lemma LineColourIsInterpolated(s: LineSetup, k: nat)
    requires k < s.range
    ensures 0.0 <= k as real / s.range as real < 1.0
    ensures LineColourAt(s, k) == Lerp(s.colA, s.colB, k as real / s.range as real)
  {
    RecipIsQuotient(k as real, s.range as real);
    LerpCongruent(s.colA, s.colB, LineFraction(s, k), k as real / s.range as real);
    FractionOfRange(k, s.range);
  }

  /** The colour of write k, computed with the reciprocal of the range taken
      once before the loop. */
  lemma LineColourByReciprocal(s: LineSetup, k: nat, reciprocalRange: real)
    requires k < s.range && reciprocalRange == Recip(s.range as real)
    ensures Lerp(s.colA, s.colB, k as real * reciprocalRange) == LineColourAt(s, k)
  {
    LerpCongruent(s.colA, s.colB, k as real * reciprocalRange, LineFraction(s, k));
  }

  /** Every channel of write k lies between the corresponding channels of the
      endpoint colours. */
  lemma LineColourBetween(s: LineSetup, k: nat)
    requires k < s.range
    ensures var c := LineColourAt(s, k);
            ((s.colA.r <= c.r <= s.colB.r) || (s.colB.r <= c.r <= s.colA.r))
            && ((s.colA.g <= c.g <= s.colB.g) || (s.colB.g <= c.g <= s.colA.g))
            && ((s.colA.b <= c.b <= s.colB.b) || (s.colB.b <= c.b <= s.colA.b))
            && ((s.colA.a <= c.a <= s.colB.a) || (s.colB.a <= c.a <= s.colA.a))
  {
    LineColourIsInterpolated(s, k);
    Blend2Between(s.colA, s.colB, k as real / s.range as real);
  }

  /** Coincident endpoints (range 0) write nothing. */
  lemma CoincidentEndpointsDrawNothing(v: Vec4, colA: Colour, colB: Colour)
    ensures LineFragments(SetupLine(v, v, colA, colB)) == []
  {
  }

  /** Drawing a line in either direction writes the same number of pixels. */
  lemma LineCountSymmetric(v0: Vec4, v1: Vec4, colA: Colour, colB: Colour)
    ensures |LineFragments(SetupLine(v0, v1, colA, colB))| == |LineFragments(SetupLine(v1, v0, colB, colA))|
  {
    assert Abs(v0.x - v1.x) == Abs(v1.x - v0.x);
    assert Abs(v0.y - v1.y) == Abs(v1.y - v0.y);
  }

  /** A horizontal line four pixels long writes (0,0), (1,0), (2,0), (3,0), in
      colours running from colA a quarter of the way further towards colB at
      each step. */
  lemma HorizontalLineExample(colA: Colour, colB: Colour)
    ensures var r := LineFragments(SetupLine(Vec4(0.0, 0.0, 0.0, 1.0), Vec4(4.0, 0.0, 0.0, 1.0), colA, colB));
            |r| == 4
            && (r[0].x, r[0].y) == (0, 0) && (r[1].x, r[1].y) == (1, 0)
            && (r[2].x, r[2].y) == (2, 0) && (r[3].x, r[3].y) == (3, 0)
            && r[0].colour == Lerp(colA, colB, 0.0) && r[1].colour == Lerp(colA, colB, 0.25)
            && r[2].colour == Lerp(colA, colB, 0.5) && r[3].colour == Lerp(colA, colB, 0.75)
  {
    var s := SetupLine(Vec4(0.0, 0.0, 0.0, 1.0), Vec4(4.0, 0.0, 0.0, 1.0), colA, colB);
    assert s.absSlope == 0.0 && s.range == 4 && s.scanAxis == AxisX;
    assert StateAt(s, 1) == WalkState(1, 0, 0.0);
    assert StateAt(s, 2) == WalkState(2, 0, 0.0);
    assert StateAt(s, 3) == WalkState(3, 0, 0.0);
    LineColourIsInterpolated(s, 0);
    LineColourIsInterpolated(s, 1);
    LineColourIsInterpolated(s, 2);
    LineColourIsInterpolated(s, 3);
  }
}
