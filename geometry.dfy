/** Vectors, the homogeneous divide and the viewport ("port") map.
    Matrix4 and the Vector classes are not part of this model: a matrix is
    represented by the map it applies to a homogeneous vertex. */
module Geometry {
  import opened Common

  datatype Vec2 = Vec2(x: real, y: real)
  datatype Vec3 = Vec3(x: real, y: real, z: real)
  datatype Vec4 = Vec4(x: real, y: real, z: real, w: real)

  /** A 4x4 matrix, as the map `v => M * v`. A product `A * B` applied to v
      is `A(B(v))`, matrix multiplication being associative. */
  type Transform = Vec4 -> Vec4


  /** Vector4::SelfDivisionByW: clip space to normalised device coordinates. */
  function DivideByW(v: Vec4): (r: Vec4)
    requires v.w != 0.0
    ensures r.w == 1.0
  {
    Vec4(v.x / v.w, v.y / v.w, v.z / v.w, 1.0)
  }

  /** Scaling the divided vector back by w gives the original x, y and z:
      the divide picks the representative with w = 1 of the same point. */
  lemma DivideByWUndone(v: Vec4)
    requires v.w != 0.0
    ensures var r := DivideByW(v);
            r.x * v.w == v.x && r.y * v.w == v.y && r.z * v.w == v.z
  {
  }

  /** `Vector3(a, b, c) / d`, component by component. */
  function DivVec3(v: Vec3, d: real): Vec3
    requires d != 0.0
  {
    Vec3(v.x / d, v.y / d, v.z / d)
  }

  /** Dividing by a positive d keeps the sign of every component. */
  lemma DivVec3KeepsSign(v: Vec3, d: real)
    requires d > 0.0
    ensures var r := DivVec3(v, d);
            (v.x > 0.0 <==> r.x > 0.0) && (v.y > 0.0 <==> r.y > 0.0) && (v.z > 0.0 <==> r.z > 0.0)
  {
  }

  /** Dividing a positive z by d gives a z with the sign of d. */
  lemma DivVec3Sign(v: Vec3, d: real)
    requires d != 0.0 && v.z > 0.0
    ensures DivVec3(v, d).z > 0.0 <==> d > 0.0
    ensures DivVec3(v, d).z < 0.0 <==> d < 0.0
  {
    if d > 0.0 {
      DivVec3KeepsSign(v, d);
    } else {
      DivVec3KeepsSign(Vec3(-v.x, -v.y, -v.z), -d);
      assert DivVec3(v, d).z == (-v.z) / (-d);
    }
  }

  /** `Matrix4::Translation(half) * Matrix4::Scale(half)`: scale each of x, y, z
      by its half extent, then translate by the same half extent times w. */
  datatype PortMap = PortMap(half: Vec3)
  {
    function Apply(v: Vec4): (r: Vec4)
      ensures r.w == v.w
    {
      Vec4(half.x * v.x + half.x * v.w, half.y * v.y + half.y * v.w,
           half.z * v.z + half.z * v.w, v.w)
    }
  }

  /** `(pow(2.0f, 16) - 1) * 0.5f`. */
  const DepthHalfRange: real := (65536.0 - 1.0) * 0.5

  /** `(n - 1) * 0.5f` where `n` is an `unsigned int`. */
  function HalfExtent(n: nat): (e: real)
    requires n < UINT32_LIMIT
    ensures n >= 1 ==> e == (n - 1) as real * 0.5
    ensures n == 0 ==> e == (UINT32_LIMIT - 1) as real * 0.5
  {
    UintSub(n, 1) as real * 0.5
  }

  /** The port matrix that the constructor and Resize build for a screen of
      `w` by `h` pixels. */
  function PortFor(w: nat, h: nat): PortMap
    requires w < UINT32_LIMIT && h < UINT32_LIMIT
  {
    PortMap(Vec3(HalfExtent(w), HalfExtent(h), DepthHalfRange))
  }

  /** The port map sends the NDC cube's corner (-1,-1,-1) to pixel (0,0) at
      depth 0, and its corner (1,1,1) to pixel (w-1, h-1) at depth 65535. */
  lemma PortCorners(w: nat, h: nat)
    requires 1 <= w < UINT32_LIMIT && 1 <= h < UINT32_LIMIT
    ensures PortFor(w, h).Apply(Vec4(-1.0, -1.0, -1.0, 1.0)) == Vec4(0.0, 0.0, 0.0, 1.0)
    ensures PortFor(w, h).Apply(Vec4(1.0, 1.0, 1.0, 1.0))
            == Vec4((w - 1) as real, (h - 1) as real, 65535.0, 1.0)
  {
  }

  /** An NDC coordinate c in [-1, 1] maps to a screen coordinate between 0
      and n - 1. */
  lemma PortKeepsNdcOnScreen(n: nat, c: real)
    requires 1 <= n < UINT32_LIMIT && -1.0 <= c <= 1.0
    ensures var e := HalfExtent(n);
            0.0 <= e * c + e * 1.0 <= (n - 1) as real
  {
    var e := HalfExtent(n);
    assert e >= 0.0 && e * 2.0 == (n - 1) as real;
    MulNonneg(e, c + 1.0);
    MulNonneg(e, 1.0 - c);
    assert e * (c + 1.0) + e * (1.0 - c) == e * 2.0;
  }

  /** A point of the NDC square with w = 1 maps to a pixel of the screen. */
  lemma PortKeepsPointOnScreen(w: nat, h: nat, v: Vec4)
    requires 1 <= w < UINT32_LIMIT && 1 <= h < UINT32_LIMIT
    requires v.w == 1.0 && -1.0 <= v.x <= 1.0 && -1.0 <= v.y <= 1.0
    ensures var r := PortFor(w, h).Apply(v);
            0 <= Trunc(r.x) < w && 0 <= Trunc(r.y) < h
  {
    var r := PortFor(w, h).Apply(v);
    PortKeepsNdcOnScreen(w, v.x);
    PortKeepsNdcOnScreen(h, v.y);
    assert 0.0 <= r.x <= (w - 1) as real && 0.0 <= r.y <= (h - 1) as real;
  }
}
