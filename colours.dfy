/** Colours: four 8-bit channels, also addressable as one packed 32-bit value.
    Colour.h is not part of this model; the packing below assumes the usual
    little-endian union layout (red in the lowest byte, alpha in the highest). */
module Colours {
  import opened Common

  datatype Colour = Colour(r: byte, g: byte, b: byte, a: byte)

  /** A frame-buffer cell holds a packed colour. */
  type Pixel = uint32

  const White: Colour := Colour(255, 255, 255, 255)

  function Pack(c: Colour): (p: Pixel)
    ensures p as int % 256 == c.r as int
    ensures p as int / 0x100 % 256 == c.g as int
    ensures p as int / 0x1_0000 % 256 == c.b as int
    ensures p as int / 0x100_0000 == c.a as int
  {
    var hi := c.b as int + 0x100 * c.a as int;
    var mid := c.g as int + 0x100 * hi;
    var v := c.r as int + 0x100 * c.g as int + 0x1_0000 * c.b as int + 0x100_0000 * c.a as int;
    assert v == c.r as int + 0x100 * mid && v / 0x100 == mid;
    assert mid / 0x100 == hi && v / 0x1_0000 == hi && hi / 0x100 == c.a as int;
    v as Pixel
  }

  function Unpack(p: Pixel): (c: Colour)
    ensures c.r as int == p as int % 256 && c.g as int == p as int / 0x100 % 256
    ensures c.b as int == p as int / 0x1_0000 % 256 && c.a as int == p as int / 0x100_0000
  {
    var v := p as int;
    Colour((v % 256) as byte, (v / 0x100 % 256) as byte, (v / 0x1_0000 % 256) as byte,
           (v / 0x100_0000) as byte)
  }

  lemma UnpackPack(c: Colour)
    ensures Unpack(Pack(c)) == c
  {
    var v := Pack(c) as int;
    var hi := c.b as int + 0x100 * c.a as int;
    var mid := c.g as int + 0x100 * hi;
    assert v == c.r as int + 0x100 * mid;
    assert v / 0x100 == mid;
    assert mid / 0x100 == hi;
    assert v / 0x1_0000 == hi;
    assert hi / 0x100 == c.a as int;
  }

  lemma PackUnpack(p: Pixel)
    ensures Pack(Unpack(p)) == p
  {
    var v := p as int;
    var q1 := v / 0x100;
    var q2 := q1 / 0x100;
    var q3 := q2 / 0x100;
    assert v == v % 256 + 0x100 * q1;
    assert q1 == q1 % 256 + 0x100 * q2;
    assert q2 == q2 % 256 + 0x100 * q3;
    assert q2 == v / 0x1_0000;
    assert q3 == v / 0x100_0000;
  }

  /** The packed clear value 0xFF000000 of ClearBuffers. */
  const ClearValue: Pixel := 0xFF00_0000

  /** Under the assumed layout the clear value is opaque black. */
  lemma ClearValueIsOpaqueBlack()
    ensures Unpack(ClearValue) == Colour(0, 0, 0, 255)
    ensures Pack(Colour(0, 0, 0, 255)) == ClearValue
  {
  }

  /** A blended channel value narrowed to a byte: the model clamps it to
      0..255 and truncates it. */
  function ToByte(v: real): (b: byte)
    ensures 0.0 <= v < 256.0 ==> b as int == v.Floor
  {
    if v < 0.0 then 0 else if v >= 255.0 then 255 else v.Floor as byte
  }

  /** One channel of `c0 * w0 + c1 * w1`. */
  function Mix2(x0: byte, w0: real, x1: byte, w1: real): byte
  {
    ToByte(x0 as real * w0 + x1 as real * w1)
  }

  /** One channel of `c0 * w0 + c1 * w1 + c2 * w2`. */
  function Mix3(x0: byte, w0: real, x1: byte, w1: real, x2: byte, w2: real): byte
  {
    ToByte(x0 as real * w0 + x1 as real * w1 + x2 as real * w2)
  }

  /** `c0 * w0 + c1 * w1`, channel by channel. */
  function Blend2(c0: Colour, w0: real, c1: Colour, w1: real): Colour
  {
    Colour(Mix2(c0.r, w0, c1.r, w1), Mix2(c0.g, w0, c1.g, w1),
           Mix2(c0.b, w0, c1.b, w1), Mix2(c0.a, w0, c1.a, w1))
  }

  /** `c0 * w0 + c1 * w1 + c2 * w2`, channel by channel. */
  function Blend3(c0: Colour, w0: real, c1: Colour, w1: real, c2: Colour, w2: real): Colour
  {
    Colour(Mix3(c0.r, w0, c1.r, w1, c2.r, w2), Mix3(c0.g, w0, c1.g, w1, c2.g, w2),
           Mix3(c0.b, w0, c1.b, w1, c2.b, w2), Mix3(c0.a, w0, c1.a, w1, c2.a, w2))
  }

  /** `c1 * t + c0 * (1 - t)`: the colour a fraction t of the way from c0 to
      c1. */
  function Lerp(c0: Colour, c1: Colour, t: real): Colour
  {
    Blend2(c1, t, c0, 1.0 - t)
  }

  /** Equal fractions give equal blends. */
  lemma LerpCongruent(c0: Colour, c1: Colour, t: real, u: real)
    requires t == u
    ensures Lerp(c0, c1, t) == Lerp(c0, c1, u)
  {
  }

  /** A convex blend of two channel values lies between them, so the clamp in
      ToByte never fires for a line's interpolated colour. */
  lemma BlendChannelBetween(x: byte, y: byte, t: real)
    requires 0.0 <= t <= 1.0
    ensures var v := y as real * t + x as real * (1.0 - t);
            Min(x as real, y as real) <= v <= Max(x as real, y as real) && 0.0 <= v < 256.0
  {
    var lo, hi := Min(x as real, y as real), Max(x as real, y as real);
    MulNonneg(y as real - lo, t); MulNonneg(x as real - lo, 1.0 - t);
    MulNonneg(hi - y as real, t); MulNonneg(hi - x as real, 1.0 - t);
    assert lo * t + lo * (1.0 - t) == lo;
    assert hi * t + hi * (1.0 - t) == hi;
  }

  /** The stored channel of a convex blend lies between the two endpoint
      channels. */
  lemma StoredChannelBetween(x: byte, y: byte, t: real)
    requires 0.0 <= t <= 1.0
    ensures var b := Mix2(y, t, x, 1.0 - t);
            (x <= b <= y) || (y <= b <= x)
  {
    BlendChannelBetween(x, y, t);
  }

  /** Every channel of a line's interpolated colour lies between the
      corresponding channels of the endpoint colours. */
  lemma Blend2Between(c0: Colour, c1: Colour, t: real)
    requires 0.0 <= t <= 1.0
    ensures var c := Lerp(c0, c1, t);
            ((c0.r <= c.r <= c1.r) || (c1.r <= c.r <= c0.r))
            && ((c0.g <= c.g <= c1.g) || (c1.g <= c.g <= c0.g))
            && ((c0.b <= c.b <= c1.b) || (c1.b <= c.b <= c0.b))
            && ((c0.a <= c.a <= c1.a) || (c1.a <= c.a <= c0.a))
  {
    StoredChannelBetween(c0.r, c1.r, t);
    StoredChannelBetween(c0.g, c1.g, t);
    StoredChannelBetween(c0.b, c1.b, t);
    StoredChannelBetween(c0.a, c1.a, t);
  }

  /** Blending with all weight on one colour gives that colour back. */
  lemma Blend2Endpoint(c0: Colour, c1: Colour)
    ensures Lerp(c0, c1, 0.0) == c0
  {
  }

  /** The smallest of three channel values. */
  function Least(a: byte, b: byte, c: byte): (m: byte)
    ensures m <= a && m <= b && m <= c && (m == a || m == b || m == c)
  {
    if a <= b && a <= c then a else if b <= c then b else c
  }

  /** The largest of three channel values. */
  function Greatest(a: byte, b: byte, c: byte): (m: byte)
    ensures a <= m && b <= m && c <= m && (m == a || m == b || m == c)
  {
    if a >= b && a >= c then a else if b >= c then b else c
  }

  /** A convex combination of three numbers lies between their bounds. */
  lemma ConvexMix3(x0: real, w0: real, x1: real, w1: real, x2: real, w2: real, lo: real, hi: real)
    requires w0 >= 0.0 && w1 >= 0.0 && w2 >= 0.0 && w0 + w1 + w2 == 1.0
    requires lo <= x0 <= hi && lo <= x1 <= hi && lo <= x2 <= hi
    ensures lo <= x0 * w0 + x1 * w1 + x2 * w2 <= hi
  {
    MulNonneg(x0 - lo, w0); MulNonneg(x1 - lo, w1); MulNonneg(x2 - lo, w2);
    MulNonneg(hi - x0, w0); MulNonneg(hi - x1, w1); MulNonneg(hi - x2, w2);
    assert lo * w0 + lo * w1 + lo * w2 == lo * (w0 + w1 + w2);
    assert hi * w0 + hi * w1 + hi * w2 == hi * (w0 + w1 + w2);
  }

  /** Storing a value that lies between two channel values gives a channel
      between them. */
  lemma ToByteBetween(v: real, lo: byte, hi: byte)
    requires lo as real <= v <= hi as real
    ensures lo <= ToByte(v) <= hi
  {
    if v < 255.0 {
      assert lo as int <= v.Floor <= hi as int;
    }
  }

  /** One stored channel of a convex three-colour blend lies within any
      bounds of the three channels. */
  lemma Mix3Between(x0: byte, w0: real, x1: byte, w1: real, x2: byte, w2: real, lo: byte, hi: byte)
    requires w0 >= 0.0 && w1 >= 0.0 && w2 >= 0.0 && w0 + w1 + w2 == 1.0
    requires lo <= x0 <= hi && lo <= x1 <= hi && lo <= x2 <= hi
    ensures lo <= Mix3(x0, w0, x1, w1, x2, w2) <= hi
  {
    var v := x0 as real * w0 + x1 as real * w1 + x2 as real * w2;
    ConvexMix3(x0 as real, w0, x1 as real, w1, x2 as real, w2, lo as real, hi as real);
    ToByteBetween(v, lo, hi);
  }

  /** Every channel of a convex blend of three colours, the untextured colour
      of a triangle's sample, lies between the three colours' channels. */
  lemma Blend3Between(c0: Colour, w0: real, c1: Colour, w1: real, c2: Colour, w2: real)
    requires w0 >= 0.0 && w1 >= 0.0 && w2 >= 0.0 && w0 + w1 + w2 == 1.0
    ensures var c := Blend3(c0, w0, c1, w1, c2, w2);
            Least(c0.r, c1.r, c2.r) <= c.r <= Greatest(c0.r, c1.r, c2.r)
            && Least(c0.g, c1.g, c2.g) <= c.g <= Greatest(c0.g, c1.g, c2.g)
            && Least(c0.b, c1.b, c2.b) <= c.b <= Greatest(c0.b, c1.b, c2.b)
            && Least(c0.a, c1.a, c2.a) <= c.a <= Greatest(c0.a, c1.a, c2.a)
  {
    Mix3Between(c0.r, w0, c1.r, w1, c2.r, w2, Least(c0.r, c1.r, c2.r), Greatest(c0.r, c1.r, c2.r));
    Mix3Between(c0.g, w0, c1.g, w1, c2.g, w2, Least(c0.g, c1.g, c2.g), Greatest(c0.g, c1.g, c2.g));
    Mix3Between(c0.b, w0, c1.b, w1, c2.b, w2, Least(c0.b, c1.b, c2.b), Greatest(c0.b, c1.b, c2.b));
    Mix3Between(c0.a, w0, c1.a, w1, c2.a, w2, Least(c0.a, c1.a, c2.a), Greatest(c0.a, c1.a, c2.a));
  }
}
