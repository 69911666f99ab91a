/** Numeric helpers shared by the whole pipeline: the C++ casts and the
    min/max/abs helpers of the rasteriser, stated over `real` and `int`. */
module Common {

  datatype Option<T> = None | Some(value: T)

  const UINT32_LIMIT: int := 0x1_0000_0000
  const UINT16_LIMIT: int := 0x1_0000

  /** An `unsigned int` value. */
  newtype uint32 = x: int | 0 <= x < 0x1_0000_0000
  /** An `unsigned short` value. */
  newtype uint16 = x: int | 0 <= x < 0x1_0000
  /** An `unsigned char` value. */
  newtype byte = x: int | 0 <= x < 256

  function Abs(r: real): (a: real)
    ensures a >= 0.0 && (a == r || a == -r)
  {
    if r < 0.0 then -r else r
  }

  function Min(a: real, b: real): (m: real)
    ensures m <= a && m <= b && (m == a || m == b)
  {
    if a < b then a else b
  }

  function Max(a: real, b: real): (m: real)
    ensures a <= m && b <= m && (m == a || m == b)
  {
    if a < b then b else a
  }

  /** The C++ conversion `(int)r`: truncation toward zero. */
  function Trunc(r: real): (n: int)
    ensures r >= 0.0 ==> 0 <= n && n as real <= r < n as real + 1.0
    ensures r < 0.0 ==> n <= 0 && n as real - 1.0 < r <= n as real
  {
    if r >= 0.0 then r.Floor else -((-r).Floor)
  }

  /** `a - b` in `unsigned int` arithmetic, which wraps modulo 2^32. */
  function UintSub(a: nat, b: nat): (r: nat)
    requires a < UINT32_LIMIT && b < UINT32_LIMIT
    ensures r < UINT32_LIMIT
    ensures b <= a ==> r == a - b
    ensures a < b ==> r == a - b + UINT32_LIMIT
  {
    (a - b) % UINT32_LIMIT
  }

  /** The number of times `for (float v = lo; v < hi; ++v)` runs its body,
      counted without floating-point rounding. */
  function Steps(lo: real, hi: real): (n: nat)
    ensures lo < hi <==> n > 0
  {
    if lo < hi then -((lo - hi).Floor) else 0
  }

  lemma StepsDecrease(lo: real, hi: real)
    requires lo < hi
    ensures Steps(lo + 1.0, hi) == Steps(lo, hi) - 1
  {
    var f := (lo - hi).Floor;
    assert (lo + 1.0 - hi).Floor == f + 1;
  }

  lemma MulSucc(a: nat, b: nat)
    ensures a * (b + 1) == a * b + a
  {
  }

  lemma MulPred(k: int, a: int)
    ensures k * a == (k - 1) * a + a
  {
  }

  /** Multiplication by a natural number is monotonic. */
  lemma {:induction false} MulLe(a: nat, b: nat, c: nat)
    requires a <= b
    ensures a * c <= b * c
  {
    if a < b {
      MulLe(a, b - 1, c);
      assert (b - 1) * c + c == b * c;
    }
  }

  lemma MulNonneg(a: real, b: real)
    requires a >= 0.0 && b >= 0.0
    ensures a * b >= 0.0
  {
  }

  /** `1.0f / d`. Dividing by zero gives an infinity in IEEE arithmetic; the
      model gives 0 there, a value no caller goes on to use. */
  function Recip(d: real): real
  {
    if d == 0.0 then 0.0 else 1.0 / d
  }

  /** Multiplying by the reciprocal is dividing. */
  lemma RecipIsQuotient(p: real, d: real)
    requires d != 0.0
    ensures p * Recip(d) == p / d
  {
  }

  /** `p / d` in floating point. Where d is 0 IEEE arithmetic gives an
      infinity or NaN; the model gives 0 there, as Recip does. */
  function Quot(p: real, d: real): (q: real)
    ensures d != 0.0 ==> q * d == p
  {
    if d == 0.0 then 0.0 else p / d
  }

  /** Three numbers, all positive or all negative. */
  predicate SameSign(a: real, b: real, c: real)
  {
    (a > 0.0 && b > 0.0 && c > 0.0) || (a < 0.0 && b < 0.0 && c < 0.0)
  }

  /** i * (1 / n) for 0 <= i < n is the fraction i / n, which lies in [0, 1). */
  lemma FractionOfRange(i: nat, n: nat)
    requires i < n
    ensures i as real * (1.0 / n as real) == i as real / n as real
    ensures 0.0 <= i as real / n as real < 1.0
  {
  }

  /** A ratio whose numerator is no larger than its denominator in magnitude
      is at most 1 in magnitude. */
  lemma RatioAtMostOne(n: real, d: real)
    requires d != 0.0 && Abs(n) <= Abs(d)
    ensures Abs(n / d) <= 1.0
  {
    var q := n / d;
    assert q * d == n;
    assert Abs(q) * Abs(d) == Abs(n) by {
      if q < 0.0 && d < 0.0 { assert Abs(q) * Abs(d) == q * d; }
      else if q < 0.0 { assert Abs(q) * Abs(d) == -(q * d); }
      else if d < 0.0 { assert Abs(q) * Abs(d) == -(q * d); }
    }
    assert Abs(q) == Abs(n) / Abs(d);
    RatioOfOrdered(Abs(n), Abs(d));
  }

  lemma RatioOfOrdered(x: real, y: real)
    requires 0.0 <= x <= y && y > 0.0
    ensures x / y <= 1.0
  {
  }

  lemma Distribute(k: nat, a: real)
    requires k > 0
    ensures k as real * a == (k - 1) as real * a + a
  {
  }
}
